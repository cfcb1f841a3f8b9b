/**
 * The self-contained string and number helpers of `src/utils.ts`:
 * clamping, regular-expression escaping, path and phone-number normalisation,
 * and slicing of UTF-16 strings that never cuts a surrogate pair.
 */
module Utils {
  import opened Wrappers
  import opened Js

  function Max(a: real, b: real): real { if a >= b then a else b }
  function Min(a: real, b: real): real { if a <= b then a else b }

  // ---------------------------------------------------------------- clamping

  /** `Math.max(min, Math.min(max, value))`. */
  function ClampNumber(value: real, min: real, max: real): (r: real)
    ensures min <= max ==> min <= r <= max
    ensures min <= value <= max ==> r == value
    ensures max < min ==> r == min
    ensures value < min ==> r == min
    ensures min <= max < value ==> r == max
  {
    Max(min, Min(max, value))
  }

  /** `clampNumber(Math.floor(value), min, max)`. */
  function ClampInt(value: real, min: real, max: real): (r: real)
    ensures min <= max ==> min <= r <= max
    ensures min <= value.Floor as real <= max ==> r == value.Floor as real
    ensures min == min.Floor as real && max == max.Floor as real ==> r == r.Floor as real
  {
    ClampNumber(value.Floor as real, min, max)
  }

  // ------------------------------------------------------- regular expressions

  /** The characters `.*+?^${}()|[]\` that `escapeRegExp` prefixes with a backslash. */
  predicate IsRegExpSpecial(c: char) {
    c in ".*+?^${}()|[]\\"
  }

  function EscapeChar(c: char): string {
    if IsRegExpSpecial(c) then ['\\', c] else [c]
  }

  /** `value.replace(/[.*+?^${}()|[\]\\]/g, "\\$&")`. */
  function EscapeRegExp(value: string): (r: string)
    ensures |r| >= |value|
  {
    if value == [] then [] else EscapeChar(value[0]) + EscapeRegExp(value[1..])
  }

  /** Drops the backslash of every escape pair: the inverse of `EscapeRegExp`. */
  function Unescape(r: string): string {
    if r == [] then []
    else if r[0] == '\\' && |r| >= 2 then [r[1]] + Unescape(r[2..])
    else [r[0]] + Unescape(r[1..])
  }

  /** Every special character of `r` appears as the second half of a backslash pair. */
  predicate WellEscaped(r: string) {
    if r == [] then true
    else if r[0] == '\\' then |r| >= 2 && IsRegExpSpecial(r[1]) && WellEscaped(r[2..])
    else !IsRegExpSpecial(r[0]) && WellEscaped(r[1..])
  }

  /** Escaping distributes over concatenation: each character is escaped on its own. */
  lemma {:induction false} EscapeRegExpConcat(a: string, b: string)
    ensures EscapeRegExp(a + b) == EscapeRegExp(a) + EscapeRegExp(b)
  {
    if a == [] {
      assert a + b == b;
    } else {
      assert (a + b)[1..] == a[1..] + b;
      EscapeRegExpConcat(a[1..], b);
    }
  }

  /** Removing the inserted backslashes recovers the input. */
  lemma {:induction false} UnescapeEscapeRegExp(s: string)
    ensures Unescape(EscapeRegExp(s)) == s
  {
    if s != [] {
      UnescapeEscapeRegExp(s[1..]);
      var rest := EscapeRegExp(s[1..]);
      if IsRegExpSpecial(s[0]) {
        assert (['\\', s[0]] + rest)[2..] == rest;
      } else {
        assert ([s[0]] + rest)[1..] == rest;
      }
    }
  }

  /** The escaped string contains no unescaped special character. */
  lemma {:induction false} EscapeRegExpWellEscaped(s: string)
    ensures WellEscaped(EscapeRegExp(s))
  {
    if s != [] {
      EscapeRegExpWellEscaped(s[1..]);
      var rest := EscapeRegExp(s[1..]);
      if IsRegExpSpecial(s[0]) {
        assert (['\\', s[0]] + rest)[2..] == rest;
      } else {
        assert ([s[0]] + rest)[1..] == rest;
      }
    }
  }

  /** Conversely, every well-escaped string is the escape of its unescaping. */
  lemma {:induction false} WellEscapedIsEscape(r: string)
    requires WellEscaped(r)
    ensures EscapeRegExp(Unescape(r)) == r
  {
    if r != [] {
      if r[0] == '\\' {
        WellEscapedIsEscape(r[2..]);
        assert ([r[1]] + Unescape(r[2..]))[1..] == Unescape(r[2..]);
        assert r == ['\\', r[1]] + r[2..];
      } else {
        WellEscapedIsEscape(r[1..]);
        assert ([r[0]] + Unescape(r[1..]))[1..] == Unescape(r[1..]);
        assert r == [r[0]] + r[1..];
      }
    }
  }

  // ------------------------------------------------------------------- paths

  /** Prefixes `/` unless `p` already starts with it. */
  function NormalizePath(p: string): (r: string)
    ensures |r| >= 1 && r[0] == '/'
    ensures StartsWith(p, "/") ==> r == p
    ensures !StartsWith(p, "/") ==> r[1..] == p
  {
    if !StartsWith(p, "/") then "/" + p else p
  }

  lemma NormalizePathIdempotent(p: string)
    ensures NormalizePath(NormalizePath(p)) == NormalizePath(p)
  {
  }

  // ----------------------------------------------------------- phone numbers

  predicate IsDigit(c: char) { '0' <= c <= '9' }

  predicate IsE164Char(c: char) { IsDigit(c) || c == '+' }

  /** `s.replace(/[^\d+]/g, "")`: keeps ASCII digits and `+`. */
  function KeepE164Chars(s: string): (r: string)
    ensures |r| <= |s|
    ensures forall i :: 0 <= i < |r| ==> IsE164Char(r[i])
  {
    if s == [] then []
    else (if IsE164Char(s[0]) then [s[0]] else []) + KeepE164Chars(s[1..])
  }

  /** The ASCII digits of `s`, in order. */
  function DigitsOf(s: string): string {
    if s == [] then [] else (if IsDigit(s[0]) then [s[0]] else []) + DigitsOf(s[1..])
  }

  lemma {:induction false} DigitsOfConcat(a: string, b: string)
    ensures DigitsOf(a + b) == DigitsOf(a) + DigitsOf(b)
  {
    if a == [] {
      assert a + b == b;
    } else {
      assert (a + b)[1..] == a[1..] + b;
      DigitsOfConcat(a[1..], b);
    }
  }

  lemma {:induction false} DigitsOfTrimStart(s: string)
    ensures DigitsOf(TrimStart(s)) == DigitsOf(s)
  {
    if s != [] && IsWhitespace(s[0]) {
      DigitsOfTrimStart(s[1..]);
    }
  }

  lemma {:induction false} DigitsOfTrimEnd(s: string)
    ensures DigitsOf(TrimEnd(s)) == DigitsOf(s)
  {
    if s != [] && IsWhitespace(s[|s| - 1]) {
      var init := s[..|s| - 1];
      DigitsOfTrimEnd(init);
      assert s == init + [s[|s| - 1]];
      DigitsOfConcat(init, [s[|s| - 1]]);
    }
  }

  /** Trimming drops whitespace only, so it keeps every digit. */
  lemma DigitsOfTrim(s: string)
    ensures DigitsOf(Trim(s)) == DigitsOf(s)
  {
    DigitsOfTrimStart(s);
    DigitsOfTrimEnd(TrimStart(s));
  }

  lemma {:induction false} DigitsOfKeepE164Chars(s: string)
    ensures DigitsOf(KeepE164Chars(s)) == DigitsOf(s)
  {
    if s != [] {
      DigitsOfKeepE164Chars(s[1..]);
      DigitsOfConcat(if IsE164Char(s[0]) then [s[0]] else [], KeepE164Chars(s[1..]));
    }
  }

  lemma {:induction false} KeepE164CharsOfKept(s: string)
    requires forall i :: 0 <= i < |s| ==> IsE164Char(s[i])
    ensures KeepE164Chars(s) == s
  {
    if s != [] {
      KeepE164CharsOfKept(s[1..]);
      assert [s[0]] + s[1..] == s;
    }
  }

  /** `+` followed by `digits`, dropping a `+` that `digits` already starts with. */
  function WithPlus(digits: string): (r: string)
    ensures |r| >= 1 && r[0] == '+'
  {
    if StartsWith(digits, "+") then "+" + digits[1..] else "+" + digits
  }

  /** The prefix keeps the characters allowed and the digits unchanged. */
  lemma WithPlusFacts(digits: string)
    requires forall i :: 0 <= i < |digits| ==> IsE164Char(digits[i])
    ensures forall i :: 0 <= i < |WithPlus(digits)| ==> IsE164Char(WithPlus(digits)[i])
    ensures DigitsOf(WithPlus(digits)) == DigitsOf(digits)
  {
    if StartsWith(digits, "+") {
      assert digits == "+" + digits[1..];
      DigitsOfConcat("+", digits[1..]);
    } else {
      DigitsOfConcat("+", digits);
    }
  }

  /** Strips formatting and replaces one leading `+` with its own, or adds one when there is none. */
  function NormalizeE164(number: string): (r: string)
    ensures |r| >= 1 && r[0] == '+'
  {
    WithPlus(KeepE164Chars(Trim(number)))
  }

  /** A normalised number holds only digits and `+`, and exactly the digits of the input. */
  lemma NormalizeE164Shape(number: string)
    ensures forall i :: 0 <= i < |NormalizeE164(number)| ==> IsE164Char(NormalizeE164(number)[i])
    ensures DigitsOf(NormalizeE164(number)) == DigitsOf(number)
  {
    var digits := KeepE164Chars(Trim(number));
    DigitsOfKeepE164Chars(Trim(number));
    DigitsOfTrim(number);
    WithPlusFacts(digits);
  }

  /** A normalised number is a fixpoint: it is already trimmed, filtered and `+`-prefixed. */
  lemma {:induction false} NormalizeE164Fixpoint(r: string)
    requires |r| >= 1 && r[0] == '+'
    requires forall i :: 0 <= i < |r| ==> IsE164Char(r[i])
    ensures NormalizeE164(r) == r
  {
    assert IsE164Char(r[|r| - 1]);
    TrimOfTrimmed(r);
    KeepE164CharsOfKept(r);
    assert "+" + r[1..] == r;
  }

  lemma NormalizeE164Idempotent(number: string)
    ensures NormalizeE164(NormalizeE164(number)) == NormalizeE164(number)
  {
    NormalizeE164Fixpoint(NormalizeE164(number));
  }

  /** The documented examples. */
  lemma NormalizePathExamples()
    ensures NormalizePath("foo") == "/foo"
    ensures NormalizePath("/bar") == "/bar"
  {
  }

  // ------------------------------------------------------------------- UTF-16

  /** A JavaScript string is a sequence of UTF-16 code units. */
  newtype CodeUnit = x: int | 0 <= x < 0x1_0000

  predicate IsHighSurrogate(u: CodeUnit) { 0xD800 <= u <= 0xDBFF }

  predicate IsLowSurrogate(u: CodeUnit) { 0xDC00 <= u <= 0xDFFF }

  /** Cutting `s` at offset `i` would separate the two halves of a surrogate pair. */
  predicate SplitsPair(s: seq<CodeUnit>, i: int) {
    0 < i < |s| && IsHighSurrogate(s[i - 1]) && IsLowSurrogate(s[i])
  }

  /**
   * The bounds `sliceUtf16Safe` starts from: negative bounds count from the end,
   * both are clamped to `[0, len]`, a missing end is `len`, and reversed bounds are swapped.
   */
  function OrderedBounds(len: nat, start: int, end: Option<int>): (b: (nat, nat))
    ensures b.0 <= b.1 <= len
    ensures var f, t := RelativeIndex(len, start), (if end.None? then len else RelativeIndex(len, end.value));
      {b.0, b.1} == {f, t}
  {
    var f := RelativeIndex(len, start);
    var t := if end.None? then len else RelativeIndex(len, end.value);
    if t < f then (t, f) else (f, t)
  }

  /** The bounds after the one-step surrogate adjustment of both ends. */
  function SafeBounds(input: seq<CodeUnit>, start: int, end: Option<int>): (b: (nat, nat))
    ensures b.0 <= |input| && b.1 <= |input|
    ensures !SplitsPair(input, b.0) && !SplitsPair(input, b.1)
    ensures var (f, t) := OrderedBounds(|input|, start, end);
      && (if SplitsPair(input, f) then b.0 == f + 1 else b.0 == f)
      && (if SplitsPair(input, t) then b.1 == t - 1 else b.1 == t)
  {
    var (f, t) := OrderedBounds(|input|, start, end);
    var from := if 0 < f < |input| && IsLowSurrogate(input[f]) && IsHighSurrogate(input[f - 1]) then f + 1 else f;
    var to := if 0 < t < |input| && IsHighSurrogate(input[t - 1]) && IsLowSurrogate(input[t]) then t - 1 else t;
    (from, to)
  }

  /** The slice of `input` between offsets `a` and `b`, neither of which cuts a surrogate pair. */
  predicate SafeSliceAt(input: seq<CodeUnit>, r: seq<CodeUnit>, a: int, b: int) {
    0 <= a <= b <= |input| && r == input[a..b] && !SplitsPair(input, a) && !SplitsPair(input, b)
  }

  /** `slice` with the bound rules of `OrderedBounds`, never cutting a surrogate pair. */
  function SliceUtf16Safe(input: seq<CodeUnit>, start: int, end: Option<int>): (r: seq<CodeUnit>)
    ensures exists a, b :: SafeSliceAt(input, r, a, b)
    ensures var (a, b) := SafeBounds(input, start, end); r == if a < b then input[a..b] else []
  {
    var (from, to) := SafeBounds(input, start, end);
    var r := Slice(input, from, to);
    assert if from < to then SafeSliceAt(input, r, from, to) else SafeSliceAt(input, r, 0, 0);
    r
  }

  /** Where no bound falls inside a surrogate pair, the result is the plain ordered slice. */
  lemma SliceUtf16SafeWithoutPairs(input: seq<CodeUnit>, start: int, end: Option<int>)
    requires forall i :: 0 <= i < |input| ==> !IsHighSurrogate(input[i])
    ensures var (f, t) := OrderedBounds(|input|, start, end);
      SliceUtf16Safe(input, start, end) == input[f..t]
  {
  }

  /** A start that falls inside a surrogate pair moves past the whole pair. */
  lemma SliceUtf16SafeInsidePair()
    ensures SliceUtf16Safe([0x61, 0xD83D, 0xDE00, 0x62], 2, None) == [0x62]
  {
    var input: seq<CodeUnit> := [0x61, 0xD83D, 0xDE00, 0x62];
    assert SafeBounds(input, 2, None) == (3, 4);
    assert input[3..4] == [0x62];
  }

  /** Adjusting the start past a pair can make it overtake the end: the result is then empty. */
  lemma SliceUtf16SafeEmptyWhenCrossed(input: seq<CodeUnit>, start: int, end: Option<int>)
    requires var (a, b) := SafeBounds(input, start, end); b <= a
    ensures SliceUtf16Safe(input, start, end) == []
  {
  }

  /**
   * Cuts `input` to at most `max(0, floor(maxLen))` code units, one fewer when the
   * cut would separate a surrogate pair.
   */
  function TruncateUtf16Safe(input: seq<CodeUnit>, maxLen: real): (r: seq<CodeUnit>)
    ensures var limit := if maxLen.Floor > 0 then maxLen.Floor else 0;
      && (|input| <= limit ==> r == input)
      && (|input| > limit && !SplitsPair(input, limit) ==> r == input[..limit])
      && (|input| > limit && SplitsPair(input, limit) ==> r == input[..limit - 1])
  {
    var limit := if maxLen.Floor > 0 then maxLen.Floor else 0;
    if |input| <= limit then input else SliceUtf16Safe(input, 0, Some(limit))
  }
}
