/**
 * The text primitives of the full-text memory index (`src/memory/text-manager.ts`):
 * the tokenizer shared by indexed chunks and queries, the term counter,
 * and the display snippet of a chunk.
 */
module Tokenizer {
  import opened Js

  // --------------------------------------------------------------- tokenize

  /** A character of the class `[\p{L}\p{N}_-]`, restricted to ASCII. */
  predicate IsWordChar(c: char) {
    ('a' <= c <= 'z') || ('A' <= c <= 'Z') || ('0' <= c <= '9') || c == '_' || c == '-'
  }

  predicate AllWordChars(w: string) {
    forall i :: 0 <= i < |w| ==> IsWordChar(w[i])
  }

  /** The longest prefix of `s` made of word characters. */
  function LeadingRun(s: string): (w: string)
    ensures |w| <= |s| && w == s[..|w|]
    ensures AllWordChars(w)
    ensures |w| < |s| ==> !IsWordChar(s[|w|])
  {
    if s != [] && IsWordChar(s[0]) then [s[0]] + LeadingRun(s[1..]) else []
  }

  /** `s.match(/[\p{L}\p{N}_-]+/gu) ?? []`: the maximal runs of word characters, in order. */
  function Runs(s: string): seq<string>
    decreases |s|
  {
    if s == [] then []
    else if !IsWordChar(s[0]) then Runs(s[1..])
    else
      var w := LeadingRun(s);
      [w] + Runs(s[|w|..])
  }

  /** The runs one after another. */
  function Concat(rs: seq<string>): string {
    if rs == [] then [] else rs[0] + Concat(rs[1..])
  }

  /** The word characters of `s`, in order. */
  function WordChars(s: string): string {
    if s == [] then [] else (if IsWordChar(s[0]) then [s[0]] else []) + WordChars(s[1..])
  }

  lemma {:induction false} WordCharsConcat(a: string, b: string)
    ensures WordChars(a + b) == WordChars(a) + WordChars(b)
  {
    if a != [] {
      assert (a + b)[0] == a[0] && (a + b)[1..] == a[1..] + b;
      WordCharsConcat(a[1..], b);
      assert WordChars(a + b) == (if IsWordChar(a[0]) then [a[0]] else []) + WordChars(a[1..] + b);
    } else {
      assert a + b == b;
    }
  }

  lemma {:induction false} WordCharsOfRun(w: string)
    requires AllWordChars(w)
    ensures WordChars(w) == w
  {
    if w != [] {
      WordCharsOfRun(w[1..]);
    }
  }

  /** The runs together are exactly the word characters of `s`, in order: none is lost or repeated. */
  lemma {:induction false} RunsCover(s: string)
    ensures Concat(Runs(s)) == WordChars(s)
    decreases |s|
  {
    if s != [] {
      if !IsWordChar(s[0]) {
        RunsCover(s[1..]);
      } else {
        var w := LeadingRun(s);
        var rest := s[|w|..];
        RunsCover(rest);
        assert s == w + rest;
        WordCharsConcat(w, rest);
        WordCharsOfRun(w);
        var rs := Runs(s);
        assert rs == [w] + Runs(rest);
        assert rs[0] == w && rs[1..] == Runs(rest);
      }
    }
  }

  /**
   * Every run is a non-empty string of word characters taken from `s`, and the runs
   * together are exactly the word characters of `s`, in order.
   */
  lemma {:induction false} RunsShape(s: string)
    ensures forall k :: 0 <= k < |Runs(s)| ==> Runs(s)[k] != [] && AllWordChars(Runs(s)[k])
    ensures forall k, i :: 0 <= k < |Runs(s)| && 0 <= i < |Runs(s)[k]| ==> Runs(s)[k][i] in s
    ensures Concat(Runs(s)) == WordChars(s)
    ensures s != [] && AllWordChars(s) ==> Runs(s) == [s]
    decreases |s|
  {
    RunsCover(s);
    if s != [] && AllWordChars(s) {
      RunsOfRun(s);
    }
    if s == [] {
      assert Runs(s) == [];
    } else if !IsWordChar(s[0]) {
      RunsShape(s[1..]);
      assert Runs(s) == Runs(s[1..]);
      assert forall c :: c in s[1..] ==> c in s;
    } else {
      var w := LeadingRun(s);
      var rest := s[|w|..];
      RunsShape(rest);
      assert Runs(s) == [w] + Runs(rest);
      assert forall i :: 0 <= i < |w| ==> w[i] in s;
      assert forall c :: c in rest ==> c in s;
    }
  }

  /** A non-empty string of word characters is one whole run: `match` does not split it. */
  lemma {:induction false} RunsOfRun(w: string)
    requires w != [] && AllWordChars(w)
    ensures Runs(w) == [w]
  {
    LeadingRunOfRun(w);
    assert w[|w|..] == [];
  }

  lemma {:induction false} LeadingRunOfRun(w: string)
    requires AllWordChars(w)
    ensures LeadingRun(w) == w
  {
    if w != [] {
      LeadingRunOfRun(w[1..]);
    }
  }

  /** A leading run stops at the first non-word character, whatever follows it. */
  lemma {:induction false} LeadingRunSeparated(a: string, c: char, b: string)
    requires !IsWordChar(c)
    ensures LeadingRun(a + [c] + b) == LeadingRun(a)
  {
    if a != [] {
      assert (a + [c] + b)[1..] == a[1..] + [c] + b;
      LeadingRunSeparated(a[1..], c, b);
    }
  }

  /**
   * A non-word character separates the runs: those of the text before it are followed
   * by those of the text after it, so no run spans it and none is split elsewhere.
   */
  lemma {:induction false} RunsSeparated(a: string, c: char, b: string)
    requires !IsWordChar(c)
    ensures Runs(a + [c] + b) == Runs(a) + Runs(b)
    decreases |a|
  {
    var s := a + [c] + b;
    if a == [] {
      assert s == [c] + b && s[1..] == b;
    } else if !IsWordChar(a[0]) {
      assert s[1..] == a[1..] + [c] + b;
      RunsSeparated(a[1..], c, b);
    } else {
      var w := LeadingRun(s);
      LeadingRunSeparated(a, c, b);
      assert s[|w|..] == a[|w|..] + [c] + b;
      RunsSeparated(a[|w|..], c, b);
    }
  }

  lemma {:induction false} RunsWithoutWordChars(s: string)
    requires forall i :: 0 <= i < |s| ==> !IsWordChar(s[i])
    ensures Runs(s) == []
  {
    if s != [] {
      RunsWithoutWordChars(s[1..]);
    }
  }

  /** `.filter((entry) => entry.length > 1)`. */
  function LongTokens(rs: seq<string>): seq<string> {
    if rs == [] then []
    else (if |rs[0]| > 1 then [rs[0]] else []) + LongTokens(rs[1..])
  }

  /** The kept runs are the runs longer than one character. */
  lemma {:induction false} LongTokensShape(rs: seq<string>)
    ensures |LongTokens(rs)| <= |rs|
    ensures forall k :: 0 <= k < |LongTokens(rs)| ==> |LongTokens(rs)[k]| > 1 && LongTokens(rs)[k] in rs
    ensures forall k :: 0 <= k < |rs| && |rs[k]| > 1 ==> rs[k] in LongTokens(rs)
  {
    if rs != [] {
      LongTokensShape(rs[1..]);
      assert forall k :: 0 < k < |rs| ==> rs[k] == rs[1..][k - 1];
    }
  }

  /** Each run longer than one character is kept as often as it occurs; shorter runs are dropped. */
  lemma {:induction false} LongTokensCounts(rs: seq<string>, w: string)
    ensures multiset(LongTokens(rs))[w] == if |w| > 1 then multiset(rs)[w] else 0
  {
    if rs != [] {
      LongTokensCounts(rs[1..], w);
      assert rs == [rs[0]] + rs[1..];
      assert LongTokens(rs) == (if |rs[0]| > 1 then [rs[0]] else []) + LongTokens(rs[1..]);
    }
  }

  /** The filter keeps order: filtering a concatenation concatenates the filtered parts. */
  lemma {:induction false} LongTokensConcat(a: seq<string>, b: seq<string>)
    ensures LongTokens(a + b) == LongTokens(a) + LongTokens(b)
  {
    if a == [] {
      assert a + b == b;
    } else {
      assert (a + b)[0] == a[0] && (a + b)[1..] == a[1..] + b;
      LongTokensConcat(a[1..], b);
    }
  }

  /** A string that `toLowerCase` leaves unchanged. */
  predicate IsLowerCase(w: string) {
    Lower(w) == w
  }

  /** Lower-cases `text` and keeps its maximal word-character runs of length two or more. */
  function Tokenize(text: string): seq<string> {
    LongTokens(Runs(Lower(text)))
  }

  /** Every token is lower-case, at least two characters long, and made of word characters. */
  lemma TokenizeShape(text: string)
    ensures var r := Tokenize(text);
      forall k :: 0 <= k < |r| ==> |r[k]| >= 2 && AllWordChars(r[k]) && IsLowerCase(r[k])
  {
    var lowered := Lower(text);
    var runs := Runs(lowered);
    RunsShape(lowered);
    LongTokensShape(runs);
    var r := LongTokens(runs);
    assert r == Tokenize(text);
    forall k | 0 <= k < |r|
      ensures |r[k]| >= 2 && AllWordChars(r[k]) && IsLowerCase(r[k])
    {
      var m :| 0 <= m < |runs| && runs[m] == r[k];
      assert AllWordChars(runs[m]);
      forall i | 0 <= i < |r[k]|
        ensures LowerChar(r[k][i]) == r[k][i]
      {
        assert runs[m][i] in lowered;
      }
      assert Lower(r[k]) == r[k];
    }
  }

  /** Queries and documents share one vocabulary: case does not matter to the tokenizer. */
  lemma TokenizeIgnoresCase(text: string)
    ensures Tokenize(Lower(text)) == Tokenize(text)
  {
    LowerIdempotent(text);
  }

  /**
   * A non-word character splits the tokens: those of the text before it are followed by
   * those of the text after it, in order and with repetitions.
   */
  lemma TokenizeSeparated(a: string, c: char, b: string)
    requires !IsWordChar(c)
    ensures Tokenize(a + [c] + b) == Tokenize(a) + Tokenize(b)
  {
    assert Lower(a + [c] + b) == Lower(a) + [LowerChar(c)] + Lower(b);
    RunsSeparated(Lower(a), LowerChar(c), Lower(b));
    LongTokensConcat(Runs(Lower(a)), Runs(Lower(b)));
  }

  /** A word of two or more word characters is its own single, lower-cased token. */
  lemma TokenizeWord(w: string)
    requires |w| > 1 && AllWordChars(w)
    ensures Tokenize(w) == [Lower(w)]
  {
    var lw := Lower(w);
    assert forall i :: 0 <= i < |lw| ==> IsWordChar(lw[i]) by {
      forall i | 0 <= i < |lw| ensures IsWordChar(lw[i]) {
        assert IsWordChar(w[i]) && lw[i] == LowerChar(w[i]);
      }
    }
    RunsOfRun(lw);
    assert LongTokens([lw]) == [lw] + LongTokens([]);
  }

  /** Text without a word character has no tokens. */
  lemma TokenizeWithoutWordChars(text: string)
    requires forall i :: 0 <= i < |text| ==> !IsWordChar(text[i])
    ensures Tokenize(text) == []
  {
    RunsWithoutWordChars(Lower(text));
  }


  // ------------------------------------------------------------- countTerms

  /**
   * A JavaScript `Map<string, number>` of term counts: its keys in insertion order,
   * and the count of each key.
   */
  datatype TermCounts = TermCounts(keys: seq<string>, freq: map<string, nat>)

  predicate Distinct(s: seq<string>) {
    forall a, b :: 0 <= a < b < |s| ==> s[a] != s[b]
  }

  /** `map.get(t) ?? 0`. */
  function CountOf(m: map<string, nat>, t: string): nat {
    if t in m then m[t] else 0
  }

  /** The sum of the counts of `keys` (`Array.from(terms.values()).reduce(...)`). */
  function SumOver(keys: seq<string>, freq: map<string, nat>): nat {
    if keys == [] then 0 else SumOver(keys[..|keys| - 1], freq) + CountOf(freq, keys[|keys| - 1])
  }

  lemma {:induction false} SumOverUpdateOther(keys: seq<string>, freq: map<string, nat>, t: string, v: nat)
    requires t !in keys
    ensures SumOver(keys, freq[t := v]) == SumOver(keys, freq)
  {
    if keys != [] {
      SumOverUpdateOther(keys[..|keys| - 1], freq, t, v);
    }
  }

  lemma {:induction false} SumOverIncrement(keys: seq<string>, freq: map<string, nat>, t: string)
    requires Distinct(keys) && t in keys
    ensures SumOver(keys, freq[t := CountOf(freq, t) + 1]) == SumOver(keys, freq) + 1
  {
    var init := keys[..|keys| - 1];
    if keys[|keys| - 1] == t {
      assert t !in init;
      SumOverUpdateOther(init, freq, t, CountOf(freq, t) + 1);
    } else {
      SumOverIncrement(init, freq, t);
    }
  }

  /**
   * What `countTerms` computes: each distinct token once, in order of first occurrence,
   * with its number of occurrences.
   */
  function CountTermsOf(tokens: seq<string>): TermCounts {
    if tokens == [] then TermCounts([], map[])
    else
      var prev := CountTermsOf(tokens[..|tokens| - 1]);
      var t := tokens[|tokens| - 1];
      if t in prev.freq then TermCounts(prev.keys, prev.freq[t := prev.freq[t] + 1])
      else TermCounts(prev.keys + [t], prev.freq[t := 1])
  }

  /** The keys are distinct and are exactly the counted terms. */
  predicate KeysMatch(c: TermCounts) {
    && Distinct(c.keys)
    && (forall k :: 0 <= k < |c.keys| ==> c.keys[k] in c.freq)
    && (forall t :: t in c.freq ==> t in c.keys)
  }

  lemma {:induction false} CountTermsOfKeys(tokens: seq<string>)
    ensures KeysMatch(CountTermsOf(tokens))
  {
    if tokens != [] {
      CountTermsOfKeys(tokens[..|tokens| - 1]);
    }
  }

  /** The counted terms are exactly the tokens, and each count is the token's multiplicity. */
  lemma {:induction false} CountTermsOfCounts(tokens: seq<string>)
    ensures forall t :: t in CountTermsOf(tokens).freq <==> t in tokens
    ensures forall t :: t in CountTermsOf(tokens).freq ==>
      CountTermsOf(tokens).freq[t] == multiset(tokens)[t] >= 1
  {
    if tokens != [] {
      var init := tokens[..|tokens| - 1];
      assert tokens == init + [tokens[|tokens| - 1]];
      CountTermsOfCounts(init);
    }
  }

  /** The counts add up to the number of tokens. */
  lemma {:induction false} CountTermsOfSum(tokens: seq<string>)
    ensures var c := CountTermsOf(tokens); SumOver(c.keys, c.freq) == |tokens|
  {
    if tokens != [] {
      var init := tokens[..|tokens| - 1];
      var t := tokens[|tokens| - 1];
      CountTermsOfSum(init);
      CountTermsOfKeys(init);
      var prev := CountTermsOf(init);
      var c := CountTermsOf(tokens);
      if t in prev.freq {
        assert c == TermCounts(prev.keys, prev.freq[t := CountOf(prev.freq, t) + 1]);
        SumOverIncrement(prev.keys, prev.freq, t);
      } else {
        assert c == TermCounts(prev.keys + [t], prev.freq[t := 1]);
        assert t !in prev.keys;
        SumOverUpdateOther(prev.keys, prev.freq, t, 1);
        assert c.keys[..|c.keys| - 1] == prev.keys;
      }
    }
  }

  /** `countTerms`: one pass over the tokens, updating the map entry of each. */
  method CountTerms(tokens: seq<string>) returns (counts: TermCounts)
    ensures counts == CountTermsOf(tokens)
    ensures forall t :: t in counts.freq <==> t in tokens
    ensures forall t :: t in counts.freq ==> counts.freq[t] == multiset(tokens)[t]
    ensures SumOver(counts.keys, counts.freq) == |tokens|
    ensures KeysMatch(counts)
  {
    counts := TermCounts([], map[]);
    for i := 0 to |tokens|
      invariant counts == CountTermsOf(tokens[..i])
    {
      var token := tokens[i];
      ghost var prefix := tokens[..i + 1];
      assert prefix[..i] == tokens[..i] && prefix[i] == token;
      var seen := if token in counts.freq then counts.freq[token] else 0;
      var keys := if token in counts.freq then counts.keys else counts.keys + [token];
      counts := TermCounts(keys, counts.freq[token := seen + 1]);
      assert counts == CountTermsOf(prefix);
    }
    assert tokens[..|tokens|] == tokens;
    CountTermsOfKeys(tokens);
    CountTermsOfCounts(tokens);
    CountTermsOfSum(tokens);
  }

  // ---------------------------------------------------------- snippetForText

  const SnippetMaxChars: nat := 700

  /** `s.replace(/\s+/g, " ")`: every run of whitespace becomes one space. */
  function CollapseWhitespace(s: string): string
    decreases |s|
  {
    if s == [] then []
    else if IsWhitespace(s[0]) then
      var t := TrimStart(s);
      assert |t| < |s|;
      [' '] + CollapseWhitespace(t)
    else [s[0]] + CollapseWhitespace(s[1..])
  }

  /** The only whitespace is a single space, and no two spaces are adjacent. */
  predicate SingleSpaced(s: string) {
    && (forall i :: 0 <= i < |s| && IsWhitespace(s[i]) ==> s[i] == ' ')
    && (forall i :: 0 < i < |s| && s[i] == ' ' ==> s[i - 1] != ' ')
  }

  /** The characters of `s` that are not whitespace, in order. */
  function NonWhitespace(s: string): string {
    if s == [] then [] else (if IsWhitespace(s[0]) then [] else [s[0]]) + NonWhitespace(s[1..])
  }

  lemma {:induction false} NonWhitespaceConcat(a: string, b: string)
    ensures NonWhitespace(a + b) == NonWhitespace(a) + NonWhitespace(b)
  {
    if a == [] {
      assert a + b == b;
    } else {
      assert (a + b)[1..] == a[1..] + b;
      NonWhitespaceConcat(a[1..], b);
    }
  }

  /**
   * Collapsing leaves single spaces between the non-whitespace characters, which it keeps
   * in order; the result starts with a space exactly when the input starts with whitespace.
   */
  lemma {:induction false} CollapseWhitespaceShape(s: string)
    ensures var r := CollapseWhitespace(s);
      && (s == [] <==> r == [])
      && (s != [] ==> if IsWhitespace(s[0]) then r[0] == ' ' else r[0] == s[0])
      && SingleSpaced(r)
      && NonWhitespace(r) == NonWhitespace(s)
    decreases |s|
  {
    if s == [] {
    } else if IsWhitespace(s[0]) {
      var t := TrimStart(s);
      CollapseWhitespaceShape(t);
      NonWhitespaceTrimStart(s);
    } else {
      CollapseWhitespaceShape(s[1..]);
      assert s == [s[0]] + s[1..];
      NonWhitespaceConcat([s[0]], s[1..]);
    }
  }

  /** `text.replace(/\s+/g, " ").trim()`. */
  function NormalizeSnippetText(text: string): string {
    Trim(CollapseWhitespace(text))
  }

  /**
   * The normalised text neither starts nor ends with a space, is single-spaced, and keeps
   * every non-whitespace character of the text in order.
   */
  lemma NormalizeSnippetTextShape(text: string)
    ensures var r := NormalizeSnippetText(text);
      && (r == [] || (r[0] != ' ' && r[|r| - 1] != ' '))
      && SingleSpaced(r)
      && NonWhitespace(r) == NonWhitespace(text)
  {
    var c := CollapseWhitespace(text);
    CollapseWhitespaceShape(text);
    TrimSingleSpaced(c);
    assert NormalizeSnippetText(text) == Trim(c);
  }

  lemma TrimSingleSpaced(c: string)
    requires SingleSpaced(c)
    ensures var r := Trim(c);
      && (r == [] || (r[0] != ' ' && r[|r| - 1] != ' '))
      && SingleSpaced(r)
      && NonWhitespace(r) == NonWhitespace(c)
  {
    var r := Trim(c);
    var a := TrimOffset(c);
    TrimKeepsNonWhitespace(c);
    SingleSpacedInfix(c, a, a + |r|);
  }

  lemma TrimKeepsNonWhitespace(c: string)
    ensures NonWhitespace(Trim(c)) == NonWhitespace(c)
  {
    NonWhitespaceTrimStart(c);
    NonWhitespaceTrimEnd(TrimStart(c));
  }

  lemma {:induction false} NonWhitespaceTrimStart(s: string)
    ensures NonWhitespace(TrimStart(s)) == NonWhitespace(s)
  {
    if s != [] && IsWhitespace(s[0]) {
      NonWhitespaceTrimStart(s[1..]);
    }
  }

  lemma {:induction false} NonWhitespaceTrimEnd(s: string)
    ensures NonWhitespace(TrimEnd(s)) == NonWhitespace(s)
  {
    if s != [] && IsWhitespace(s[|s| - 1]) {
      var init := s[..|s| - 1];
      NonWhitespaceTrimEnd(init);
      assert s == init + [s[|s| - 1]];
      NonWhitespaceConcat(init, [s[|s| - 1]]);
    }
  }

  lemma SingleSpacedInfix(c: string, a: int, b: int)
    requires SingleSpaced(c) && 0 <= a <= b <= |c|
    ensures SingleSpaced(c[a..b])
  {
    var r := c[a..b];
    assert forall i :: 0 <= i < |r| ==> r[i] == c[a + i];
  }

  /**
   * The display snippet of a chunk: its whitespace-normalised text, cut to 699 characters
   * plus an ellipsis when longer than 700.
   */
  function SnippetForText(text: string): string {
    var normalized := NormalizeSnippetText(text);
    if |normalized| <= SnippetMaxChars then normalized
    else normalized[..SnippetMaxChars - 1] + "…"
  }

  /**
   * A snippet is at most 700 characters long; it is the normalised text when that fits,
   * and otherwise the normalised text's first 699 characters followed by an ellipsis.
   */
  lemma SnippetForTextShape(text: string)
    ensures var r, n := SnippetForText(text), NormalizeSnippetText(text);
      && |r| <= SnippetMaxChars
      && (|n| <= SnippetMaxChars ==> r == n)
      && (|n| > SnippetMaxChars ==> r == n[..SnippetMaxChars - 1] + "…" && |r| == SnippetMaxChars)
  {
  }
}
