/**
 * `TextMemoryManager.search` over a built index (`src/memory/text-manager.ts`):
 * the empty-result short-circuits, BM25 score accumulation per document,
 * the phrase bonus, normalisation by the largest raw score, the `minScore`
 * filter, the descending sort and the `maxResults` truncation.
 *
 * The loops of the source are `AccumulateScores` and `AddPhraseBonus`, proved
 * against the reference functions `QueryScores` and `Boosted`; the expression
 * chain `map`/`filter`/`sort`/`slice` is the function `Rank`. `Math.log` is the
 * parameter `ln`, so nothing below depends on the value of a BM25 score.
 */
module MemorySearch {
  import opened Js
  import opened Tokenizer
  import opened Utils
  import opened MemoryIndex

  const K1: real := 1.2
  const B: real := 0.75
  const PhraseBonus: real := 0.2
  /** The floor `1e-9` used both for the BM25 norm and for the largest raw score. */
  const Epsilon: real := 0.000000001

  datatype SearchResult = SearchResult(
    path: string, startLine: int, endLine: int, score: real, snippet: string, source: Source)

  function ResultOf(doc: IndexedChunk, score: real): SearchResult {
    SearchResult(doc.path, doc.startLine, doc.endLine, score, doc.snippet, doc.source)
  }

  // ------------------------------------------------------------- BM25 terms

  function Idf(ln: real -> real, docCount: nat, df: nat): real {
    ln(1.0 + (docCount as real - df as real + 0.5) / (df as real + 0.5))
  }

  function TermWeight(idf: real, tf: nat, docLength: nat, avgDocLength: real): real {
    var norm := tf as real + K1 * (1.0 - B + B * (docLength as real / Max(1.0, avgDocLength)));
    idf * ((tf as real * (K1 + 1.0)) / Max(Epsilon, norm))
  }

  // ----------------------------------------------------- score accumulation

  /**
   * `scoreByDoc`: a map from document index to raw score, together with the
   * order in which its keys were first inserted (the iteration order of a `Map`).
   */
  datatype Scores = Scores(order: seq<nat>, raw: map<nat, real>)

  /** The keys are listed once each, in `order`, and nothing else is a key. */
  ghost predicate ScoresWF(s: Scores) {
    && (forall a, b :: 0 <= a < b < |s.order| ==> s.order[a] != s.order[b])
    && (forall i :: i in s.raw <==> i in s.order)
  }

  /** `scoreByDoc.set(i, (scoreByDoc.get(i) ?? 0) + w)`. */
  function AddScore(s: Scores, i: nat, w: real): Scores {
    if i in s.raw then Scores(s.order, s.raw[i := s.raw[i] + w])
    else Scores(s.order + [i], s.raw[i := w])
  }

  /** The inner loop over one term's postings, skipping indices without a document. */
  function PostingScores(docs: seq<IndexedChunk>, avgDocLength: real, idf: real, ps: seq<Posting>, s: Scores): Scores {
    if ps == [] then s
    else
      var before := PostingScores(docs, avgDocLength, idf, ps[..|ps| - 1], s);
      var p := ps[|ps| - 1];
      if p.index < |docs| then AddScore(before, p.index, TermWeight(idf, p.tf, docs[p.index].length, avgDocLength))
      else before
  }

  /** A term contributes only when it has a postings list and a positive document frequency. */
  predicate Scored(idx: Index, t: string) {
    t in idx.postings && CountOf(idx.docFrequency, t) > 0
  }

  function TermScores(idx: Index, ln: real -> real, s: Scores, t: string): Scores {
    if Scored(idx, t) then
      var idf := Idf(ln, |idx.docs|, CountOf(idx.docFrequency, t));
      PostingScores(idx.docs, idx.avgDocLength, idf, idx.postings[t], s)
    else s
  }

  /** The raw scores after the loop over all query terms, duplicates included. */
  function QueryScores(idx: Index, ln: real -> real, terms: seq<string>): Scores {
    if terms == [] then Scores([], map[])
    else TermScores(idx, ln, QueryScores(idx, ln, terms[..|terms| - 1]), terms[|terms| - 1])
  }

  /** Document `i` has a posting for term `t`, and `t` is scored. */
  predicate Matches(idx: Index, t: string, i: nat) {
    && Scored(idx, t) && i < |idx.docs|
    && exists j :: 0 <= j < |idx.postings[t]| && idx.postings[t][j].index == i
  }

  predicate MatchedBy(idx: Index, terms: seq<string>, i: nat) {
    exists k :: 0 <= k < |terms| && Matches(idx, terms[k], i)
  }

  lemma AddScoreFacts(s: Scores, i: nat, w: real)
    requires ScoresWF(s)
    ensures ScoresWF(AddScore(s, i, w))
    ensures forall x :: x in AddScore(s, i, w).order <==> x in s.order || x == i
  {
  }

  lemma {:induction false} PostingScoresFacts(docs: seq<IndexedChunk>, avgDocLength: real, idf: real, ps: seq<Posting>, s: Scores)
    requires ScoresWF(s)
    ensures ScoresWF(PostingScores(docs, avgDocLength, idf, ps, s))
    ensures forall x :: x in PostingScores(docs, avgDocLength, idf, ps, s).order <==>
      (x in s.order || (x < |docs| && exists j :: 0 <= j < |ps| && ps[j].index == x))
  {
    if ps != [] {
      var init := ps[..|ps| - 1];
      var p := ps[|ps| - 1];
      PostingScoresFacts(docs, avgDocLength, idf, init, s);
      var before := PostingScores(docs, avgDocLength, idf, init, s);
      if p.index < |docs| {
        AddScoreFacts(before, p.index, TermWeight(idf, p.tf, docs[p.index].length, avgDocLength));
      }
      forall x | x < |docs| && (exists j :: 0 <= j < |ps| && ps[j].index == x)
        ensures x in PostingScores(docs, avgDocLength, idf, ps, s).order
      {
        var j :| 0 <= j < |ps| && ps[j].index == x;
        if j < |ps| - 1 {
          assert init[j].index == x;
        }
      }
      assert forall j :: 0 <= j < |init| ==> init[j] == ps[j];
    }
  }

  /** A document ends up in `scoreByDoc` exactly when some query term has a posting for it. */
  lemma {:induction false} QueryScoresFacts(idx: Index, ln: real -> real, terms: seq<string>)
    ensures ScoresWF(QueryScores(idx, ln, terms))
    ensures forall i :: i in QueryScores(idx, ln, terms).order <==> MatchedBy(idx, terms, i)
  {
    if terms != [] {
      var init := terms[..|terms| - 1];
      var t := terms[|terms| - 1];
      QueryScoresFacts(idx, ln, init);
      var before := QueryScores(idx, ln, init);
      if Scored(idx, t) {
        var idf := Idf(ln, |idx.docs|, CountOf(idx.docFrequency, t));
        PostingScoresFacts(idx.docs, idx.avgDocLength, idf, idx.postings[t], before);
      }
      forall i ensures i in QueryScores(idx, ln, terms).order <==> MatchedBy(idx, terms, i) {
        if MatchedBy(idx, terms, i) {
          var k :| 0 <= k < |terms| && Matches(idx, terms[k], i);
          if k < |terms| - 1 {
            assert init[k] == terms[k];
          }
        }
        if MatchedBy(idx, init, i) {
          var k :| 0 <= k < |init| && Matches(idx, init[k], i);
          assert terms[k] == init[k];
        }
      }
    }
  }

  /** The inner loop of the accumulation: the postings of one scored term. */
  method AddTermScores(docs: seq<IndexedChunk>, avgDocLength: real, idf: real, ps: seq<Posting>, s0: Scores)
    returns (s: Scores)
    ensures s == PostingScores(docs, avgDocLength, idf, ps, s0)
  {
    s := s0;
    for j := 0 to |ps|
      invariant s == PostingScores(docs, avgDocLength, idf, ps[..j], s0)
    {
      assert ps[..j + 1][..j] == ps[..j];
      var p := ps[j];
      if p.index < |docs| {
        var w := TermWeight(idf, p.tf, docs[p.index].length, avgDocLength);
        if p.index in s.raw {
          s := Scores(s.order, s.raw[p.index := s.raw[p.index] + w]);
        } else {
          s := Scores(s.order + [p.index], s.raw[p.index := w]);
        }
      }
    }
    assert ps[..|ps|] == ps;
  }

  /** The outer loop of the accumulation, over the query terms in order. */
  method AccumulateScores(idx: Index, ln: real -> real, terms: seq<string>) returns (s: Scores)
    ensures s == QueryScores(idx, ln, terms)
  {
    s := Scores([], map[]);
    for k := 0 to |terms|
      invariant s == QueryScores(idx, ln, terms[..k])
    {
      assert terms[..k + 1][..k] == terms[..k];
      var t := terms[k];
      var df := CountOf(idx.docFrequency, t);
      if t in idx.postings && df > 0 {
        var idf := Idf(ln, |idx.docs|, df);
        s := AddTermScores(idx.docs, idx.avgDocLength, idf, idx.postings[t], s);
      }
    }
    assert terms[..|terms|] == terms;
  }

  // ------------------------------------------------------------ phrase bonus

  /** Document `i` exists and its lower-cased text contains the lower-cased query. */
  predicate HasPhrase(docs: seq<IndexedChunk>, phrase: string, i: nat) {
    i < |docs| && Contains(Lower(docs[i].text), phrase)
  }

  /** The raw scores after the phrase bonus: `+0.2` for each document containing the phrase. */
  function Boosted(docs: seq<IndexedChunk>, phrase: string, raw: map<nat, real>): map<nat, real> {
    map i | i in raw :: if HasPhrase(docs, phrase, i) then raw[i] + PhraseBonus else raw[i]
  }

  method AddPhraseBonus(docs: seq<IndexedChunk>, phrase: string, s: Scores) returns (raw: map<nat, real>)
    requires ScoresWF(s)
    ensures raw == Boosted(docs, phrase, s.raw)
  {
    raw := s.raw;
    for k := 0 to |s.order|
      invariant raw.Keys == s.raw.Keys
      invariant forall i :: i in raw ==>
        raw[i] == (if i in s.order[..k] then Boosted(docs, phrase, s.raw)[i] else s.raw[i])
    {
      var i := s.order[k];
      assert i !in s.order[..k];
      assert s.order[..k + 1] == s.order[..k] + [i];
      var score := raw[i];
      if i < |docs| && Contains(Lower(docs[i].text), phrase) {
        raw := raw[i := score + PhraseBonus];
      }
    }
    assert s.order[..|s.order|] == s.order;
  }

  // ---------------------------------------------------------------- ranking

  /** Every listed index has a document and a raw score. */
  predicate Rankable(docs: seq<IndexedChunk>, order: seq<nat>, raw: map<nat, real>) {
    forall k :: 0 <= k < |order| ==> order[k] < |docs| && order[k] in raw
  }

  /** `Math.max(...values, 1e-9)` over the scores listed in `order`. */
  function MaxRaw(order: seq<nat>, raw: map<nat, real>): (m: real)
    requires forall k :: 0 <= k < |order| ==> order[k] in raw
    ensures m >= Epsilon
    ensures forall k :: 0 <= k < |order| ==> raw[order[k]] <= m
  {
    if order == [] then Epsilon
    else Max(MaxRaw(order[..|order| - 1], raw), raw[order[|order| - 1]])
  }

  /** The `map` step: one result per scored document, its score clamped into `[0, 1]`. */
  function Candidates(docs: seq<IndexedChunk>, order: seq<nat>, raw: map<nat, real>, maxRaw: real): seq<SearchResult>
    requires Rankable(docs, order, raw)
    requires maxRaw > 0.0
  {
    seq(|order|, k requires 0 <= k < |order| =>
      ResultOf(docs[order[k]], ClampNumber(raw[order[k]] / maxRaw, 0.0, 1.0)))
  }

  /** The normalised score of document `i`: its raw score over the largest one, clamped into `[0, 1]`. */
  function Normalized(order: seq<nat>, raw: map<nat, real>, i: nat): real
    requires forall k :: 0 <= k < |order| ==> order[k] in raw
    requires i in raw
  {
    ClampNumber(raw[i] / MaxRaw(order, raw), 0.0, 1.0)
  }

  /** The `filter` step: the results scoring at least `minScore`, in order. */
  function AboveMin(rs: seq<SearchResult>, minScore: real): seq<SearchResult> {
    if rs == [] then []
    else
      var init := AboveMin(rs[..|rs| - 1], minScore);
      if rs[|rs| - 1].score >= minScore then init + [rs[|rs| - 1]] else init
  }

  predicate NonIncreasing(rs: seq<SearchResult>) {
    forall a, b :: 0 <= a < b < |rs| ==> rs[a].score >= rs[b].score
  }

  /** Puts `x` in front of the first element that does not score higher. */
  function Insert(x: SearchResult, rs: seq<SearchResult>): seq<SearchResult> {
    if rs == [] || rs[0].score <= x.score then [x] + rs
    else [rs[0]] + Insert(x, rs[1..])
  }

  /** The `sort` step: a stable sort by descending score. */
  function SortDesc(rs: seq<SearchResult>): seq<SearchResult> {
    if rs == [] then [] else Insert(rs[0], SortDesc(rs[1..]))
  }

  /** The `map` and `filter` steps: the candidates scoring at least `minScore`, in scoring order. */
  function Survivors(docs: seq<IndexedChunk>, order: seq<nat>, raw: map<nat, real>, minScore: real): seq<SearchResult>
    requires Rankable(docs, order, raw)
  {
    AboveMin(Candidates(docs, order, raw, MaxRaw(order, raw)), minScore)
  }

  /** The whole chain after the phrase bonus: `map`, `filter`, `sort` and `slice(0, maxResults)`. */
  function Rank(docs: seq<IndexedChunk>, order: seq<nat>, raw: map<nat, real>, minScore: real, maxResults: int): seq<SearchResult>
    requires Rankable(docs, order, raw)
  {
    Slice(SortDesc(Survivors(docs, order, raw, minScore)), 0, maxResults)
  }

  /** The ranking of the documents scored by `terms`, or nothing when no document is scored. */
  function RankQuery(idx: Index, ln: real -> real, terms: seq<string>, phrase: string, minScore: real, maxResults: int): seq<SearchResult> {
    var s := QueryScores(idx, ln, terms);
    if s.order == [] then []
    else
      RankReady(idx, ln, terms, phrase);
      Rank(idx.docs, s.order, Boosted(idx.docs, phrase, s.raw), minScore, maxResults)
  }

  /** What `search` returns for a query over an index, with `minScore` and `maxResults` already resolved. */
  function SearchOf(idx: Index, ln: real -> real, query: string, minScore: real, maxResults: int): seq<SearchResult> {
    var cleaned := Trim(query);
    if cleaned == [] || idx.docs == [] then []
    else
      var terms := Tokenize(cleaned);
      if terms == [] then [] else RankQuery(idx, ln, terms, Lower(cleaned), minScore, maxResults)
  }

  /**
   * The score `search` gives document `i` before its filter: the boosted score over the
   * largest one, clamped into `[0, 1]` (0 for a document no query token scored).
   */
  function SearchScore(idx: Index, ln: real -> real, query: string, i: nat): real {
    var cleaned := Trim(query);
    var terms := Tokenize(cleaned);
    var s := QueryScores(idx, ln, terms);
    var raw := Boosted(idx.docs, Lower(cleaned), s.raw);
    RankReady(idx, ln, terms, Lower(cleaned));
    if i in raw then Normalized(s.order, raw, i) else 0.0
  }

  /**
   * The `filter` stage of `search`: the scored documents reaching `minScore`, before the
   * sort and the slice. When `search` returns early no document is scored and it is empty.
   */
  function SearchSurvivors(idx: Index, ln: real -> real, query: string, minScore: real): seq<SearchResult> {
    var cleaned := Trim(query);
    var terms := Tokenize(cleaned);
    var s := QueryScores(idx, ln, terms);
    RankReady(idx, ln, terms, Lower(cleaned));
    Survivors(idx.docs, s.order, Boosted(idx.docs, Lower(cleaned), s.raw), minScore)
  }

  lemma RankReady(idx: Index, ln: real -> real, terms: seq<string>, phrase: string)
    ensures Rankable(idx.docs, QueryScores(idx, ln, terms).order,
      Boosted(idx.docs, phrase, QueryScores(idx, ln, terms).raw))
  {
    var s := QueryScores(idx, ln, terms);
    QueryScoresFacts(idx, ln, terms);
    forall k | 0 <= k < |s.order|
      ensures s.order[k] < |idx.docs| && s.order[k] in Boosted(idx.docs, phrase, s.raw)
    {
      assert s.order[k] in s.order;
      var j :| 0 <= j < |terms| && Matches(idx, terms[j], s.order[k]);
    }
  }

  // ------------------------------------------------------- ranking lemmas

  lemma CandidatesFacts(docs: seq<IndexedChunk>, order: seq<nat>, raw: map<nat, real>, maxRaw: real)
    requires Rankable(docs, order, raw)
    requires maxRaw > 0.0
    ensures |Candidates(docs, order, raw, maxRaw)| == |order|
    ensures forall r :: r in Candidates(docs, order, raw, maxRaw) ==>
      && 0.0 <= r.score <= 1.0
      && exists k :: 0 <= k < |order| && r == ResultOf(docs[order[k]], r.score)
  {
    var c := Candidates(docs, order, raw, maxRaw);
    forall r | r in c
      ensures exists k :: 0 <= k < |order| && r == ResultOf(docs[order[k]], r.score)
    {
      var k :| 0 <= k < |c| && c[k] == r;
      assert r == ResultOf(docs[order[k]], r.score);
    }
  }

  /** The filter keeps exactly the results scoring at least `minScore`. */
  lemma {:induction false} AboveMinFacts(rs: seq<SearchResult>, minScore: real)
    ensures forall r :: r in AboveMin(rs, minScore) <==> r in rs && r.score >= minScore
  {
    if rs != [] {
      var init := rs[..|rs| - 1];
      AboveMinFacts(init, minScore);
      assert rs == init + [rs[|rs| - 1]];
    }
  }

  lemma {:induction false} AboveMinKeepsAll(rs: seq<SearchResult>, minScore: real)
    requires forall k :: 0 <= k < |rs| ==> rs[k].score >= minScore
    ensures AboveMin(rs, minScore) == rs
  {
    if rs != [] {
      AboveMinKeepsAll(rs[..|rs| - 1], minScore);
      assert rs[..|rs| - 1] + [rs[|rs| - 1]] == rs;
    }
  }

  lemma {:induction false} InsertPermutes(x: SearchResult, rs: seq<SearchResult>)
    ensures multiset(Insert(x, rs)) == multiset(rs) + multiset{x}
  {
    if rs != [] && rs[0].score > x.score {
      InsertPermutes(x, rs[1..]);
      assert rs == [rs[0]] + rs[1..];
    }
  }

  lemma {:induction false} InsertSorted(x: SearchResult, rs: seq<SearchResult>)
    requires NonIncreasing(rs)
    ensures NonIncreasing(Insert(x, rs))
  {
    if rs != [] && rs[0].score > x.score {
      var rest := rs[1..];
      InsertSorted(x, rest);
      InsertPermutes(x, rest);
      var t := Insert(x, rest);
      forall e | e in t ensures e.score <= rs[0].score {
        assert e in multiset(t);
        if e != x {
          assert e in multiset(rest);
          var b :| 0 <= b < |rest| && rest[b] == e;
          assert rs[b + 1] == e;
        }
      }
    }
  }

  /** The sort is ordered and a permutation of its input. */
  lemma {:induction false} SortDescFacts(rs: seq<SearchResult>)
    ensures NonIncreasing(SortDesc(rs))
    ensures multiset(SortDesc(rs)) == multiset(rs)
  {
    if rs != [] {
      SortDescFacts(rs[1..]);
      InsertSorted(rs[0], SortDesc(rs[1..]));
      InsertPermutes(rs[0], SortDesc(rs[1..]));
      assert rs == [rs[0]] + rs[1..];
    }
  }

  /**
   * A prefix of a descending list holds its top elements: whatever is left out scores
   * no higher than anything kept.
   */
  lemma SortedPrefixTop(s: seq<SearchResult>, n: nat)
    requires NonIncreasing(s) && n <= |s|
    ensures multiset(s[..n]) <= multiset(s)
    ensures forall x, r ::
      && x in multiset(s) - multiset(s[..n])
      && r in s[..n]
      ==> x.score <= r.score
  {
    var front, back := s[..n], s[n..];
    assert s == front + back;
    assert multiset(s) == multiset(front) + multiset(back);
    forall x, r | x in multiset(s) - multiset(front) && r in front
      ensures x.score <= r.score
    {
      assert x in multiset(back);
      var b :| 0 <= b < |back| && back[b] == x;
      var a :| 0 <= a < |front| && front[a] == r;
      assert s[a] == r && s[n + b] == x;
    }
  }

  /**
   * The ranking keeps the top `maxResults` of the survivors of the filter, sliced as
   * `slice(0, maxResults)` does: its size is the slice's, it takes nothing that did not
   * survive, and every survivor left out scores no higher than every result kept.
   */
  lemma RankSelects(docs: seq<IndexedChunk>, order: seq<nat>, raw: map<nat, real>, minScore: real, maxResults: int)
    requires Rankable(docs, order, raw)
    ensures |Rank(docs, order, raw, minScore, maxResults)| ==
      RelativeIndex(|Survivors(docs, order, raw, minScore)|, maxResults)
    ensures multiset(Rank(docs, order, raw, minScore, maxResults)) <= multiset(Survivors(docs, order, raw, minScore))
    ensures forall x, r ::
      && x in multiset(Survivors(docs, order, raw, minScore)) - multiset(Rank(docs, order, raw, minScore, maxResults))
      && r in Rank(docs, order, raw, minScore, maxResults)
      ==> x.score <= r.score
  {
    var f := Survivors(docs, order, raw, minScore);
    var s := SortDesc(f);
    SortDescFacts(f);
    assert |s| == |multiset(s)| == |multiset(f)| == |f|;
    var n := RelativeIndex(|s|, maxResults);
    assert Rank(docs, order, raw, minScore, maxResults) == s[..n];
    SortedPrefixTop(s, n);
  }

  /**
   * The survivors of the filter are exactly the scored documents whose normalised score
   * reaches `minScore`, each carrying that score.
   */
  lemma SurvivorsMembers(docs: seq<IndexedChunk>, order: seq<nat>, raw: map<nat, real>, minScore: real)
    requires Rankable(docs, order, raw)
    ensures forall r :: r in Survivors(docs, order, raw, minScore) <==>
      && r.score >= minScore
      && exists k :: 0 <= k < |order| && r == ResultOf(docs[order[k]], Normalized(order, raw, order[k]))
  {
    var c := Candidates(docs, order, raw, MaxRaw(order, raw));
    AboveMinFacts(c, minScore);
    forall r
      ensures r in c <==> exists k :: 0 <= k < |order| && r == ResultOf(docs[order[k]], Normalized(order, raw, order[k]))
    {
      if r in c {
        var k :| 0 <= k < |c| && c[k] == r;
      }
      if exists k :: 0 <= k < |order| && r == ResultOf(docs[order[k]], Normalized(order, raw, order[k])) {
        var k :| 0 <= k < |order| && r == ResultOf(docs[order[k]], Normalized(order, raw, order[k]));
        assert c[k] == r;
      }
    }
  }

  /**
   * The ranking is ordered, sliced as `slice(0, maxResults)`, clamped, above `minScore`,
   * each result is a scored document, and it is the top of the survivors of the filter.
   */
  lemma RankFacts(docs: seq<IndexedChunk>, order: seq<nat>, raw: map<nat, real>, minScore: real, maxResults: int)
    requires Rankable(docs, order, raw)
    ensures NonIncreasing(Rank(docs, order, raw, minScore, maxResults))
    ensures 0 <= maxResults ==> |Rank(docs, order, raw, minScore, maxResults)| <= maxResults
    ensures 0 <= maxResults ==>
      |Rank(docs, order, raw, minScore, maxResults)| ==
        (if maxResults <= |Survivors(docs, order, raw, minScore)| then maxResults else |Survivors(docs, order, raw, minScore)|)
    ensures multiset(Rank(docs, order, raw, minScore, maxResults)) <= multiset(Survivors(docs, order, raw, minScore))
    ensures forall x, r ::
      && x in multiset(Survivors(docs, order, raw, minScore)) - multiset(Rank(docs, order, raw, minScore, maxResults))
      && r in Rank(docs, order, raw, minScore, maxResults)
      ==> x.score <= r.score
    ensures forall r :: r in Rank(docs, order, raw, minScore, maxResults) ==>
      && 0.0 <= r.score <= 1.0 && r.score >= minScore
      && exists k :: 0 <= k < |order| && r == ResultOf(docs[order[k]], r.score)
  {
    var c := Candidates(docs, order, raw, MaxRaw(order, raw));
    CandidatesFacts(docs, order, raw, MaxRaw(order, raw));
    var f := AboveMin(c, minScore);
    AboveMinFacts(c, minScore);
    var s := SortDesc(f);
    SortDescFacts(f);
    var n := RelativeIndex(|s|, maxResults);
    assert Rank(docs, order, raw, minScore, maxResults) == s[..n];
    forall r | r in s[..n] ensures r in f {
      assert r in multiset(s);
    }
    RankSelects(docs, order, raw, minScore, maxResults);
  }

  /**
   * When some query term has a posting, a non-positive `minScore` and a
   * positive `maxResults` leave at least one result.
   */
  lemma RankNonEmpty(docs: seq<IndexedChunk>, order: seq<nat>, raw: map<nat, real>, minScore: real, maxResults: int)
    requires Rankable(docs, order, raw)
    requires order != [] && minScore <= 0.0 && maxResults >= 1
    ensures Rank(docs, order, raw, minScore, maxResults) != []
  {
    var c := Candidates(docs, order, raw, MaxRaw(order, raw));
    CandidatesFacts(docs, order, raw, MaxRaw(order, raw));
    assert forall k :: 0 <= k < |c| ==> c[k] in c;
    AboveMinKeepsAll(c, minScore);
    SortDescFacts(c);
    assert |SortDesc(c)| == |multiset(c)| == |c|;
  }

  // ------------------------------------------------------------ the search

  /** The result is a document that some query term has a posting for. */
  ghost predicate MatchedResult(idx: Index, terms: seq<string>, r: SearchResult) {
    exists i :: 0 <= i < |idx.docs| && MatchedBy(idx, terms, i) && r == ResultOf(idx.docs[i], r.score)
  }

  lemma RankQueryFacts(idx: Index, ln: real -> real, terms: seq<string>, phrase: string, minScore: real, maxResults: int)
    ensures NonIncreasing(RankQuery(idx, ln, terms, phrase, minScore, maxResults))
    ensures 0 <= maxResults ==> |RankQuery(idx, ln, terms, phrase, minScore, maxResults)| <= maxResults
    ensures forall r :: r in RankQuery(idx, ln, terms, phrase, minScore, maxResults) ==>
      && 0.0 <= r.score <= 1.0 && r.score >= minScore
      && MatchedResult(idx, terms, r)
  {
    var s := QueryScores(idx, ln, terms);
    if s.order != [] {
      QueryScoresFacts(idx, ln, terms);
      RankReady(idx, ln, terms, phrase);
      var raw := Boosted(idx.docs, phrase, s.raw);
      RankFacts(idx.docs, s.order, raw, minScore, maxResults);
      forall r | r in Rank(idx.docs, s.order, raw, minScore, maxResults)
        ensures MatchedResult(idx, terms, r)
      {
        var k :| 0 <= k < |s.order| && r == ResultOf(idx.docs[s.order[k]], r.score);
        assert s.order[k] in s.order;
      }
    }
  }

  /** `search` is the sort of its filter stage, sliced by `maxResults`. */
  lemma SearchOfRanks(idx: Index, ln: real -> real, query: string, minScore: real, maxResults: int)
    ensures SearchOf(idx, ln, query, minScore, maxResults) ==
      Slice(SortDesc(SearchSurvivors(idx, ln, query, minScore)), 0, maxResults)
  {
    var cleaned := Trim(query);
    var terms := Tokenize(cleaned);
    var s := QueryScores(idx, ln, terms);
    QueryScoresFacts(idx, ln, terms);
    if cleaned == [] {
      assert terms == [];
    }
    if cleaned == [] || idx.docs == [] || terms == [] {
      assert forall i :: !MatchedBy(idx, terms, i);
    }
  }

  /** A survivor of the filter stage is a matched document carrying its normalised score. */
  lemma SearchSurvivorMatched(idx: Index, ln: real -> real, query: string, minScore: real, r: SearchResult)
    requires r in SearchSurvivors(idx, ln, query, minScore)
    ensures r.score >= minScore
    ensures exists i ::
      && 0 <= i < |idx.docs| && MatchedBy(idx, Tokenize(Trim(query)), i)
      && r == ResultOf(idx.docs[i], SearchScore(idx, ln, query, i))
  {
    var cleaned := Trim(query);
    var terms := Tokenize(cleaned);
    var s := QueryScores(idx, ln, terms);
    var raw := Boosted(idx.docs, Lower(cleaned), s.raw);
    QueryScoresFacts(idx, ln, terms);
    RankReady(idx, ln, terms, Lower(cleaned));
    SurvivorsMembers(idx.docs, s.order, raw, minScore);
    var k :| 0 <= k < |s.order| && r == ResultOf(idx.docs[s.order[k]], Normalized(s.order, raw, s.order[k]));
    assert s.order[k] in s.order;
    assert SearchScore(idx, ln, query, s.order[k]) == Normalized(s.order, raw, s.order[k]);
  }

  /** A matched document whose normalised score reaches `minScore` survives the filter stage. */
  lemma MatchedSearchSurvivor(idx: Index, ln: real -> real, query: string, minScore: real, i: nat)
    requires i < |idx.docs| && MatchedBy(idx, Tokenize(Trim(query)), i)
    requires SearchScore(idx, ln, query, i) >= minScore
    ensures ResultOf(idx.docs[i], SearchScore(idx, ln, query, i)) in SearchSurvivors(idx, ln, query, minScore)
  {
    var cleaned := Trim(query);
    var terms := Tokenize(cleaned);
    var s := QueryScores(idx, ln, terms);
    var raw := Boosted(idx.docs, Lower(cleaned), s.raw);
    QueryScoresFacts(idx, ln, terms);
    RankReady(idx, ln, terms, Lower(cleaned));
    SurvivorsMembers(idx.docs, s.order, raw, minScore);
    assert i in s.order;
    var k :| 0 <= k < |s.order| && s.order[k] == i;
    assert SearchScore(idx, ln, query, i) == Normalized(s.order, raw, i);
  }

  /**
   * The filter stage keeps exactly the documents some query token has a posting for
   * whose score reaches `minScore`, each carrying that score.
   */
  lemma SearchSurvivorsMembers(idx: Index, ln: real -> real, query: string, minScore: real)
    ensures forall r :: r in SearchSurvivors(idx, ln, query, minScore) <==>
      && r.score >= minScore
      && exists i :: 0 <= i < |idx.docs| && MatchedBy(idx, Tokenize(Trim(query)), i) &&
           r == ResultOf(idx.docs[i], SearchScore(idx, ln, query, i))
  {
    var terms := Tokenize(Trim(query));
    forall r
      ensures r in SearchSurvivors(idx, ln, query, minScore) <==>
        && r.score >= minScore
        && exists i :: 0 <= i < |idx.docs| && MatchedBy(idx, terms, i) &&
             r == ResultOf(idx.docs[i], SearchScore(idx, ln, query, i))
    {
      if r in SearchSurvivors(idx, ln, query, minScore) {
        SearchSurvivorMatched(idx, ln, query, minScore, r);
      }
      if r.score >= minScore &&
         (exists i :: 0 <= i < |idx.docs| && MatchedBy(idx, terms, i) &&
           r == ResultOf(idx.docs[i], SearchScore(idx, ln, query, i))) {
        var i :| 0 <= i < |idx.docs| && MatchedBy(idx, terms, i) &&
          r == ResultOf(idx.docs[i], SearchScore(idx, ln, query, i));
        MatchedSearchSurvivor(idx, ln, query, minScore, i);
      }
    }
  }

  /**
   * The search is ordered, sliced by `maxResults`, clamped, above `minScore`, made of
   * matched documents, and the top `maxResults` of its filter stage.
   */
  lemma SearchOfFacts(idx: Index, ln: real -> real, query: string, minScore: real, maxResults: int)
    ensures NonIncreasing(SearchOf(idx, ln, query, minScore, maxResults))
    ensures 0 <= maxResults ==> |SearchOf(idx, ln, query, minScore, maxResults)| <= maxResults
    ensures forall r :: r in SearchOf(idx, ln, query, minScore, maxResults) ==>
      && 0.0 <= r.score <= 1.0 && r.score >= minScore
      && MatchedResult(idx, Tokenize(Trim(query)), r)
    ensures 0 <= maxResults ==>
      |SearchOf(idx, ln, query, minScore, maxResults)| ==
        (if maxResults <= |SearchSurvivors(idx, ln, query, minScore)| then maxResults
         else |SearchSurvivors(idx, ln, query, minScore)|)
    ensures multiset(SearchOf(idx, ln, query, minScore, maxResults)) <= multiset(SearchSurvivors(idx, ln, query, minScore))
    ensures forall x, r ::
      && x in multiset(SearchSurvivors(idx, ln, query, minScore)) - multiset(SearchOf(idx, ln, query, minScore, maxResults))
      && r in SearchOf(idx, ln, query, minScore, maxResults)
      ==> x.score <= r.score
  {
    var cleaned := Trim(query);
    if cleaned != [] && idx.docs != [] && Tokenize(cleaned) != [] {
      RankQueryFacts(idx, ln, Tokenize(cleaned), Lower(cleaned), minScore, maxResults);
    }
    SearchOfRanks(idx, ln, query, minScore, maxResults);
    var f := SearchSurvivors(idx, ln, query, minScore);
    var t := SortDesc(f);
    SortDescFacts(f);
    assert |t| == |multiset(t)| == |multiset(f)| == |f|;
    var n := RelativeIndex(|t|, maxResults);
    assert SearchOf(idx, ln, query, minScore, maxResults) == t[..n];
    SortedPrefixTop(t, n);
  }

  /**
   * `search` over an index: the short-circuits, the score loops and the ranking.
   * `minScore` and `maxResults` are the option values or the configured defaults.
   */
  method SearchIndex(idx: Index, ln: real -> real, query: string, minScore: real, maxResults: int)
    returns (results: seq<SearchResult>)
    ensures results == SearchOf(idx, ln, query, minScore, maxResults)
    ensures Trim(query) == [] || idx.docs == [] || Tokenize(Trim(query)) == [] ==> results == []
    ensures (forall i :: !MatchedBy(idx, Tokenize(Trim(query)), i)) ==> results == []
    ensures NonIncreasing(results)
    ensures 0 <= maxResults ==> |results| <= maxResults
    ensures forall r :: r in results ==>
      && 0.0 <= r.score <= 1.0 && r.score >= minScore
      && MatchedResult(idx, Tokenize(Trim(query)), r)
    ensures (exists i :: MatchedBy(idx, Tokenize(Trim(query)), i)) && minScore <= 0.0 && maxResults >= 1 ==>
      results != []
    ensures 0 <= maxResults ==>
      |results| == (if maxResults <= |SearchSurvivors(idx, ln, query, minScore)| then maxResults
                    else |SearchSurvivors(idx, ln, query, minScore)|)
    ensures multiset(results) <= multiset(SearchSurvivors(idx, ln, query, minScore))
    ensures forall x, r ::
      && x in multiset(SearchSurvivors(idx, ln, query, minScore)) - multiset(results)
      && r in results
      ==> x.score <= r.score
  {
    SearchOfFacts(idx, ln, query, minScore, maxResults);
    var cleaned := Trim(query);
    QueryScoresFacts(idx, ln, Tokenize(cleaned));
    assert idx.docs == [] ==> forall i :: !MatchedBy(idx, Tokenize(cleaned), i);
    if cleaned == [] || |idx.docs| == 0 {
      return [];
    }
    var terms := Tokenize(cleaned);
    if terms == [] {
      return [];
    }
    var s := AccumulateScores(idx, ln, terms);
    if |s.order| == 0 {
      return [];
    }
    var raw := AddPhraseBonus(idx.docs, Lower(cleaned), s);
    RankReady(idx, ln, terms, Lower(cleaned));
    results := Rank(idx.docs, s.order, raw, minScore, maxResults);
    if minScore <= 0.0 && maxResults >= 1 {
      RankNonEmpty(idx.docs, s.order, raw, minScore, maxResults);
    }
  }
}
