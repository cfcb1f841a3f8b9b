/**
 * The in-memory BM25 index that `TextMemoryManager.runSync` builds
 * (`src/memory/text-manager.ts`): the records collected from memory files and
 * session transcripts, the dense document list made of their chunks, the
 * term -> postings map and the document-frequency map.
 *
 * The index is specified by reference functions over the document list
 * (`DocsOf`, `PostingsOf`, `CountDocsWith`, `AvgDocLength`); `BuildIndex`
 * is the nested loop of the source proved against them, and the lemmas
 * below state what the reference functions guarantee.
 */
module MemoryIndex {
  import opened Wrappers
  import opened Js
  import opened Tokenizer

  datatype Source = Memory | Sessions

  /** A chunk produced by the markdown chunker, which is not part of this model. */
  datatype Chunk = Chunk(text: string, startLine: int, endLine: int)

  /** One indexed file: its display path, where it came from, and its chunks. */
  datatype FileRecord = FileRecord(path: string, source: Source, chunks: seq<Chunk>)

  datatype IndexedChunk = IndexedChunk(
    id: string, path: string, startLine: int, endLine: int, source: Source,
    text: string, snippet: string, length: nat)

  datatype Posting = Posting(index: nat, tf: nat)

  datatype Index = Index(
    docs: seq<IndexedChunk>,
    postings: map<string, seq<Posting>>,
    docFrequency: map<string, nat>,
    avgDocLength: real)

  // ------------------------------------------------------- record collection

  /** A memory file as read: its workspace-relative path and its chunks. */
  datatype MemoryFile = MemoryFile(relPath: string, chunks: seq<Chunk>)

  /** A session transcript as built from its file: display path, text and chunks. */
  datatype SessionEntry = SessionEntry(path: string, content: string, chunks: seq<Chunk>)

  /** The records of the memory pass; `None` is a file that could not be read and is skipped. */
  function MemoryRecordsOf(files: seq<Option<MemoryFile>>): seq<FileRecord> {
    if files == [] then []
    else
      var last := files[|files| - 1];
      MemoryRecordsOf(files[..|files| - 1])
        + (if last.Some? then [FileRecord(last.value.relPath, Memory, last.value.chunks)] else [])
  }

  /** The records of the session pass: entries that were built and whose text is not blank. */
  function SessionRecordsOf(entries: seq<Option<SessionEntry>>): seq<FileRecord> {
    if entries == [] then []
    else
      var last := entries[|entries| - 1];
      SessionRecordsOf(entries[..|entries| - 1])
        + (if Indexable(last) then [FileRecord(last.value.path, Sessions, last.value.chunks)] else [])
  }

  /** A session entry is indexed when it was built and its text is not blank. */
  predicate Indexable(entry: Option<SessionEntry>) {
    entry.Some? && Trim(entry.value.content) != []
  }

  lemma SessionRecordsOfSnoc(entries: seq<Option<SessionEntry>>, entry: Option<SessionEntry>)
    ensures SessionRecordsOf(entries + [entry]) == SessionRecordsOf(entries)
      + (if Indexable(entry) then [FileRecord(entry.value.path, Sessions, entry.value.chunks)] else [])
  {
    assert (entries + [entry])[..|entries|] == entries;
  }

  lemma {:induction false} MemoryRecordsSource(files: seq<Option<MemoryFile>>)
    ensures forall i :: 0 <= i < |MemoryRecordsOf(files)| ==> MemoryRecordsOf(files)[i].source == Memory
    ensures |MemoryRecordsOf(files)| <= |files|
  {
    if files != [] {
      MemoryRecordsSource(files[..|files| - 1]);
    }
  }

  lemma {:induction false} SessionRecordsSource(entries: seq<Option<SessionEntry>>)
    ensures forall i :: 0 <= i < |SessionRecordsOf(entries)| ==> SessionRecordsOf(entries)[i].source == Sessions
    ensures |SessionRecordsOf(entries)| <= |entries|
  {
    if entries != [] {
      SessionRecordsSource(entries[..|entries| - 1]);
    }
  }

  /** The memory pass of `runSync`: a record for each readable memory file. */
  method CollectMemoryRecords(files: seq<Option<MemoryFile>>) returns (records: seq<FileRecord>)
    ensures records == MemoryRecordsOf(files)
  {
    records := [];
    for i := 0 to |files|
      invariant records == MemoryRecordsOf(files[..i])
    {
      assert files[..i + 1][..i] == files[..i];
      var file := files[i];
      if file.Some? {
        records := records + [FileRecord(file.value.relPath, Memory, file.value.chunks)];
      }
    }
    assert files[..|files|] == files;
  }

  /** The sessions pass of `runSync`: a record for each built, non-blank transcript. */
  method CollectSessionRecords(entries: seq<Option<SessionEntry>>) returns (records: seq<FileRecord>)
    ensures records == SessionRecordsOf(entries)
  {
    records := [];
    for i := 0 to |entries|
      invariant records == SessionRecordsOf(entries[..i])
    {
      var entry := entries[i];
      assert entries[..i + 1] == entries[..i] + [entry];
      SessionRecordsOfSnoc(entries[..i], entry);
      if Indexable(entry) {
        records := records + [FileRecord(entry.value.path, Sessions, entry.value.chunks)];
      }
    }
    assert entries[..|entries|] == entries;
  }

  /** The records of `runSync`: memory files when that source is enabled, then session transcripts. */
  function RecordsOf(sources: seq<Source>, memoryFiles: seq<Option<MemoryFile>>, sessionEntries: seq<Option<SessionEntry>>)
    : seq<FileRecord>
  {
    (if Memory in sources then MemoryRecordsOf(memoryFiles) else [])
      + (if Sessions in sources then SessionRecordsOf(sessionEntries) else [])
  }

  /** The record collection of `runSync`; every record comes from an enabled source. */
  method CollectRecords(sources: seq<Source>, memoryFiles: seq<Option<MemoryFile>>, sessionEntries: seq<Option<SessionEntry>>)
    returns (records: seq<FileRecord>)
    ensures records == RecordsOf(sources, memoryFiles, sessionEntries)
    ensures forall i :: 0 <= i < |records| ==> records[i].source in sources
  {
    var memoryRecords := [];
    if Memory in sources {
      memoryRecords := CollectMemoryRecords(memoryFiles);
      MemoryRecordsSource(memoryFiles);
    }
    var sessionRecords := [];
    if Sessions in sources {
      sessionRecords := CollectSessionRecords(sessionEntries);
      SessionRecordsSource(sessionEntries);
    }
    records := memoryRecords + sessionRecords;
  }

  // --------------------------------------------------------------- documents

  /** One chunk of one record, in the order the index build visits them. */
  datatype Entry = Entry(path: string, source: Source, chunk: Chunk)

  function RecordEntries(record: FileRecord): (es: seq<Entry>)
    ensures |es| == |record.chunks|
    ensures forall i :: 0 <= i < |es| ==> es[i] == Entry(record.path, record.source, record.chunks[i])
  {
    seq(|record.chunks|, i requires 0 <= i < |record.chunks| => Entry(record.path, record.source, record.chunks[i]))
  }

  /** Every chunk of every record, records in order and chunks in order within each. */
  function Entries(records: seq<FileRecord>): seq<Entry> {
    if records == [] then [] else Entries(records[..|records| - 1]) + RecordEntries(records[|records| - 1])
  }

  lemma {:induction false} EntriesSources(records: seq<FileRecord>, sources: seq<Source>)
    requires forall i :: 0 <= i < |records| ==> records[i].source in sources
    ensures forall j :: 0 <= j < |Entries(records)| ==> Entries(records)[j].source in sources
  {
    if records != [] {
      EntriesSources(records[..|records| - 1], sources);
    }
  }

  /** The term counts of a chunk text. */
  function ChunkTerms(text: string): TermCounts {
    CountTermsOf(Tokenize(text))
  }

  /** A chunk is indexed only when it has at least one term. */
  predicate HasTerms(e: Entry) {
    ChunkTerms(e.chunk.text).keys != []
  }

  /** `Math.max(1, n)`. */
  function AtLeastOne(n: nat): (r: nat)
    ensures r >= 1 && r >= n
    ensures n >= 1 ==> r == n
  {
    if n < 1 then 1 else n
  }

  /** The document an indexed chunk becomes; its id is `path:startLine:endLine`. */
  function MakeDoc(e: Entry): IndexedChunk {
    var terms := ChunkTerms(e.chunk.text);
    IndexedChunk(
      e.path + ":" + IntToString(e.chunk.startLine) + ":" + IntToString(e.chunk.endLine),
      e.path, e.chunk.startLine, e.chunk.endLine, e.source,
      e.chunk.text, SnippetForText(e.chunk.text), AtLeastOne(SumOver(terms.keys, terms.freq)))
  }

  /** The images under `f` of the elements of `xs` that satisfy `keep`, in order. */
  function FilterMap<A, B>(xs: seq<A>, keep: A -> bool, f: A -> B): seq<B> {
    if xs == [] then []
    else
      var x := xs[|xs| - 1];
      FilterMap(xs[..|xs| - 1], keep, f) + (if keep(x) then [f(x)] else [])
  }

  /** The number of elements of `xs` that satisfy `keep`. */
  function CountKept<A>(xs: seq<A>, keep: A -> bool): nat {
    if xs == [] then 0
    else CountKept(xs[..|xs| - 1], keep) + (if keep(xs[|xs| - 1]) then 1 else 0)
  }

  lemma {:induction false} FilterMapCount<A, B>(xs: seq<A>, keep: A -> bool, f: A -> B)
    ensures |FilterMap(xs, keep, f)| == CountKept(xs, keep) <= |xs|
  {
    if xs != [] {
      FilterMapCount(xs[..|xs| - 1], keep, f);
    }
  }

  lemma {:induction false} FilterMapPosition<A, B>(xs: seq<A>, keep: A -> bool, f: A -> B, j: int)
    requires 0 <= j < |xs| && keep(xs[j])
    ensures CountKept(xs[..j], keep) < |FilterMap(xs, keep, f)|
    ensures FilterMap(xs, keep, f)[CountKept(xs[..j], keep)] == f(xs[j])
  {
    var n := |xs| - 1;
    var init := xs[..n];
    FilterMapCount(init, keep, f);
    if j == n {
      assert xs[..j] == init;
    } else {
      assert init[..j] == xs[..j];
      FilterMapPosition(init, keep, f, j);
    }
  }

  lemma {:induction false} FilterMapAll<A, B>(xs: seq<A>, keep: A -> bool, f: A -> B, p: B -> bool)
    requires forall j :: 0 <= j < |xs| && keep(xs[j]) ==> p(f(xs[j]))
    ensures forall i :: 0 <= i < |FilterMap(xs, keep, f)| ==> p(FilterMap(xs, keep, f)[i])
  {
    if xs != [] {
      FilterMapAll(xs[..|xs| - 1], keep, f, p);
    }
  }

  /** The documents of the index: one per chunk with terms, in visiting order. */
  function DocsOf(entries: seq<Entry>): seq<IndexedChunk> {
    FilterMap(entries, HasTerms, MakeDoc)
  }

  /** The number of entries that have terms. */
  function CountWithTerms(entries: seq<Entry>): nat {
    CountKept(entries, HasTerms)
  }

  /**
   * A chunk becomes a document exactly when it has terms, and documents keep the
   * visiting order: the chunk with terms at position `j` is the document at the
   * position given by the number of chunks with terms before it.
   */
  lemma DocsOfPosition(entries: seq<Entry>, j: int)
    requires 0 <= j < |entries| && HasTerms(entries[j])
    ensures CountWithTerms(entries[..j]) < |DocsOf(entries)|
    ensures DocsOf(entries)[CountWithTerms(entries[..j])] == MakeDoc(entries[j])
  {
    FilterMapPosition(entries, HasTerms, MakeDoc, j);
  }

  /** There are as many documents as chunks with terms. */
  lemma DocsOfCount(entries: seq<Entry>)
    ensures |DocsOf(entries)| == CountWithTerms(entries) <= |entries|
  {
    FilterMapCount(entries, HasTerms, MakeDoc);
  }

  /** Every document has terms, and its length is the sum of their frequencies. */
  lemma DocsOfOK(entries: seq<Entry>)
    ensures forall i :: 0 <= i < |DocsOf(entries)| ==> DocOK(DocsOf(entries)[i])
  {
    var p := (d: IndexedChunk) => DocOK(d);
    forall j | 0 <= j < |entries| && HasTerms(entries[j])
      ensures p(MakeDoc(entries[j]))
    {
    }
    FilterMapAll(entries, HasTerms, MakeDoc, p);
  }

  /** Every document comes from a record of one of `sources`. */
  lemma DocsOfSources(entries: seq<Entry>, sources: seq<Source>)
    requires forall j :: 0 <= j < |entries| ==> entries[j].source in sources
    ensures forall i :: 0 <= i < |DocsOf(entries)| ==> DocsOf(entries)[i].source in sources
  {
    var p := (d: IndexedChunk) => d.source in sources;
    FilterMapAll(entries, HasTerms, MakeDoc, p);
  }

  /** The terms of a document, recomputed from its text. */
  function DocTerms(doc: IndexedChunk): TermCounts {
    ChunkTerms(doc.text)
  }

  /** A document has terms, and its length is the sum of its term frequencies. */
  predicate DocOK(doc: IndexedChunk) {
    var terms := DocTerms(doc);
    terms.keys != [] && doc.length == AtLeastOne(SumOver(terms.keys, terms.freq))
  }

  /** A document's length is the number of its tokens, which is at least one. */
  lemma DocLengthIsTokenCount(doc: IndexedChunk)
    requires DocOK(doc)
    ensures doc.length == |Tokenize(doc.text)| >= 1
  {
    var tokens := Tokenize(doc.text);
    CountTermsOfKeys(tokens);
    CountTermsOfCounts(tokens);
    CountTermsOfSum(tokens);
    assert DocTerms(doc).keys[0] in tokens;
  }

  // ------------------------------------------------------- postings and df

  /** The reference postings of `t`: one posting per document containing it, in document order. */
  function PostingsOf(docs: seq<IndexedChunk>, t: string): seq<Posting> {
    if docs == [] then []
    else
      var n := |docs| - 1;
      var terms := DocTerms(docs[n]);
      PostingsOf(docs[..n], t) + (if t in terms.freq then [Posting(n, terms.freq[t])] else [])
  }

  /** The number of documents containing `t`. */
  function CountDocsWith(docs: seq<IndexedChunk>, t: string): nat {
    if docs == [] then 0
    else CountDocsWith(docs[..|docs| - 1], t) + (if t in DocTerms(docs[|docs| - 1]).freq then 1 else 0)
  }

  /** Every posting names a document that contains the term, with the term's frequency there. */
  lemma {:induction false} PostingsRefer(docs: seq<IndexedChunk>, t: string)
    ensures forall k :: 0 <= k < |PostingsOf(docs, t)| ==>
      var p := PostingsOf(docs, t)[k];
      && p.index < |docs|
      && t in DocTerms(docs[p.index]).freq
      && p.tf == DocTerms(docs[p.index]).freq[t]
  {
    if docs != [] {
      var n := |docs| - 1;
      PostingsRefer(docs[..n], t);
    }
  }

  /** The document indices of a posting list are strictly increasing. */
  lemma {:induction false} PostingsIncreasing(docs: seq<IndexedChunk>, t: string)
    ensures forall a, b :: 0 <= a < b < |PostingsOf(docs, t)| ==>
      PostingsOf(docs, t)[a].index < PostingsOf(docs, t)[b].index
  {
    if docs != [] {
      var n := |docs| - 1;
      PostingsIncreasing(docs[..n], t);
      PostingsRefer(docs[..n], t);
    }
  }

  /** Every document containing `t` has a posting for it. */
  lemma {:induction false} PostingsComplete(docs: seq<IndexedChunk>, t: string, i: int)
    requires 0 <= i < |docs| && t in DocTerms(docs[i]).freq
    ensures Posting(i, DocTerms(docs[i]).freq[t]) in PostingsOf(docs, t)
  {
    var n := |docs| - 1;
    if i < n {
      assert docs[..n][i] == docs[i];
      PostingsComplete(docs[..n], t, i);
    }
  }

  /** There is one posting per document containing the term, not one per occurrence. */
  lemma {:induction false} PostingsCount(docs: seq<IndexedChunk>, t: string)
    ensures |PostingsOf(docs, t)| == CountDocsWith(docs, t) <= |docs|
  {
    if docs != [] {
      PostingsCount(docs[..|docs| - 1], t);
    }
  }

  /** `map.get(t) ?? []`. */
  function Lookup(m: map<string, seq<Posting>>, t: string): seq<Posting> {
    if t in m then m[t] else []
  }

  /** The postings map holds exactly the non-empty reference posting lists. */
  ghost predicate PostingsMatch(docs: seq<IndexedChunk>, postings: map<string, seq<Posting>>) {
    && (forall t :: t in postings ==> postings[t] != [])
    && (forall t :: Lookup(postings, t) == PostingsOf(docs, t))
  }

  /** The document-frequency map holds exactly the positive document counts. */
  ghost predicate FrequenciesMatch(docs: seq<IndexedChunk>, docFrequency: map<string, nat>) {
    && (forall t :: t in docFrequency ==> docFrequency[t] > 0)
    && (forall t :: CountOf(docFrequency, t) == CountDocsWith(docs, t))
  }

  ghost predicate Tables(docs: seq<IndexedChunk>, postings: map<string, seq<Posting>>, docFrequency: map<string, nat>) {
    && (forall i :: 0 <= i < |docs| ==> DocOK(docs[i]))
    && PostingsMatch(docs, postings)
    && FrequenciesMatch(docs, docFrequency)
  }

  function SumLengths(docs: seq<IndexedChunk>): nat {
    if docs == [] then 0 else SumLengths(docs[..|docs| - 1]) + docs[|docs| - 1].length
  }

  /** The mean document length, or 0 for an empty index. */
  function AvgDocLength(docs: seq<IndexedChunk>): real {
    if |docs| > 0 then SumLengths(docs) as real / |docs| as real else 0.0
  }

  lemma {:induction false} SumLengthsAtLeast(docs: seq<IndexedChunk>)
    requires forall i :: 0 <= i < |docs| ==> docs[i].length >= 1
    ensures SumLengths(docs) >= |docs|
  {
    if docs != [] {
      SumLengthsAtLeast(docs[..|docs| - 1]);
    }
  }

  /** The mean length is 0 exactly for an empty index, and at least 1 otherwise. */
  lemma AvgDocLengthZeroIff(docs: seq<IndexedChunk>)
    requires forall i :: 0 <= i < |docs| ==> docs[i].length >= 1
    ensures AvgDocLength(docs) == 0.0 <==> docs == []
    ensures docs != [] ==> AvgDocLength(docs) >= 1.0
  {
    if docs != [] {
      SumLengthsAtLeast(docs);
      var s, n := SumLengths(docs) as real, |docs| as real;
      assert s / n * n == s;
    }
  }

  /** The index of a list of documents is consistent with its reference functions. */
  ghost predicate Consistent(idx: Index) {
    && Tables(idx.docs, idx.postings, idx.docFrequency)
    && idx.avgDocLength == AvgDocLength(idx.docs)
  }

  /**
   * What a consistent index guarantees: every posting lies below the number of documents
   * and names a document containing its term with that term frequency; posting lists are
   * strictly increasing; the document frequency of a term is the length of its posting list;
   * every document has a posting for each of its terms; the mean length is 0 iff there are
   * no documents.
   */
  lemma ConsistentIndexFacts(idx: Index)
    requires Consistent(idx)
    ensures forall t, k :: t in idx.postings && 0 <= k < |idx.postings[t]| ==>
      && idx.postings[t][k].index < |idx.docs|
      && t in DocTerms(idx.docs[idx.postings[t][k].index]).freq
      && idx.postings[t][k].tf == DocTerms(idx.docs[idx.postings[t][k].index]).freq[t]
    ensures forall t, a, b :: t in idx.postings && 0 <= a < b < |idx.postings[t]| ==>
      idx.postings[t][a].index < idx.postings[t][b].index
    ensures forall t :: t in idx.docFrequency <==> t in idx.postings
    ensures forall t :: t in idx.docFrequency ==> idx.docFrequency[t] == |idx.postings[t]|
    ensures forall i, t :: 0 <= i < |idx.docs| && t in DocTerms(idx.docs[i]).freq ==>
      t in idx.postings && Posting(i, DocTerms(idx.docs[i]).freq[t]) in idx.postings[t]
    ensures idx.avgDocLength == 0.0 <==> idx.docs == []
  {
    forall t | t in idx.postings
      ensures forall k :: 0 <= k < |idx.postings[t]| ==>
        && idx.postings[t][k].index < |idx.docs|
        && t in DocTerms(idx.docs[idx.postings[t][k].index]).freq
        && idx.postings[t][k].tf == DocTerms(idx.docs[idx.postings[t][k].index]).freq[t]
      ensures forall a, b :: 0 <= a < b < |idx.postings[t]| ==> idx.postings[t][a].index < idx.postings[t][b].index
    {
      assert Lookup(idx.postings, t) == PostingsOf(idx.docs, t);
      PostingsRefer(idx.docs, t);
      PostingsIncreasing(idx.docs, t);
    }
    forall t
      ensures t in idx.docFrequency <==> t in idx.postings
      ensures t in idx.docFrequency ==> idx.docFrequency[t] == |idx.postings[t]|
    {
      assert Lookup(idx.postings, t) == PostingsOf(idx.docs, t);
      assert CountOf(idx.docFrequency, t) == CountDocsWith(idx.docs, t);
      PostingsCount(idx.docs, t);
    }
    forall i, t | 0 <= i < |idx.docs| && t in DocTerms(idx.docs[i]).freq
      ensures t in idx.postings && Posting(i, DocTerms(idx.docs[i]).freq[t]) in idx.postings[t]
    {
      assert Lookup(idx.postings, t) == PostingsOf(idx.docs, t);
      PostingsComplete(idx.docs, t, i);
    }
    forall i | 0 <= i < |idx.docs|
      ensures idx.docs[i].length >= 1
    {
      assert DocOK(idx.docs[i]);
    }
    AvgDocLengthZeroIff(idx.docs);
  }

  // -------------------------------------------------------------- the build

  /** The postings map after the postings loop for the document at `index` has visited `keys`. */
  function WithPostings(m: map<string, seq<Posting>>, index: nat, keys: seq<string>, freq: map<string, nat>): map<string, seq<Posting>> {
    if keys == [] then m
    else
      var term := keys[|keys| - 1];
      var prev := WithPostings(m, index, keys[..|keys| - 1], freq);
      prev[term := Lookup(prev, term) + [Posting(index, CountOf(freq, term))]]
  }

  /** The document-frequency map after the frequency loop has visited `keys`. */
  function WithFrequencies(m: map<string, nat>, keys: seq<string>): map<string, nat> {
    if keys == [] then m
    else
      var term := keys[|keys| - 1];
      var prev := WithFrequencies(m, keys[..|keys| - 1]);
      prev[term := CountOf(prev, term) + 1]
  }

  /** For distinct keys, each visited term gets exactly one new posting at the end of its list. */
  lemma {:induction false} WithPostingsMeaning(m: map<string, seq<Posting>>, index: nat, keys: seq<string>, freq: map<string, nat>)
    requires Distinct(keys)
    ensures forall t :: t in WithPostings(m, index, keys, freq) ==> t in m || t in keys
    ensures forall t :: (Lookup(WithPostings(m, index, keys, freq), t) ==
      Lookup(m, t) + (if t in keys then [Posting(index, CountOf(freq, t))] else []))
  {
    if keys != [] {
      var init := keys[..|keys| - 1];
      WithPostingsMeaning(m, index, init, freq);
      assert keys == init + [keys[|keys| - 1]];
      assert keys[|keys| - 1] !in init;
    }
  }

  /** For distinct keys, each visited term's frequency goes up by exactly one. */
  lemma {:induction false} WithFrequenciesMeaning(m: map<string, nat>, keys: seq<string>)
    requires Distinct(keys)
    ensures forall t :: t in WithFrequencies(m, keys) ==> t in m || t in keys
    ensures forall t :: CountOf(WithFrequencies(m, keys), t) == CountOf(m, t) + (if t in keys then 1 else 0)
  {
    if keys != [] {
      var init := keys[..|keys| - 1];
      WithFrequenciesMeaning(m, init);
      assert keys == init + [keys[|keys| - 1]];
      assert keys[|keys| - 1] !in init;
    }
  }

  /** The postings map the build has made after the documents `docs`. */
  function PostingsTable(docs: seq<IndexedChunk>): map<string, seq<Posting>> {
    if docs == [] then map[]
    else
      var n := |docs| - 1;
      var terms := DocTerms(docs[n]);
      WithPostings(PostingsTable(docs[..n]), n, terms.keys, terms.freq)
  }

  /** The document-frequency map the build has made after the documents `docs`. */
  function FrequencyTable(docs: seq<IndexedChunk>): map<string, nat> {
    if docs == [] then map[]
    else WithFrequencies(FrequencyTable(docs[..|docs| - 1]), DocTerms(docs[|docs| - 1]).keys)
  }

  /** At one term, the postings map the build makes holds the reference posting list. */
  lemma {:induction false} PostingsTableAt(docs: seq<IndexedChunk>, t: string)
    ensures Lookup(PostingsTable(docs), t) == PostingsOf(docs, t)
    ensures t in PostingsTable(docs) ==> PostingsTable(docs)[t] != []
  {
    if docs != [] {
      var n := |docs| - 1;
      var init := docs[..n];
      var terms := DocTerms(docs[n]);
      PostingsTableAt(init, t);
      CountTermsOfKeys(Tokenize(docs[n].text));
      assert t in terms.keys <==> t in terms.freq;
      WithPostingsMeaning(PostingsTable(init), n, terms.keys, terms.freq);
    }
  }

  /** At one term, the document-frequency map the build makes holds the reference count. */
  lemma {:induction false} FrequencyTableAt(docs: seq<IndexedChunk>, t: string)
    ensures CountOf(FrequencyTable(docs), t) == CountDocsWith(docs, t)
    ensures t in FrequencyTable(docs) ==> FrequencyTable(docs)[t] > 0
  {
    if docs != [] {
      var n := |docs| - 1;
      var init := docs[..n];
      var terms := DocTerms(docs[n]);
      FrequencyTableAt(init, t);
      CountTermsOfKeys(Tokenize(docs[n].text));
      assert t in terms.keys <==> t in terms.freq;
      WithFrequenciesMeaning(FrequencyTable(init), terms.keys);
    }
  }

  /** The maps the build makes hold the reference posting lists and document counts. */
  lemma TablesMatch(docs: seq<IndexedChunk>)
    ensures PostingsMatch(docs, PostingsTable(docs))
    ensures FrequenciesMatch(docs, FrequencyTable(docs))
  {
    forall t
      ensures Lookup(PostingsTable(docs), t) == PostingsOf(docs, t)
      ensures t in PostingsTable(docs) ==> PostingsTable(docs)[t] != []
      ensures CountOf(FrequencyTable(docs), t) == CountDocsWith(docs, t)
      ensures t in FrequencyTable(docs) ==> FrequencyTable(docs)[t] > 0
    {
      PostingsTableAt(docs, t);
      FrequencyTableAt(docs, t);
    }
  }

  /** The postings loop for one document (`postings.get(term) ?? []`, push, set). */
  method AddPostings(postings: map<string, seq<Posting>>, index: nat, terms: TermCounts)
    returns (result: map<string, seq<Posting>>)
    ensures result == WithPostings(postings, index, terms.keys, terms.freq)
  {
    result := postings;
    for k := 0 to |terms.keys|
      invariant result == WithPostings(postings, index, terms.keys[..k], terms.freq)
    {
      var term := terms.keys[k];
      var tf := CountOf(terms.freq, term);
      var list := Lookup(result, term);
      assert terms.keys[..k + 1][..k] == terms.keys[..k];
      result := result[term := list + [Posting(index, tf)]];
    }
    assert terms.keys[..|terms.keys|] == terms.keys;
  }

  /** The document-frequency loop for one document. */
  method AddDocFrequencies(docFrequency: map<string, nat>, terms: TermCounts)
    returns (result: map<string, nat>)
    ensures result == WithFrequencies(docFrequency, terms.keys)
  {
    result := docFrequency;
    for k := 0 to |terms.keys|
      invariant result == WithFrequencies(docFrequency, terms.keys[..k])
    {
      var term := terms.keys[k];
      assert terms.keys[..k + 1][..k] == terms.keys[..k];
      result := result[term := CountOf(result, term) + 1];
    }
    assert terms.keys[..|terms.keys|] == terms.keys;
  }

  /**
   * The body of the chunk loop: a chunk with terms becomes the next document, and its
   * terms get their postings and document frequencies.
   */
  method AddChunk(
    docs: seq<IndexedChunk>, postings: map<string, seq<Posting>>, docFrequency: map<string, nat>,
    path: string, source: Source, chunk: Chunk)
    returns (docs': seq<IndexedChunk>, postings': map<string, seq<Posting>>, docFrequency': map<string, nat>)
    requires postings == PostingsTable(docs) && docFrequency == FrequencyTable(docs)
    ensures var e := Entry(path, source, chunk);
      docs' == docs + (if HasTerms(e) then [MakeDoc(e)] else [])
    ensures postings' == PostingsTable(docs') && docFrequency' == FrequencyTable(docs')
  {
    var index := |docs|;
    var terms := CountTerms(Tokenize(chunk.text));
    if terms.keys == [] {
      return docs, postings, docFrequency;
    }
    var doc := IndexedChunk(
      path + ":" + IntToString(chunk.startLine) + ":" + IntToString(chunk.endLine),
      path, chunk.startLine, chunk.endLine, source,
      chunk.text, SnippetForText(chunk.text), AtLeastOne(SumOver(terms.keys, terms.freq)));
    assert doc == MakeDoc(Entry(path, source, chunk));
    docs' := docs + [doc];
    assert docs'[..index] == docs && docs'[index] == doc;
    postings' := AddPostings(postings, index, terms);
    docFrequency' := AddDocFrequencies(docFrequency, terms);
  }

  lemma FilterMapSnoc<A, B>(xs: seq<A>, x: A, keep: A -> bool, f: A -> B)
    ensures FilterMap(xs + [x], keep, f) == FilterMap(xs, keep, f) + (if keep(x) then [f(x)] else [])
  {
    assert (xs + [x])[..|xs|] == xs;
  }

  lemma {:induction false} FilterMapConcat<A, B>(xs: seq<A>, ys: seq<A>, keep: A -> bool, f: A -> B)
    ensures FilterMap(xs + ys, keep, f) == FilterMap(xs, keep, f) + FilterMap(ys, keep, f)
  {
    if ys == [] {
      assert xs + ys == xs;
    } else {
      var init := ys[..|ys| - 1];
      FilterMapConcat(xs, init, keep, f);
      assert (xs + ys)[..|xs + ys| - 1] == xs + init;
    }
  }

  /** One step of a loop that builds `FilterMap(xs, keep, f)` after `prefix`. */
  lemma FilterMapStep<A, B>(prefix: seq<B>, xs: seq<A>, c: nat, keep: A -> bool, f: A -> B, before: seq<B>, after: seq<B>)
    requires c < |xs|
    requires before == prefix + FilterMap(xs[..c], keep, f)
    requires after == before + (if keep(xs[c]) then [f(xs[c])] else [])
    ensures after == prefix + FilterMap(xs[..c + 1], keep, f)
  {
    assert xs[..c + 1] == xs[..c] + [xs[c]];
    FilterMapSnoc(xs[..c], xs[c], keep, f);
  }

  /** The chunk loop over one record. */
  method AddRecord(
    docs: seq<IndexedChunk>, postings: map<string, seq<Posting>>, docFrequency: map<string, nat>,
    record: FileRecord)
    returns (docs': seq<IndexedChunk>, postings': map<string, seq<Posting>>, docFrequency': map<string, nat>)
    requires postings == PostingsTable(docs) && docFrequency == FrequencyTable(docs)
    ensures docs' == docs + DocsOf(RecordEntries(record))
    ensures postings' == PostingsTable(docs') && docFrequency' == FrequencyTable(docs')
  {
    docs', postings', docFrequency' := docs, postings, docFrequency;
    var entries := RecordEntries(record);
    assert entries[..0] == [];
    for c := 0 to |record.chunks|
      invariant docs' == docs + DocsOf(entries[..c])
      invariant postings' == PostingsTable(docs') && docFrequency' == FrequencyTable(docs')
    {
      ghost var before := docs';
      docs', postings', docFrequency' := AddChunk(docs', postings', docFrequency', record.path, record.source, record.chunks[c]);
      FilterMapStep(docs, entries, c, HasTerms, MakeDoc, before, docs');
    }
    assert entries[..|record.chunks|] == entries;
  }

  /**
   * The index build of `runSync`: one document per chunk with terms, in record and
   * chunk order, with the postings and document frequencies of its terms.
   */
  method BuildIndex(records: seq<FileRecord>) returns (idx: Index)
    ensures idx.docs == DocsOf(Entries(records))
    ensures Consistent(idx)
  {
    var docs: seq<IndexedChunk> := [];
    var postings: map<string, seq<Posting>> := map[];
    var docFrequency: map<string, nat> := map[];
    for r := 0 to |records|
      invariant docs == DocsOf(Entries(records[..r]))
      invariant postings == PostingsTable(docs) && docFrequency == FrequencyTable(docs)
    {
      assert records[..r + 1][..r] == records[..r];
      FilterMapConcat(Entries(records[..r]), RecordEntries(records[r]), HasTerms, MakeDoc);
      docs, postings, docFrequency := AddRecord(docs, postings, docFrequency, records[r]);
    }
    assert records[..|records|] == records;
    var avgDocLength := AvgDocLength(docs);
    idx := Index(docs, postings, docFrequency, avgDocLength);
    TablesMatch(docs);
    DocsOfOK(Entries(records));
  }
}
