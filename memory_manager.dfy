/**
 * `TextMemoryManager` (`src/memory/text-manager.ts`): the per-agent index
 * snapshot and its lifecycle, and the module-level `INDEX_CACHE` that `get`
 * and `close` maintain.
 *
 * A sync is split into `Sync`, which starts one unless one is pending and returns
 * the handle of the pending one, and `FinishSync`, the completion of the pending
 * run. The configuration resolvers, `JSON.stringify`, the interval timer's
 * callback and the file listing are not part of this model: their results are
 * parameters.
 */
module MemoryManager {
  import opened Wrappers
  import opened Js
  import opened Utils
  import opened MemoryIndex
  import opened MemorySearch
  import MemoryRead

  datatype SyncSettings = SyncSettings(onSearch: bool, intervalMinutes: real)
  datatype QuerySettings = QuerySettings(minScore: real, maxResults: int)

  /** The resolved memory-search settings that the manager reads. */
  datatype Settings = Settings(
    sources: seq<Source>, extraPaths: seq<string>, sync: SyncSettings, query: QuerySettings)

  /** The `INDEX_CACHE` key: agent, workspace and serialised settings. */
  function CacheKey(agentId: string, workspaceDir: string, settingsJson: string): string {
    agentId + ":" + workspaceDir + ":" + settingsJson
  }

  // ----------------------------------------------------------------- status

  datatype SourceCount = SourceCount(source: Source, files: nat, chunks: nat)

  datatype Capability = Capability(enabled: bool, available: bool)

  datatype StatusReport = StatusReport(
    backend: string, provider: string, model: string, requestedProvider: string,
    files: nat, chunks: nat, dirty: bool, workspaceDir: string, extraPaths: seq<string>,
    sources: seq<Source>, sourceCounts: seq<SourceCount>,
    vector: Capability, fts: Capability, cacheEnabled: bool)

  /** The keys of a `Map` filled from `xs`: the first occurrence of each value, in order. */
  function Dedup(xs: seq<Source>): seq<Source> {
    if xs == [] then []
    else
      var d := Dedup(xs[..|xs| - 1]);
      if xs[|xs| - 1] in d then d else d + [xs[|xs| - 1]]
  }

  predicate DistinctSources(xs: seq<Source>) {
    forall a, b :: 0 <= a < b < |xs| ==> xs[a] != xs[b]
  }

  lemma {:induction false} DedupFacts(xs: seq<Source>)
    ensures DistinctSources(Dedup(xs))
    ensures forall s :: s in Dedup(xs) <==> s in xs
  {
    if xs != [] {
      DedupFacts(xs[..|xs| - 1]);
      assert xs == xs[..|xs| - 1] + [xs[|xs| - 1]];
    }
  }

  /** The number of documents from source `s`. */
  function ChunkCount(docs: seq<IndexedChunk>, s: Source): nat {
    if docs == [] then 0
    else ChunkCount(docs[..|docs| - 1], s) + (if docs[|docs| - 1].source == s then 1 else 0)
  }

  /** The paths of the documents from source `s`. */
  function PathSet(docs: seq<IndexedChunk>, s: Source): set<string> {
    if docs == [] then {}
    else PathSet(docs[..|docs| - 1], s) + (if docs[|docs| - 1].source == s then {docs[|docs| - 1].path} else {})
  }

  function CountFor(docs: seq<IndexedChunk>, s: Source): SourceCount {
    SourceCount(s, |PathSet(docs, s)|, ChunkCount(docs, s))
  }

  /** `sourceCounts`: one entry per configured source, in first-occurrence order. */
  function SourceCountsOf(keys: seq<Source>, docs: seq<IndexedChunk>): seq<SourceCount> {
    if keys == [] then [] else SourceCountsOf(keys[..|keys| - 1], docs) + [CountFor(docs, keys[|keys| - 1])]
  }

  function TotalChunks(counts: seq<SourceCount>): nat {
    if counts == [] then 0 else TotalChunks(counts[..|counts| - 1]) + counts[|counts| - 1].chunks
  }

  /** A source has no more files than chunks: each file contributes at least one chunk. */
  lemma {:induction false} FilesAtMostChunks(docs: seq<IndexedChunk>, s: Source)
    ensures |PathSet(docs, s)| <= ChunkCount(docs, s)
  {
    if docs != [] {
      FilesAtMostChunks(docs[..|docs| - 1], s);
    }
  }

  lemma {:induction false} TotalChunksSnoc(keys: seq<Source>, docs: seq<IndexedChunk>, d: IndexedChunk)
    requires DistinctSources(keys)
    ensures TotalChunks(SourceCountsOf(keys, docs + [d])) ==
      TotalChunks(SourceCountsOf(keys, docs)) + (if d.source in keys then 1 else 0)
  {
    if keys != [] {
      var init := keys[..|keys| - 1];
      TotalChunksSnoc(init, docs, d);
      assert (docs + [d])[..|docs|] == docs;
      assert keys == init + [keys[|keys| - 1]];
      var with := SourceCountsOf(keys, docs + [d]);
      assert with[..|with| - 1] == SourceCountsOf(init, docs + [d]);
      var without := SourceCountsOf(keys, docs);
      assert without[..|without| - 1] == SourceCountsOf(init, docs);
    }
  }

  /** When every document's source is configured, the per-source chunk counts add up to the number of documents. */
  lemma {:induction false} TotalChunksIsDocCount(keys: seq<Source>, docs: seq<IndexedChunk>)
    requires DistinctSources(keys)
    requires forall i :: 0 <= i < |docs| ==> docs[i].source in keys
    ensures TotalChunks(SourceCountsOf(keys, docs)) == |docs|
  {
    if docs == [] {
      ZeroChunks(keys);
    } else {
      var init := docs[..|docs| - 1];
      TotalChunksIsDocCount(keys, init);
      TotalChunksSnoc(keys, init, docs[|docs| - 1]);
      assert init + [docs[|docs| - 1]] == docs;
    }
  }

  lemma {:induction false} ZeroChunks(keys: seq<Source>)
    ensures TotalChunks(SourceCountsOf(keys, [])) == 0
  {
    if keys != [] {
      ZeroChunks(keys[..|keys| - 1]);
    }
  }

  /** `new Set(docs.map(doc => doc.path)).size`. */
  function AllPaths(docs: seq<IndexedChunk>): set<string> {
    set i | 0 <= i < |docs| :: docs[i].path
  }

  // ---------------------------------------------------------------- manager

  class TextMemoryManager {
    const cacheKey: string
    const agentId: string
    const workspaceDir: string
    const settings: Settings
    var docs: seq<IndexedChunk>
    var postings: map<string, seq<Posting>>
    var docFrequency: map<string, nat>
    var avgDocLength: real
    /** The handle of the sync in flight, if any. */
    var syncing: Option<nat>
    var nextHandle: nat
    var hasTimer: bool
    var closed: bool
    var dirty: bool

    /** The index snapshot is consistent and only holds documents of configured sources. */
    ghost predicate Valid()
      reads this
    {
      && Consistent(Snapshot())
      && FromSources(docs, settings.sources)
    }

    function Snapshot(): Index
      reads this
    {
      Index(docs, postings, docFrequency, avgDocLength)
    }

    /** An empty, dirty index; the interval timer exists iff the interval is positive. */
    constructor (cacheKey: string, agentId: string, workspaceDir: string, settings: Settings)
      ensures this.cacheKey == cacheKey && this.agentId == agentId
      ensures this.workspaceDir == workspaceDir && this.settings == settings
      ensures docs == [] && postings == map[] && docFrequency == map[] && avgDocLength == 0.0
      ensures syncing == None && !closed && dirty
      ensures hasTimer <==> settings.sync.intervalMinutes > 0.0
      ensures Valid()
    {
      this.cacheKey := cacheKey;
      this.agentId := agentId;
      this.workspaceDir := workspaceDir;
      this.settings := settings;
      docs := [];
      postings := map[];
      docFrequency := map[];
      avgDocLength := 0.0;
      syncing := None;
      nextHandle := 0;
      closed := false;
      dirty := true;
      hasTimer := Max(0.0, settings.sync.intervalMinutes) > 0.0;
    }

    /** The body of `runSync`: collect the records, build the index, swap the snapshot in. */
    method RunSync(memoryFiles: seq<Option<MemoryFile>>, sessionEntries: seq<Option<SessionEntry>>)
      modifies this
      ensures Valid() && !dirty
      ensures docs == DocsOf(Entries(RecordsOf(settings.sources, memoryFiles, sessionEntries)))
      ensures syncing == old(syncing) && nextHandle == old(nextHandle)
      ensures hasTimer == old(hasTimer) && closed == old(closed)
    {
      var idx := Rebuild(settings.sources, memoryFiles, sessionEntries);
      Install(idx);
    }

    /** The end of `runSync`: the new snapshot replaces the old one and the index is clean. */
    method Install(idx: Index)
      requires Consistent(idx) && FromSources(idx.docs, settings.sources)
      modifies this
      ensures Valid() && !dirty
      ensures docs == idx.docs && postings == idx.postings
      ensures docFrequency == idx.docFrequency && avgDocLength == idx.avgDocLength
      ensures syncing == old(syncing) && nextHandle == old(nextHandle)
      ensures hasTimer == old(hasTimer) && closed == old(closed)
    {
      docs, postings, docFrequency, avgDocLength := idx.docs, idx.postings, idx.docFrequency, idx.avgDocLength;
      dirty := false;
    }

    /** `sync`: the pending run's handle when one is in flight, otherwise a new run. */
    method Sync() returns (handle: nat)
      modifies this
      ensures old(syncing).Some? ==> handle == old(syncing).value && syncing == old(syncing)
      ensures old(syncing).Some? ==> nextHandle == old(nextHandle)
      ensures old(syncing).None? ==> handle == old(nextHandle) && syncing == Some(handle)
      ensures old(syncing).None? ==> nextHandle == old(nextHandle) + 1
      ensures docs == old(docs) && postings == old(postings) && docFrequency == old(docFrequency)
      ensures avgDocLength == old(avgDocLength) && dirty == old(dirty)
      ensures hasTimer == old(hasTimer) && closed == old(closed)
    {
      if syncing.Some? {
        return syncing.value;
      }
      handle := nextHandle;
      nextHandle := nextHandle + 1;
      syncing := Some(handle);
    }

    /** The run in flight completes, and the `finally` clears the pending handle. */
    method FinishSync(memoryFiles: seq<Option<MemoryFile>>, sessionEntries: seq<Option<SessionEntry>>)
      requires syncing.Some?
      modifies this
      ensures Valid() && !dirty && syncing == None
      ensures docs == DocsOf(Entries(RecordsOf(settings.sources, memoryFiles, sessionEntries)))
      ensures nextHandle == old(nextHandle) && hasTimer == old(hasTimer) && closed == old(closed)
    {
      RunSync(memoryFiles, sessionEntries);
      syncing := None;
    }

    /**
     * `search`: with `onSearch` set and a dirty index the sync runs to completion
     * first; the options override the configured `minScore` and `maxResults`.
     */
    method Search(
      query: string, minScore: Option<real>, maxResults: Option<int>, ln: real -> real,
      memoryFiles: seq<Option<MemoryFile>>, sessionEntries: seq<Option<SessionEntry>>)
      returns (results: seq<SearchResult>)
      requires Valid()
      modifies this
      ensures Valid()
      ensures results == SearchOf(Snapshot(), ln, query,
        minScore.GetOr(settings.query.minScore), maxResults.GetOr(settings.query.maxResults))
      ensures old(settings.sync.onSearch && dirty) ==>
        !dirty && syncing == None &&
        docs == DocsOf(Entries(RecordsOf(settings.sources, memoryFiles, sessionEntries)))
      ensures !old(settings.sync.onSearch && dirty) ==> unchanged(this)
    {
      if settings.sync.onSearch && dirty {
        var _ := Sync();
        FinishSync(memoryFiles, sessionEntries);
      }
      results := SearchIndex(Snapshot(), ln, query,
        minScore.GetOr(settings.query.minScore), maxResults.GetOr(settings.query.maxResults));
    }

    /** `readFile`, resolved against this manager's workspace and extra paths. */
    method ReadFile(env: MemoryRead.PathEnv, relPath: string, from: Option<int>, lines: Option<int>)
      returns (r: Result<MemoryRead.ReadResult, MemoryRead.ReadError>)
      ensures r == MemoryRead.ReadFileOf(env.(workspaceDir := workspaceDir), settings.extraPaths, relPath, from, lines)
    {
      r := MemoryRead.ReadFile(env.(workspaceDir := workspaceDir), settings.extraPaths, relPath, from, lines);
    }

    /**
     * `status`: the counts of files and chunks overall and per configured source.
     * The per-source chunk counts add up to the number of documents, and no source
     * has more files than chunks.
     */
    method Status() returns (report: StatusReport)
      requires Valid()
      ensures report.sourceCounts == SourceCountsOf(Dedup(settings.sources), docs)
      ensures TotalChunks(report.sourceCounts) == report.chunks == |docs|
      ensures forall k :: 0 <= k < |report.sourceCounts| ==>
        report.sourceCounts[k].files <= report.sourceCounts[k].chunks
      ensures report.files == |AllPaths(docs)| && report.dirty == dirty
      ensures report.sources == settings.sources && report.extraPaths == settings.extraPaths
      ensures report.workspaceDir == workspaceDir
    {
      var keys, chunks, files := InitCounts(settings.sources);
      DedupFacts(settings.sources);
      chunks, files := AddDocCounts(docs, keys, chunks, files);
      var sourceCounts := CollectSourceCounts(docs, keys, chunks, files);
      SourceCountsFacts(keys, docs);
      report := StatusReport(
        "text", "text", "bm25-js", "text", |AllPaths(docs)|, |docs|, dirty, workspaceDir,
        settings.extraPaths, settings.sources, sourceCounts,
        Capability(false, false), Capability(true, true), false);
    }

    /** `close`: the first call stops the timer and drops this manager's cache key; later calls do nothing. */
    method Close(cache: IndexCache)
      requires cache.Valid()
      modifies this, cache
      ensures cache.Valid()
      ensures old(closed) ==> unchanged(this) && unchanged(cache)
      ensures !old(closed) ==> closed && !hasTimer && cache.entries == old(cache.entries) - {cacheKey}
      ensures docs == old(docs) && dirty == old(dirty) && syncing == old(syncing)
      ensures postings == old(postings) && docFrequency == old(docFrequency) && avgDocLength == old(avgDocLength)
    {
      if closed {
        return;
      }
      closed := true;
      if hasTimer {
        hasTimer := false;
      }
      cache.entries := cache.entries - {cacheKey};
      forall k | k in cache.entries ensures !cache.entries[k].closed {
        assert old(cache.entries[k]).cacheKey == k;
      }
    }
  }

  /** Every document comes from one of `sources`. */
  predicate FromSources(docs: seq<IndexedChunk>, sources: seq<Source>) {
    forall i :: 0 <= i < |docs| ==> docs[i].source in sources
  }

  /** The collection and the build of `runSync`: every document comes from a configured source. */
  method Rebuild(sources: seq<Source>, memoryFiles: seq<Option<MemoryFile>>, sessionEntries: seq<Option<SessionEntry>>)
    returns (idx: Index)
    ensures idx.docs == DocsOf(Entries(RecordsOf(sources, memoryFiles, sessionEntries)))
    ensures Consistent(idx)
    ensures FromSources(idx.docs, sources)
  {
    var records := CollectRecords(sources, memoryFiles, sessionEntries);
    idx := BuildIndex(records);
    EntriesSources(records, sources);
    DocsOfSources(Entries(records), sources);
  }

  /** The maps of `status` before the documents are counted: zero chunks and no paths per configured source. */
  method InitCounts(sources: seq<Source>) returns (keys: seq<Source>, chunks: map<Source, nat>, files: map<Source, set<string>>)
    ensures keys == Dedup(sources)
    ensures forall s :: s in keys ==> s in chunks && chunks[s] == 0 && s in files && files[s] == {}
  {
    keys, chunks, files := [], map[], map[];
    for i := 0 to |sources|
      invariant keys == Dedup(sources[..i])
      invariant forall s :: s in keys ==> s in chunks && chunks[s] == 0 && s in files && files[s] == {}
    {
      assert sources[..i + 1][..i] == sources[..i];
      var s := sources[i];
      if s !in keys {
        keys := keys + [s];
      }
      chunks := chunks[s := 0];
      files := files[s := {}];
    }
    assert sources[..|sources|] == sources;
  }

  /** The loop over the documents of `status`: one more chunk and the path for the document's source. */
  method AddDocCounts(docs: seq<IndexedChunk>, keys: seq<Source>, chunks0: map<Source, nat>, files0: map<Source, set<string>>)
    returns (chunks: map<Source, nat>, files: map<Source, set<string>>)
    requires forall i :: 0 <= i < |docs| ==> docs[i].source in keys
    requires forall s :: s in keys ==> s in chunks0 && chunks0[s] == 0 && s in files0 && files0[s] == {}
    ensures forall s :: s in keys ==>
      s in chunks && s in files && chunks[s] == ChunkCount(docs, s) && files[s] == PathSet(docs, s)
  {
    chunks, files := chunks0, files0;
    for i := 0 to |docs|
      invariant forall s :: s in keys ==>
        s in chunks && s in files && chunks[s] == ChunkCount(docs[..i], s) && files[s] == PathSet(docs[..i], s)
    {
      assert docs[..i + 1][..i] == docs[..i];
      var doc := docs[i];
      chunks := chunks[doc.source := chunks[doc.source] + 1];
      files := files[doc.source := files[doc.source] + {doc.path}];
    }
    assert docs[..|docs|] == docs;
  }

  /** `sourceCounts`, read off the two maps in key order. */
  method CollectSourceCounts(ghost docs: seq<IndexedChunk>, keys: seq<Source>, chunks: map<Source, nat>, files: map<Source, set<string>>)
    returns (sourceCounts: seq<SourceCount>)
    requires forall s :: s in keys ==>
      s in chunks && s in files && chunks[s] == ChunkCount(docs, s) && files[s] == PathSet(docs, s)
    ensures sourceCounts == SourceCountsOf(keys, docs)
  {
    sourceCounts := [];
    for k := 0 to |keys|
      invariant sourceCounts == SourceCountsOf(keys[..k], docs)
    {
      assert keys[..k + 1][..k] == keys[..k];
      var s := keys[k];
      sourceCounts := sourceCounts + [SourceCount(s, |files[s]|, chunks[s])];
    }
    assert keys[..|keys|] == keys;
  }

  /** The per-source counts add up to the number of documents, and no source has more files than chunks. */
  lemma SourceCountsFacts(keys: seq<Source>, docs: seq<IndexedChunk>)
    requires DistinctSources(keys)
    requires forall i :: 0 <= i < |docs| ==> docs[i].source in keys
    ensures TotalChunks(SourceCountsOf(keys, docs)) == |docs|
    ensures forall k :: 0 <= k < |SourceCountsOf(keys, docs)| ==>
      SourceCountsOf(keys, docs)[k].files <= SourceCountsOf(keys, docs)[k].chunks
  {
    TotalChunksIsDocCount(keys, docs);
    SourceCountsLength(keys, docs);
    forall k | 0 <= k < |SourceCountsOf(keys, docs)|
      ensures SourceCountsOf(keys, docs)[k].files <= SourceCountsOf(keys, docs)[k].chunks
    {
      SourceCountsAt(keys, docs, k);
      FilesAtMostChunks(docs, keys[k]);
    }
  }

  lemma SourceCountsAt(keys: seq<Source>, docs: seq<IndexedChunk>, k: int)
    requires 0 <= k < |keys|
    ensures |SourceCountsOf(keys, docs)| == |keys|
    ensures SourceCountsOf(keys, docs)[k] == CountFor(docs, keys[k])
  {
    if k < |keys| - 1 {
      SourceCountsAt(keys[..|keys| - 1], docs, k);
    } else {
      SourceCountsLength(keys[..|keys| - 1], docs);
    }
  }

  lemma {:induction false} SourceCountsLength(keys: seq<Source>, docs: seq<IndexedChunk>)
    ensures |SourceCountsOf(keys, docs)| == |keys|
  {
    if keys != [] {
      SourceCountsLength(keys[..|keys| - 1], docs);
    }
  }

  // ------------------------------------------------------------------ cache

  /** `INDEX_CACHE`: one live manager per key. */
  class IndexCache {
    var entries: map<string, TextMemoryManager>

    /** Every cached manager sits under its own key and has not been closed. */
    ghost predicate Valid()
      reads this, entries.Values
    {
      forall k :: k in entries ==> entries[k].cacheKey == k && !entries[k].closed
    }

    constructor ()
      ensures entries == map[] && Valid()
    {
      entries := map[];
    }

    /**
     * `TextMemoryManager.get`: nothing without settings; the cached manager for
     * an existing key; otherwise a new, empty and dirty manager stored under the key.
     */
    method Get(agentId: string, workspaceDir: string, settings: Option<Settings>, settingsJson: Settings -> string)
      returns (m: Option<TextMemoryManager>)
      requires Valid()
      modifies this
      ensures Valid()
      ensures settings.None? ==> m.None? && entries == old(entries)
      ensures settings.Some? && CacheKey(agentId, workspaceDir, settingsJson(settings.value)) in old(entries) ==>
        && m == Some(old(entries)[CacheKey(agentId, workspaceDir, settingsJson(settings.value))])
        && entries == old(entries)
      ensures settings.Some? && CacheKey(agentId, workspaceDir, settingsJson(settings.value)) !in old(entries) ==>
        && m.Some? && fresh(m.value)
        && entries == old(entries)[CacheKey(agentId, workspaceDir, settingsJson(settings.value)) := m.value]
        && m.value.dirty && m.value.docs == [] && m.value.Valid()
        && m.value.settings == settings.value && m.value.workspaceDir == workspaceDir
      ensures settings.Some? && m.Some? ==> entries[CacheKey(agentId, workspaceDir, settingsJson(settings.value))] == m.value
    {
      if settings.None? {
        return None;
      }
      var key := CacheKey(agentId, workspaceDir, settingsJson(settings.value));
      if key in entries {
        return Some(entries[key]);
      }
      var manager := new TextMemoryManager(key, agentId, workspaceDir, settings.value);
      entries := entries[key := manager];
      return Some(manager);
    }
  }

  /** Two `get` calls with the same arguments return the same instance. */
  method GetTwice(cache: IndexCache, agentId: string, workspaceDir: string, settings: Settings, settingsJson: Settings -> string)
    returns (first: TextMemoryManager, second: TextMemoryManager)
    requires cache.Valid()
    modifies cache
    ensures first == second
  {
    var a := cache.Get(agentId, workspaceDir, Some(settings), settingsJson);
    var b := cache.Get(agentId, workspaceDir, Some(settings), settingsJson);
    first, second := a.value, b.value;
  }

  /** After `close`, `get` with the same arguments builds a new, dirty manager. */
  method CloseThenGet(cache: IndexCache, agentId: string, workspaceDir: string, settings: Settings, settingsJson: Settings -> string)
    returns (first: TextMemoryManager, second: TextMemoryManager)
    requires cache.Valid()
    modifies cache, cache.entries.Values
    ensures first != second && second.dirty && second.docs == []
  {
    var a := cache.Get(agentId, workspaceDir, Some(settings), settingsJson);
    first := a.value;
    first.Close(cache);
    var b := cache.Get(agentId, workspaceDir, Some(settings), settingsJson);
    second := b.value;
  }
}
