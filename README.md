# Text memory index, shared utilities and Feishu policy — a Dafny model

This project models three parts of the OpenClaw repository in Dafny and proves properties of the model.

- **The text memory backend** (`src/memory/text-manager.ts`). It is a per-agent BM25 full-text index over markdown memory files and session transcripts. The model covers:
  - the tokenizer, the term counter and the snippet builder;
  - the index build of `runSync`: record collection, documents, postings, document frequencies and mean document length;
  - `search`: BM25 scoring, the phrase bonus, normalisation, the `minScore` filter, the descending sort and the `maxResults` cut;
  - the access checks and line window of `readFile`;
  - `status`;
  - the manager's lifecycle (`get`, `sync`, `close`) and the process-wide `INDEX_CACHE`.
- **Small utilities** (`src/utils.ts`): clamping, regular-expression escaping, path and E.164 phone-number normalisation, and slicing that never cuts a UTF-16 surrogate pair.
- **The Feishu channel's policy decisions** (`extensions/feishu/src/policy.ts`): the fallback sender allowlist, the exact-then-case-insensitive group lookup, the group tool policy, the group allow policy and the mention requirement.

Modules:
- `Wrappers` holds `Option` and `Result`.
- `Js` holds the JavaScript built-ins the code relies on:
  - `trim` and its whitespace set;
  - ASCII `toLowerCase`;
  - `startsWith`, `endsWith` and `includes`;
  - `split`/`join` on one character;
  - the index rules of `slice`;
  - number-to-string.
- `Utils` models `src/utils.ts`.
- `Tokenizer`, `MemoryIndex`, `MemorySearch`, `MemoryRead` and `MemoryManager` model `text-manager.ts`.
- `FeishuPolicy` models `policy.ts`.

How the source's shape is kept:
- Loops become methods with invariants. Each is proved equal to a reference function, and the properties are proved about that function.
- The manager and the cache are classes whose methods update their fields.
- Expression code stays as functions.

Behaviour of the code worth noting, which the model follows:
- **Duplicate query terms.** `search` scores every query token, duplicates included (`text-manager.ts:143-160`), so a repeated token adds its weight again. `MemorySearch.QueryScores` iterates the token sequence as it is.
- **A missing `readFile` target.** When the target passes the access checks but does not exist, `fs.lstat` throws its own error (`text-manager.ts:247`), not "path required". It is modelled as a separate `NotFound` error.
- **Normalised scores.** `raw / max` is clamped into `[0, 1]` (`text-manager.ts:183`), and that range is what is proved. In the source every raw score is positive, because the BM25 `idf`, `tf` and norm are positive and the phrase bonus only adds, so a score lies in `(0, 1]`. The model does not show that, because `Math.log` is the parameter `ln`.
- **Negative `maxResults`.** `slice(0, maxResults)` (`text-manager.ts:195`) counts a negative bound from the end. The bound `|results| <= maxResults` and the size `min(maxResults, survivors)` are stated for `maxResults >= 0`; for a negative one the size is the one `slice` gives.

`src/utils.ts` contains unresolved merge-conflict markers at lines 34, 35 and 86. The definitions between them (lines 36-85, which hold `escapeRegExp`) are modelled as present.

## Model

| member | source | states |
|---|---|---|
| Utils.ClampNumber | src/utils.ts:26-28 | For `min <= max` the result lies in `[min, max]`. It is `value` when `value` lies inside. It is `min` when `value < min` or when the bounds are reversed, and `max` when `value` is above a proper range. |
| Utils.ClampInt | src/utils.ts:30-32 | The result lies in `[min, max]` for ordered bounds. It is `floor(value)` when that lies inside. It is a whole number when both bounds are. |
| Utils.EscapeRegExp | src/utils.ts:42-44 | Escaping never shortens the string. |
| Utils.EscapeRegExpConcat | src/utils.ts:42-44 | Escaping distributes over concatenation. |
| Utils.UnescapeEscapeRegExp | src/utils.ts:42-44 | Removing the backslashes from an escaped string gives the original back. |
| Utils.EscapeRegExpWellEscaped | src/utils.ts:42-44 | An escaped string has every special character preceded by a backslash, and no bare special character. |
| Utils.WellEscapedIsEscape | src/utils.ts:42-44 | Every well-escaped string is the escape of exactly its unescaped form, so escaping is a bijection onto well-escaped strings. |
| Utils.NormalizePath | src/utils.ts:87-92 | The result starts with `/`. A path that already starts with `/` is returned unchanged. Any other path gets exactly one `/` in front. |
| Utils.NormalizePathIdempotent | src/utils.ts:87-92 | Normalising twice is normalising once. |
| Utils.NormalizePathExamples | src/utils.ts:87-92 | `"foo"` becomes `"/foo"` and `"/bar"` stays `"/bar"`. |
| Utils.KeepE164Chars | src/utils.ts:95 | The `[^\d+]` removal keeps only digits and `+`, and never lengthens the string. |
| Utils.DigitsOfKeepE164Chars | src/utils.ts:95 | The removal keeps every digit, in order. |
| Utils.KeepE164CharsOfKept | src/utils.ts:95 | A string of digits and `+` is left unchanged. |
| Utils.DigitsOfTrim | src/utils.ts:95 | Trimming keeps every digit, in order. |
| Utils.WithPlus | src/utils.ts:96-99 | The result always starts with `+`. |
| Utils.WithPlusFacts | src/utils.ts:96-99 | After the leading-`+` rewrite the string still holds only digits and `+`, and its digits are unchanged. |
| Utils.NormalizeE164 | src/utils.ts:94-100 | A normalised number always starts with `+`. |
| Utils.NormalizeE164Shape | src/utils.ts:94-100 | A normalised number holds only digits and `+`, and keeps exactly the input's digits in order. |
| Utils.NormalizeE164Fixpoint | src/utils.ts:94-100 | A string that starts with `+` and holds only digits and `+` is already normalised. |
| Utils.NormalizeE164Idempotent | src/utils.ts:94-100 | Normalising a number twice is normalising it once. |
| Utils.OrderedBounds | src/utils.ts:115-124 | The two bounds lie in `0..len` and are in order. Together they are the start and the end after the negative-from-the-end and clamping rules, with a missing end read as `len`; reversed bounds are swapped. |
| Utils.SafeBounds | src/utils.ts:126-138 | Neither adjusted bound falls between a high and a low surrogate. The start moves forward by one exactly when it falls inside a pair, and the end moves back by one exactly when it does. |
| Utils.SliceUtf16Safe | src/utils.ts:114-141 | The result is exactly the input between the surrogate-adjusted bounds, or empty when the adjusted start is not before the adjusted end; so it is a contiguous slice whose two ends cut no surrogate pair. |
| Utils.SliceUtf16SafeInsidePair | src/utils.ts:126-131 | A start that falls between the two halves of a pair moves past the pair: slicing `[a, high, low, b]` from 2 gives `[b]`. |
| Utils.SliceUtf16SafeWithoutPairs | src/utils.ts:114-141 | On input without high surrogates the result is the plain ordered slice. |
| Utils.SliceUtf16SafeEmptyWhenCrossed | src/utils.ts:126-140 | When the adjustment makes the start overtake the end, the result is empty. |
| Utils.TruncateUtf16Safe | src/utils.ts:143-149 | Input within `max(0, floor(maxLen))` code units is returned unchanged. Longer input is cut to that limit, or to one fewer when the cut would split a surrogate pair. |
| Tokenizer.Tokenize | src/memory/text-manager.ts:42-48 | The definition: lower-case, take the maximal word-character runs, keep those longer than one character. Its properties are stated by `TokenizeShape`, `TokenizeIgnoresCase`, `TokenizeWithoutWordChars`, `RunsShape` and `LongTokensShape`. |
| Tokenizer.TokenizeShape | src/memory/text-manager.ts:42-48 | Every token is lower-case, at least two characters long, and made only of word characters. |
| Tokenizer.TokenizeIgnoresCase | src/memory/text-manager.ts:42-48 | Tokenising the lower-cased text gives the same tokens, so queries and documents share one vocabulary. |
| Tokenizer.TokenizeSeparated | src/memory/text-manager.ts:42-48 | Around a non-word character, the tokens are those of the text before it followed by those of the text after it, in order and with repetitions. |
| Tokenizer.TokenizeWord | src/memory/text-manager.ts:42-48 | A word of two or more word characters is a single token, its lower-cased form. |
| Tokenizer.TokenizeWithoutWordChars | src/memory/text-manager.ts:42-46 | Text without word characters has no tokens (the `!matches` branch). |
| Tokenizer.RunsShape | src/memory/text-manager.ts:43 | Every run is non-empty, is made of word characters, and takes its characters from the text. Together the runs are exactly the text's word characters, in order. A non-empty text of word characters is a single run. |
| Tokenizer.RunsOfRun | src/memory/text-manager.ts:43 | A non-empty string of word characters is one whole run and is not split. |
| Tokenizer.LeadingRunOfRun | src/memory/text-manager.ts:43 | The leading run of a string of word characters is the whole string. |
| Tokenizer.LeadingRunSeparated | src/memory/text-manager.ts:43 | A leading run stops at the first non-word character, whatever follows it. |
| Tokenizer.RunsSeparated | src/memory/text-manager.ts:43 | Around a non-word character, the runs are those of the text before it followed by those of the text after it. So no run spans a separator, and with `RunsOfRun` the runs are exactly the maximal ones. |
| Tokenizer.RunsCover | src/memory/text-manager.ts:43 | The runs one after another are the text's word characters in order: none is lost, repeated or reordered. |
| Tokenizer.LongTokensShape | src/memory/text-manager.ts:47 | The length filter keeps exactly the runs longer than one character, and nothing else. |
| Tokenizer.LongTokensCounts | src/memory/text-manager.ts:47 | Each run longer than one character is kept exactly as often as it occurs, and shorter runs never are. |
| Tokenizer.LongTokensConcat | src/memory/text-manager.ts:47 | The filter keeps order: filtering a concatenation gives the filtered parts, concatenated. |
| Tokenizer.CountTerms | src/memory/text-manager.ts:50-56 | The map has a key exactly for each token. Each count is the token's number of occurrences. The counts add up to the number of tokens. The key list holds each counted term exactly once. |
| Tokenizer.CountTermsOfCounts | src/memory/text-manager.ts:50-56 | The reference term counts have a key exactly for each token, and each count equals the token's multiplicity. |
| Tokenizer.CountTermsOfSum | src/memory/text-manager.ts:50-56 | The reference counts add up to the number of tokens. |
| Tokenizer.CountTermsOfKeys | src/memory/text-manager.ts:50-56 | The key order lists each counted term exactly once. |
| Tokenizer.CollapseWhitespaceShape | src/memory/text-manager.ts:59 | Replacing whitespace runs leaves the text single-spaced and keeps every non-whitespace character in order. The result starts with a space exactly when the text starts with whitespace. |
| Tokenizer.NormalizeSnippetTextShape | src/memory/text-manager.ts:59 | The normalised text neither starts nor ends with a space, is single-spaced, and keeps every non-whitespace character of the text in order. |
| Tokenizer.SnippetForText | src/memory/text-manager.ts:58-64 | The definition: the normalised text, or its first 699 characters and `…` when it is longer than 700. Its properties are stated by `SnippetForTextShape`. |
| Tokenizer.SnippetForTextShape | src/memory/text-manager.ts:58-64 | A snippet is at most 700 characters long. It is the normalised text when that fits, and otherwise the first 699 normalised characters followed by `…`. |
| MemoryIndex.CollectMemoryRecords | src/memory/text-manager.ts:368-379 | One record per readable memory file, in order; unreadable files are skipped. |
| MemoryIndex.CollectSessionRecords | src/memory/text-manager.ts:381-390 | One record per built transcript whose text is not blank, in order. |
| MemoryIndex.MemoryRecordsSource | src/memory/text-manager.ts:368-379 | Every memory record is tagged `memory`, and there are no more records than files. |
| MemoryIndex.SessionRecordsSource | src/memory/text-manager.ts:381-390 | Every session record is tagged `sessions`, and there are no more records than entries. |
| MemoryIndex.CollectRecords | src/memory/text-manager.ts:355-390 | The records are the memory pass followed by the session pass, each only when its source is enabled. Every record's source is enabled. |
| MemoryIndex.DocsOfPosition | src/memory/text-manager.ts:396-412 | A chunk with terms becomes the document whose index is the number of chunks with terms before it. |
| MemoryIndex.DocsOfCount | src/memory/text-manager.ts:396-402 | There are exactly as many documents as chunks with at least one term, and no more than chunks. |
| MemoryIndex.DocsOfOK | src/memory/text-manager.ts:399-411 | Every document has terms, and its length is the sum of its term frequencies. |
| MemoryIndex.DocsOfSources | src/memory/text-manager.ts:403-412 | Every document comes from one of the given sources when every chunk does. |
| MemoryIndex.DocLengthIsTokenCount | src/memory/text-manager.ts:411 | A document's length is the number of tokens in its text, which is at least one, so `Math.max(1, …)` never changes it. |
| MemoryIndex.PostingsRefer | src/memory/text-manager.ts:414-418 | Every reference posting names a document that contains the term, with the term's frequency there. |
| MemoryIndex.PostingsIncreasing | src/memory/text-manager.ts:414-418 | The document indices of a posting list are strictly increasing. |
| MemoryIndex.PostingsComplete | src/memory/text-manager.ts:414-418 | Every document containing a term has its posting under that term. |
| MemoryIndex.PostingsCount | src/memory/text-manager.ts:414-421 | A term has one posting per document that contains it, however often it occurs there. |
| MemoryIndex.AvgDocLengthZeroIff | src/memory/text-manager.ts:425-426 | The mean length is 0 exactly for an empty index, and at least 1 otherwise. |
| MemoryIndex.WithPostingsMeaning | src/memory/text-manager.ts:414-418 | For distinct keys, each visited term gets exactly one new posting `(index, tf)` at the end of its list, and other terms are untouched. |
| MemoryIndex.WithFrequenciesMeaning | src/memory/text-manager.ts:419-421 | For distinct keys, each visited term's document frequency goes up by exactly one, and other terms are untouched. |
| MemoryIndex.PostingsTableAt | src/memory/text-manager.ts:396-418 | At every term, the postings map the build produces holds the reference posting list, and no key maps to an empty list. |
| MemoryIndex.FrequencyTableAt | src/memory/text-manager.ts:396-421 | At every term, the document-frequency map the build produces holds the number of documents containing it, and every stored count is positive. |
| MemoryIndex.TablesMatch | src/memory/text-manager.ts:396-421 | The build's two maps agree with the reference postings and document counts. |
| MemoryIndex.AddPostings | src/memory/text-manager.ts:414-418 | The loop over one document's terms yields the postings map with that document appended under each of its terms. |
| MemoryIndex.AddDocFrequencies | src/memory/text-manager.ts:419-421 | The loop over one document's terms raises each term's document frequency by one. |
| MemoryIndex.AddChunk | src/memory/text-manager.ts:397-421 | A chunk without terms is skipped. Otherwise its document is appended, with id `path:startLine:endLine`, its snippet and its token count as length. Either way the two maps stay equal to the postings and frequency tables of the documents so far. |
| MemoryIndex.AddRecord | src/memory/text-manager.ts:396-423 | The chunk loop over one record appends the documents of its chunks with terms, and the two maps stay equal to the tables of the documents so far. |
| MemoryIndex.BuildIndex | src/memory/text-manager.ts:392-426 | The built index's documents are those of the chunks with terms, in visiting order, and the index is consistent. |
| MemoryIndex.ConsistentIndexFacts | src/memory/text-manager.ts:392-426 | In a consistent index these all hold. Every posting names a document containing the term, with its frequency. Posting lists are strictly increasing. A term has a document frequency exactly when it has postings, and that frequency is the length of its list. Every document is listed under each of its terms. The mean length is 0 exactly when the index is empty, and every document has length at least 1. |
| MemorySearch.AccumulateScores | src/memory/text-manager.ts:139-160 | The two score loops compute the reference accumulation over the query tokens in order. |
| MemorySearch.AddTermScores | src/memory/text-manager.ts:150-159 | The inner loop adds one term's BM25 weight to each of its postings' documents, skipping indices without a document. |
| MemorySearch.QueryScores | src/memory/text-manager.ts:139-160 | The definition of the two score loops over the query tokens in order. Its properties are stated by `QueryScoresFacts`, and `AccumulateScores` is proved to compute it. |
| MemorySearch.QueryScoresFacts | src/memory/text-manager.ts:139-160 | A document gets a score exactly when some query token with postings and a positive document frequency has a posting for it. Every scored document is listed once in insertion order. |
| MemorySearch.PostingScoresFacts | src/memory/text-manager.ts:150-159 | The inner loop scores exactly the in-range documents of the posting list, added to those already scored. |
| MemorySearch.AddScoreFacts | src/memory/text-manager.ts:158 | Adding to a document's score keeps each key listed once and adds the document to the listed keys. |
| MemorySearch.AddPhraseBonus | src/memory/text-manager.ts:166-174 | Every scored document whose lower-cased text contains the lower-cased query gains exactly `0.2`, and every other score is unchanged. |
| MemorySearch.MaxRaw | src/memory/text-manager.ts:176 | The normaliser is at least `1e-9` and at least every raw score. |
| MemorySearch.CandidatesFacts | src/memory/text-manager.ts:180-192 | There is one candidate per scored document. Its score is clamped into `[0, 1]`, and it carries that document's path, lines, snippet and source. |
| MemorySearch.AboveMinFacts | src/memory/text-manager.ts:193 | A result survives the filter exactly when it is a candidate scoring at least `minScore`. |
| MemorySearch.AboveMinKeepsAll | src/memory/text-manager.ts:193 | The filter keeps every candidate when all score at least `minScore`. |
| MemorySearch.InsertPermutes | src/memory/text-manager.ts:194 | An insertion step of the sort adds exactly the inserted result. |
| MemorySearch.InsertSorted | src/memory/text-manager.ts:194 | Inserting into a descending list keeps it descending. |
| MemorySearch.SortDescFacts | src/memory/text-manager.ts:194 | The sort yields a descending permutation of its input. |
| MemorySearch.SortedPrefixTop | src/memory/text-manager.ts:194-195 | A prefix of a descending list is part of it, and everything left out scores no higher than anything kept. |
| MemorySearch.RankSelects | src/memory/text-manager.ts:193-195 | The ranking has the size `slice(0, maxResults)` gives on the survivors of the filter. It takes nothing that did not survive, and every survivor left out scores no higher than every result. |
| MemorySearch.SurvivorsMembers | src/memory/text-manager.ts:180-193 | The survivors of the filter are exactly the scored documents whose normalised score reaches `minScore`, each with that score. |
| MemorySearch.RankFacts | src/memory/text-manager.ts:176-195 | The ranking is descending by score. For a non-negative `maxResults` it holds exactly `min(maxResults, survivors)` results. It is a sub-multiset of the survivors of the filter, and every survivor left out scores no higher than every result. Every result scores in `[0, 1]` and at least `minScore`, and is a scored document. |
| MemorySearch.RankNonEmpty | src/memory/text-manager.ts:176-195 | With some scored document, `minScore <= 0` and `maxResults >= 1`, the ranking is not empty. |
| MemorySearch.RankQueryFacts | src/memory/text-manager.ts:139-197 | The ranking of a query's scores has the same properties, and every result is a document that some query token has a posting for. |
| MemorySearch.SearchOf | src/memory/text-manager.ts:126-197 | The definition of `search`: the early returns, then the ranking of the query's scores. Its properties are stated by `SearchOfFacts`, `SearchOfRanks` and `SearchSurvivorsMembers`, and `SearchIndex` is proved to compute it. |
| MemorySearch.SearchOfRanks | src/memory/text-manager.ts:126-197 | Whether or not `search` returns early, its result is the descending sort of its filter stage, sliced by `maxResults`. |
| MemorySearch.SearchSurvivorsMembers | src/memory/text-manager.ts:139-193 | The filter stage holds exactly the documents that some token of the trimmed query has a posting for and whose normalised score reaches `minScore`, each with that score. |
| MemorySearch.SearchSurvivorMatched | src/memory/text-manager.ts:139-193 | Every member of the filter stage scores at least `minScore` and is a matched document carrying its normalised score. |
| MemorySearch.MatchedSearchSurvivor | src/memory/text-manager.ts:139-193 | Every matched document whose normalised score reaches `minScore` is in the filter stage. |
| MemorySearch.SearchOfFacts | src/memory/text-manager.ts:126-197 | A search result list is descending, clamped into `[0, 1]`, filtered by `minScore` and made of documents matched by a token of the trimmed query. For a non-negative `maxResults` it holds exactly `min(maxResults, survivors)` results. It is a sub-multiset of the filter stage, and every survivor left out scores no higher than every result. |
| MemorySearch.SearchIndex | src/memory/text-manager.ts:126-197 | The search returns nothing for a blank query, an empty index, a query without tokens, or one whose tokens match no document. Otherwise the result is ordered, clamped and filtered, and made of matched documents. It is the top `maxResults` of the filter stage: exactly `min(maxResults, survivors)` results for a non-negative `maxResults`, a sub-multiset of the survivors, with every survivor left out scoring no higher than every result. It is non-empty when a document matches, `minScore <= 0` and `maxResults >= 1`. |
| MemoryRead.CheckExtraPaths | src/memory/text-manager.ts:217-240 | The loop admits the target exactly when some normalised extra path admits it: a directory that is not a symbolic link and is the target or one of its ancestors, or a regular `.md` file that is the target itself. |
| MemoryRead.SelectLines | src/memory/text-manager.ts:252-259 | The definition of the line window. Its properties are stated by `SelectLinesWindow`, `SelectLinesPastEnd` and `SelectLinesWhole`. |
| MemoryRead.SelectLinesWindow | src/memory/text-manager.ts:252-259 | When a window is asked for and starts inside the file, the lines of the result are exactly the file's lines from `max(1, from)` for `max(1, lines)` lines, or to the end. |
| MemoryRead.SelectLinesPastEnd | src/memory/text-manager.ts:255-259 | A window starting past the last line gives the empty text. |
| MemoryRead.SelectLinesWhole | src/memory/text-manager.ts:252-259 | A window from the first line that covers every line gives the whole content back, as does asking for no window. |
| MemoryRead.ReadFileOf | src/memory/text-manager.ts:200-260 | The definition of the read decision, check by check. `ReadFile` is proved to compute it and states its meaning. |
| MemoryRead.ReadFile | src/memory/text-manager.ts:200-260 | A blank path is refused. A read succeeds exactly when four things hold: the trimmed path resolves to an absolute path that the workspace rule or an extra path admits; that path ends in `.md`; it names an existing regular file; and that file is not a symbolic link. The result is then the selected lines with the workspace-relative path. Every failure is "path required", except a missing target, which is the lstat error. |
| MemoryManager.TextMemoryManager.constructor | src/memory/text-manager.ts:103-116 | A new manager is empty, dirty, not closed and has no sync in flight. It has an interval timer exactly when the interval is positive. Its snapshot is consistent. |
| MemoryManager.TextMemoryManager.RunSync | src/memory/text-manager.ts:350-433 | A run installs the documents of the enabled sources' chunks with terms, with a consistent snapshot, and clears the dirty flag. The sync, timer and closed state are untouched. |
| MemoryManager.TextMemoryManager.Install | src/memory/text-manager.ts:428-432 | The four snapshot fields are replaced together by the new index and the dirty flag is cleared; nothing else changes. |
| MemoryManager.Rebuild | src/memory/text-manager.ts:355-426 | The collection and the build give a consistent index of the documents of the enabled sources, and every document comes from a configured source. |
| MemoryManager.TextMemoryManager.Sync | src/memory/text-manager.ts:262-274 | While a run is in flight, `sync` returns its handle and starts nothing. Otherwise it starts one new run. The index is not touched. |
| MemoryManager.TextMemoryManager.FinishSync | src/memory/text-manager.ts:270-272 | Completing the run installs the new snapshot, clears the dirty flag and clears the pending handle. |
| MemoryManager.TextMemoryManager.Search | src/memory/text-manager.ts:118-198 | With on-search sync enabled and a dirty index, a full sync completes first and the search sees the rebuilt snapshot; otherwise nothing changes. The results are the search of the snapshot, with the options overriding the configured `minScore` and `maxResults`. |
| MemoryManager.TextMemoryManager.ReadFile | src/memory/text-manager.ts:200-260 | A read is the read decision with this manager's workspace and extra paths. |
| MemoryManager.TextMemoryManager.Status | src/memory/text-manager.ts:276-315 | The report counts the distinct paths and the documents. It has one entry per configured source, in first-occurrence order. The per-source chunk counts add up to the number of documents, and no source has more files than chunks. It echoes the dirty flag, workspace, extra paths and sources. |
| MemoryManager.TextMemoryManager.Close | src/memory/text-manager.ts:325-335 | The first call marks the manager closed, stops its timer and removes its key from the cache. Later calls change nothing. The index is untouched. |
| MemoryManager.SourceCountsFacts | src/memory/text-manager.ts:285-297 | When every document's source is configured, the per-source chunk counts add up to the number of documents, and each source has no more distinct files than chunks. |
| MemoryManager.DedupFacts | src/memory/text-manager.ts:277-284 | The map keys list each configured source once, and only configured sources. |
| MemoryManager.InitCounts | src/memory/text-manager.ts:277-284 | Every configured source starts with zero chunks and no paths. |
| MemoryManager.AddDocCounts | src/memory/text-manager.ts:285-288 | After the document loop each source's chunk count is its number of documents, and its path set is the set of its documents' paths. |
| MemoryManager.CollectSourceCounts | src/memory/text-manager.ts:289-297 | The per-source entries are read off the two maps in key order. |
| MemoryManager.IndexCache.Get | src/memory/text-manager.ts:81-101 | Without settings there is no manager. An existing key returns the cached instance unchanged. A new key stores and returns a fresh, empty, dirty manager under it. Every cached manager sits under its own key and is not closed. |
| MemoryManager.GetTwice | src/memory/text-manager.ts:87-91 | Two `get` calls with the same arguments return the same instance. |
| MemoryManager.CloseThenGet | src/memory/text-manager.ts:87-101 | After `close`, `get` with the same arguments builds a new, empty and dirty instance. |
| FeishuPolicy.FallbackAllowlistMatch | extensions/feishu/src/policy.ts:25-34 | The definition of the fallback matcher. Its meaning is stated by `FallbackAllowlistMatchFacts` and `FallbackAllowlistMonotone`. |
| FeishuPolicy.FallbackAllowlistMatchFacts | extensions/feishu/src/policy.ts:25-34 | A sender passes the fallback exactly when some entry, trimmed and lower-cased, is non-empty and equals the sender's normalised id or normalised name. The mode is always `id`. `matchedBy` is set exactly when the sender passes: to the id when the id is listed, and otherwise to the name. |
| FeishuPolicy.FallbackAllowlistMonotone | extensions/feishu/src/policy.ts:25-34 | Adding allowlist entries never refuses a sender that passed. |
| FeishuPolicy.MatchNormalizedFacts | extensions/feishu/src/policy.ts:26-29 | The decision over the filtered, normalised list is: some entry names the sender. |
| FeishuPolicy.NonEmptyImagesMembers | extensions/feishu/src/policy.ts:26 | The normalised list holds exactly the non-empty images of the entries. |
| FeishuPolicy.ResolveAllowlistMatch | extensions/feishu/src/policy.ts:12-35 | The plugin SDK's matcher decides when it exists; otherwise the fallback decides. |
| FeishuPolicy.FindExact | extensions/feishu/src/policy.ts:47 | The first entry whose key is exactly the id, or none when no key is. |
| FeishuPolicy.FindFolded | extensions/feishu/src/policy.ts:52-53 | The first entry whose lower-cased key is the lower-cased id, or none when no key is. |
| FeishuPolicy.ResolveGroupConfig | extensions/feishu/src/policy.ts:37-55 | The definition of the group lookup. Its meaning is stated by `ResolveGroupConfigExact`, `ResolveGroupConfigFolded` and `ResolveGroupConfigMissing`. |
| FeishuPolicy.ResolveGroupConfigExact | extensions/feishu/src/policy.ts:37-50 | An exact key match for the trimmed id wins, and the first such key is used. |
| FeishuPolicy.ResolveGroupConfigFolded | extensions/feishu/src/policy.ts:37-55 | Without an exact key, the first key equal to the trimmed id up to case is used. |
| FeishuPolicy.ResolveGroupConfigMissing | extensions/feishu/src/policy.ts:37-55 | No group is found exactly when the id is absent or blank, or no key equals it up to case. |
| FeishuPolicy.LookupGroupExact | extensions/feishu/src/policy.ts:47-50 | The lookup of a clean id returns the first exact key's entry. |
| FeishuPolicy.LookupGroupFolded | extensions/feishu/src/policy.ts:52-54 | The lookup falls back to the first key equal to the id up to case. |
| FeishuPolicy.LookupGroupMissing | extensions/feishu/src/policy.ts:47-54 | The lookup finds nothing exactly when no key equals the id up to case. |
| FeishuPolicy.ResolveGroupToolPolicy | extensions/feishu/src/policy.ts:57-71 | There is no tool policy without a Feishu configuration or without a matching group. Otherwise it is the group's `tools`. |
| FeishuPolicy.IsGroupAllowed | extensions/feishu/src/policy.ts:73-87 | The definition of the group allow decision. Its meaning is stated by `IsGroupAllowedFacts`. |
| FeishuPolicy.IsGroupAllowedFacts | extensions/feishu/src/policy.ts:73-87 | `disabled` refuses and `open` admits every sender, whatever the allowlist holds. `allowlist` defers to the allowlist match, and with the fallback matcher more entries never refuse an admitted sender. |
| FeishuPolicy.ResolveReplyPolicy | extensions/feishu/src/policy.ts:89-102 | A direct message never requires a mention. Otherwise the group's setting decides, else the global one, and a mention is required when neither is set. |

## Left out

- Word characters and lower-casing are ASCII: `[\p{L}\p{N}_-]` with the `u` flag and Unicode `toLowerCase` are letters, digits, `_` and `-` of ASCII, and `A`-`Z` to `a`-`z`. Unicode character classes and case mapping are outside what the model can state.
- Numbers are Dafny reals (BM25 scores, clamping) or integers (lines, counts). IEEE rounding, `NaN` and infinities are not modelled.
- `Math.log` is the parameter `ln`, so no property depends on the value of a BM25 score.
- `clamp` (utils.ts:37) is an alias of `clampNumber` and has no member of its own.
- `safeParseJson`, `isPlainObject`, `isRecord` and `assertWebChannel` (utils.ts:46-84) are not part of the named core. Neither are the other `src/utils.ts` functions (file system, sleep, home directories).
- Utils.NormalizeE164: the literal examples of the repository's tests (for instance `"whatsapp:(555) 123-4567"`) are not restated. What is proved is the general shape: a leading `+`, digits and `+` only, the input's digits in order, and idempotence.
- Tokenizer.SnippetForText: the 700-character bound and the 699-character cut count Unicode code points (Dafny characters), not UTF-16 code units as JavaScript's `length` and `slice` do. A cut that leaves a lone high surrogate before `…` is not modelled.
- File I/O is replaced by inputs:
  - `listMemoryFiles`, `fs.readFile`, `listSessionFilesForAgent` and `buildSessionEntry` become sequences of already-read files and entries, with `None` for a file that could not be read or an entry that was not built;
  - in `readFile`, `lstat` is a map from absolute path to file kind, and the file's content is part of that entry. A `fs.readFile` failure after a successful `lstat` (`text-manager.ts:251`) is not modelled, so MemoryRead.ReadFile always succeeds once the checks pass.
- `chunkMarkdown` and `remapChunkLines` are not part of this model: records arrive with their chunks.
- Node's `path` functions, `isMemoryPath` and `normalizeExtraMemoryPaths` are fields of `MemoryRead.PathEnv`. `resolveMemorySearchConfig`, `resolveAgentWorkspaceDir` and `JSON.stringify` are parameters of `IndexCache.Get`.
- Promises and interleaving are modelled by two steps: `Sync` starts or joins a run, and `FinishSync` completes it. What a search sees while another sync runs concurrently is not modelled.
- The interval timer's callback, its logging, and the progress callback of `runSync` are left out. The timer is a flag.
- MemoryManager.TextMemoryManager.RunSync: a run that throws part-way (the `finally` path of `sync`) is not modelled; every modelled run completes.
- `probeEmbeddingAvailability` and `probeVectorAvailability` return constants and carry no logic; they are left out.
- MemorySearch.SortDescFacts: the order of results with equal scores is not stated. The source's comparator leaves ties to the engine's stable sort; the model uses a stable insertion sort and proves only ordering and permutation.
- `Object.keys` order of a Feishu `groups` object is the order of the entry sequence. Integer-like keys, which JavaScript orders first, and prototype keys are not modelled.
- The plugin SDK's `resolveAllowlistMatchSimple` is foreign code; it is the parameter `sdkMatcher`.
- `String(x)` for a numeric `allowFrom` entry is modelled for whole numbers only.
