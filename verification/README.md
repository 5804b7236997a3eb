# Conversation memory: model and proofs

A Dafny model of the JSONL conversation store (`crates/tinymemory-conversations`) and of four small
cores that stand beside it, with proofs over every input, every run and every reachable state.
`dafny verify dfyconfig.toml` checks the whole project.

## What is modelled

- **Search index** (`Text`, `Tokenize`, `DocIds`, `IndexTables`, `Ranking`, `SearchSpec`, `SearchMeaning`,
  `InvertedIndex`).
  Text is normalised character by character and cut into bigrams (CJK) or trigrams (the rest) within
  runs of one script class. `InvertedIndex` is a class over the posting lists, the document slots and
  the reverse map; its `Search` is proved to answer what a linear substring scan answers, and
  `SearchMeaning` says what that is in terms of the words of the query and the messages alone.
- **Thread log** (`ThreadLog`, `Transcript`). `threads.jsonl` is a sequence of entries folded into
  per-thread state; a transcript is a sequence of rows.
- **The store as a concurrent protocol** (`StoreState`, `StoreProtocol`, `StoreViews`, `StoreSafety`,
  `StoreTheorems`, `TruncationSafety`, `CutDuringBuild`, `WarmTruncation`, `KeptRows`, `StaleBuild`,
  `StoreSearch`, `IndexReplay`).
  Any number of processes, one step per lock section, every interleaving. The invariant is stated per
  thread, on a `View` of everything that concerns it: folded entry, rows, lock phase, indexed rows,
  journal and build in progress. The index theorems ask nothing of the stat trails and ids found at
  the start; the theorems about these ask that the one thread's trail or ids are right there.
  Two history variables carry what truncation does: `skipped` counts the leading rows a warm index
  leaves out, `stale` names threads from which a truncation cut rows that a running build held.
  `IndexReplay` ties the protocol's index, a map, to the calls made on a real `InvertedIndex`.
- **The store as its callers see it** (`SoloStore`, `SoloRuns`, `StoreContracts`, `ThreadListing`,
  `ConversationStore`). A class with the store's fields and operations, each proved against a function
  on the whole state, and against what `StoreContracts` promises of the stores before and after;
  `SoloRuns` shows that these functions are what the protocol's sections do when nothing interrupts
  them. `ListThreadsCoordinated` takes what other callers do before each of its lock sections, for
  ever, as an argument.
- **Locks** (`LockRegistry`, `StoreLocks`, `LocksReplay`, `LockOrder`). The weakly held per-thread
  mutexes as a state machine (the registry of lock sets per root, `store_locks.rs:76-90`, is the same
  machine without removals), the class of the registry and the append journal, the calls that runs
  make on it, and the lock order with deadlock freedom.
- **One client per workspace** (`GlobalClient`), **bounded backfill** (`Backfill`, `BackfillOutcomes`,
  `BackfillStall`, `BackfillTargets`), **goals document** (`TextLines`, `Goals`), **token budgets**
  (`Chunks`), **transcript file names** (`ThreadFiles`).

Parameters stand for what the code calls but does not define: Unicode lowercasing
(`lower: char -> string`, with the facts it must satisfy in `Tokenize.Lowercasing`), RFC 3339 parsing
(`millis: string -> int`, the least value for bad input), the answers of the engine during a backfill
(`Env`), and the outcome of building a client. A score is the pair of matched and total term
positions. Document ids wrap at 2^32, backfill counters saturate at 2^64 - 1, and token estimates
saturate at 2^32 - 1, as in the code.

## Where code and comments differ

The model follows the code.

- The comment on truncation (`store_ops.rs:294-299`) says the next search re-primes the thread. Priming
  returns early on a warm index (`store_index.rs:41-43`), so kept rows stay unindexed until their ids
  are appended again or the store is purged: `WarmTruncation.WarmTruncationForgetsKept`. The next
  search has all kept rows exactly if the index was cold when the truncation evicted the thread, or
  none is kept: `KeptRows.KeptRowsIndexedIff`. Cold at the call is not enough while a build is under
  way: `StaleBuild.LateEvictionLosesKeptRow` gives a run. What a caller can check is that the index is
  cold and no build has scanned the thread yet: `KeptRows.GuardKeepsRows`. With nothing else in flight
  this is just a cold index: `WarmTruncation.TruncateKeepsIndexIff`.
- A truncation during a cold build can be undone by the stale scan or journal:
  `StaleBuild.StaleBuildKeepsRemovedRow` gives a run. It happens exactly if, at some cut, the build has
  scanned the thread or journaled a row whose id is not kept: `CutDuringBuild.CutDuringBuildIff`.
- Reads reconcile the stat trail only while the folded count or last time is missing
  (`store_index.rs:200-203`); the comment at `store_ops.rs:120-123` is wider. A row whose stat entry
  was lost is reconciled exactly if the trail is missing: `ThreadListing.LostStatEntryStays`; for any
  store, `ThreadListing.RepairMeasuresIff`.
- "Distinct" terms are term positions (`inverted_index.rs:273-286`). The two agree exactly if no matching
  term is repeated in the query: `SearchSpec.CountsDistinctIff`.
- A backfill resumes only past documents that get filed (`backfill.rs:22-33`). Documents that can never
  be read or ingested are charged in every pass: a document is filed in the end exactly if fewer than
  `limit` of them are listed before it (`BackfillStall.FiledInTheEndIff`), and a pass that files nothing is
  followed by no better one (`BackfillStall.StallIsPermanent`). A dry run counts every
  listing of an identity that the real pass files at the first: `BackfillStall.PreviewExactIff`.
- Two accounts can share a namespace, exactly if one toolkit extends the other by a colon:
  `BackfillTargets.AccountsCollideIff`.

## Model

| member | source | states |
|---|---|---|
| `Tokenize.Normalize` | crates/tinymemory-conversations/src/tokenize.rs:57-94 | the loop over lowercased characters computes the per-character pipeline: drop combining marks, then the four fold tables in order |
| `Tokenize.FoldsMean` | crates/tinymemory-conversations/src/tokenize.rs:96-206 | the Latin-1 letters with accents and ligatures become plain letters, accent marks vanish, full-width forms become ASCII, half-width katakana full-width katakana |
| `Tokenize.FoldOutputSettled` | crates/tinymemory-conversations/src/tokenize.rs:96-206 | every character any fold table emits is left alone by lowercasing and by all tables, for every lowercasing whose own output is settled |
| `Tokenize.NormalizeIdempotent` | crates/tinymemory-conversations/src/tokenize.rs:53-57 | normalising twice is normalising once, on every string |
| `Tokenize.NormalizeConcat` | crates/tinymemory-conversations/src/tokenize.rs:57-94 | normalisation distributes over concatenation |
| `Tokenize.NormalizeKeepsSubstrings` | crates/tinymemory-conversations/src/tokenize.rs:57-94 | a raw substring stays a substring after normalisation |
| `Tokenize.Ngrams` | crates/tinymemory-conversations/src/tokenize.rs:245-283 | the run-by-run walk emits exactly the width-2 windows inside CJK runs and width-3 windows inside other runs, in order |
| `Tokenize.NgramExact` | crates/tinymemory-conversations/src/tokenize.rs:245-283 | the n-grams of a text are exactly its substrings of two CJK characters or three other ones |
| `Tokenize.SubstringNgrams` | crates/tinymemory-conversations/src/tokenize.rs:245-283 | if a term occurs in a text at any position, every n-gram of the term is an n-gram of the text, whatever the script runs on either side |
| `DocIds.IntersectSortedWithBtreeset` | crates/tinymemory-conversations/src/inverted_index.rs:415-441 | the two-cursor in-place rewrite leaves exactly the common elements, ascending, in the array prefix it returns |
| `DocIds.CommonMember` | crates/tinymemory-conversations/src/inverted_index.rs:415-418 | membership in the intersection: in both inputs |
| `IndexTables.InsertConsistentIff` | crates/tinymemory-conversations/src/inverted_index.rs:139-168 | inserting a new key keeps postings and reverse map exact if and only if the doc id does not wrap at 2^32 |
| `IndexTables.InsertNew` | crates/tinymemory-conversations/src/inverted_index.rs:139-168 | while ids do not wrap, an insert adds exactly its own entry under (thread, id) |
| `IndexTables.RemoveConsistent` | crates/tinymemory-conversations/src/inverted_index.rs:198-216 | removing a live document keeps postings exact, without empty lists, and the reverse map a bijection |
| `InvertedIndexModule.InvertedIndex.Insert` | crates/tinymemory-conversations/src/inverted_index.rs:129-169 | contents become the first-insert-wins map; a repeated (thread, id) changes nothing |
| `InvertedIndexModule.InvertedIndex.RemoveDoc` | crates/tinymemory-conversations/src/inverted_index.rs:198-217 | tombstones one document and takes it out of every posting list; a dead id is a no-op |
| `InvertedIndexModule.InvertedIndex.RemoveThread` | crates/tinymemory-conversations/src/inverted_index.rs:173-185 | contents lose exactly the thread's messages, and the tables stay exact |
| `InvertedIndexModule.InvertedIndex.CandidatesForTerm` | crates/tinymemory-conversations/src/inverted_index.rs:342-363 | none exactly when the term has no n-gram; otherwise, ascending, exactly the live documents holding all its n-grams |
| `InvertedIndexModule.InvertedIndex.RecencyFallback` | crates/tinymemory-conversations/src/inverted_index.rs:384-412 | the newest `limit` visible messages, score 0 |
| `InvertedIndexModule.InvertedIndex.CollectCandidates` | crates/tinymemory-conversations/src/inverted_index.rs:250-271 | falls back exactly when some term has more than 10,000 candidates; else each list covers every document containing its term |
| `InvertedIndexModule.InvertedIndex.Search` | crates/tinymemory-conversations/src/inverted_index.rs:222-325 | the hits are a top-`limit` selection of the linear scan, or of recency when a word is too broad; in the reader's terms: only messages outside the excluded thread, each with how many of the query's words of three bytes or more it contains, more words first, then newer first, none twice, none better left out |
| `SearchSpec.CandidatesCoverMatches` | crates/tinymemory-conversations/src/inverted_index.rs:240-271 | Phase 1 loses no match: a document containing a term holds all the term's n-grams |
| `SearchSpec.MatchCountPositive` | crates/tinymemory-conversations/src/inverted_index.rs:273-286 | a document scores at all exactly if it contains some term; repeated words count each time, up to the number of terms |
| `SearchSpec.CountsDistinctIff` | crates/tinymemory-conversations/src/inverted_index.rs:273-286 | the score counts different terms exactly if no term that occurs in the document is repeated in the query; otherwise it counts more |
| `SearchMeaning.TermsAreWords` | crates/tinymemory-conversations/src/inverted_index.rs:233-286 | the terms are the words of the normalised query of at least three bytes, found without splitting, and a document's score counts the occurrences of words in the query that it contains |
| `SearchMeaning.RawWordMatches` | crates/tinymemory-conversations/src/inverted_index.rs:230-286 | a word anywhere in a query that is a raw substring of a visible message makes the message qualify as a hit, through case, diacritics, width and script runs |
| `SearchMeaning.AnswerIsBest` | crates/tinymemory-conversations/src/inverted_index.rs:222-325 | every answer is the best `limit` messages, said of the words of the query and the messages alone: none of the excluded thread, most words first, then newest first, and nothing better or for which there was room left out |
| `Text.SplitListsWords` | crates/tinymemory-conversations/src/inverted_index.rs:233-238 | splitting lists, in order, exactly the slices that are not empty, free of white space and bounded by white space or the ends |
| `ThreadFiles.Utf8LenIsLength` | crates/tinymemory-conversations/src/inverted_index.rs:236-237 | the length a word is judged by is the number of bytes of its UTF-8 encoding |
| `Ranking.SortAndTruncate` | crates/tinymemory-conversations/src/inverted_index.rs:308-309 | sorting by both keys and truncating is a top selection: no omitted entry outranks a returned one |
| `Ranking.TopSelectionsAgree` | crates/tinymemory-conversations/src/inverted_index.rs:308-309 | any two top selections have the same ranks at every position, so ties are the only freedom |
| `ThreadLog.ThreadIndexOf` | crates/tinymemory-conversations/src/store_index.rs:335-430 | the in-place fold loop computes the fold of the log |
| `ThreadLog.NormalizeLabels` | crates/tinymemory-conversations/src/store.rs:220-236 | the label loop computes the canonical labels, first occurrences in order |
| `ThreadLog.NormalizedLabelsExact` | crates/tinymemory-conversations/src/store.rs:220-236 | the result has no repeats and every label in it is canonical |
| `ThreadLog.NormalizedLabelsMembers` | crates/tinymemory-conversations/src/store.rs:220-236 | a label is kept exactly if it is the canonical form of a given one |
| `ThreadLog.GeneralLabel` | crates/tinymemory-conversations/src/store.rs:222-229 | "general" is kept exactly if it or one of its four old spellings is given |
| `ThreadLog.TasksLabel` | crates/tinymemory-conversations/src/store.rs:222-229 | "tasks" is kept exactly if it or one of its two old spellings is given |
| `ThreadLog.OtherLabel` | crates/tinymemory-conversations/src/store.rs:222-230 | no old spelling survives, and any other label is kept exactly if it is given |
| `ThreadLog.LaterLabelsComeLater` | crates/tinymemory-conversations/src/store.rs:220-236 | labels come in the order of their first occurrence |
| `ThreadLog.NormalizeLabelsIdempotent` | crates/tinymemory-conversations/src/store.rs:220-236 | canonicalising labels twice is canonicalising once |
| `ThreadLog.FoldIsPerThread` | crates/tinymemory-conversations/src/store_index.rs:335-430 | the folded entry of a thread depends on that thread's log entries alone |
| `ThreadLog.InterleavingsAgree` | crates/tinymemory-conversations/src/store_index.rs:335-430 | two logs with the same entries per thread, interleaved in any way, fold to the same map |
| `ThreadLog.DeadStaysDead` | crates/tinymemory-conversations/src/store_index.rs:394-426 | without an upsert nothing brings a dead thread back |
| `ThreadLog.CreatedAtFixed` | crates/tinymemory-conversations/src/store_index.rs:354-372 | creation time never changes until the next delete |
| `ThreadLog.FirstUpsertWins` | crates/tinymemory-conversations/src/store_index.rs:354-388 | the first upsert after a delete fixes the creation time |
| `ThreadLog.FoldedLabelsFixed` | crates/tinymemory-conversations/src/store_index.rs:359-375 | folded labels are always fixed points of label canonicalisation |
| `ThreadLog.TitleUpdateOnlyTitle` | crates/tinymemory-conversations/src/store_ops.rs:192-221 | a title update changes the title of that thread and nothing else in the fold |
| `ThreadLog.LabelsUpdateOnlyLabels` | crates/tinymemory-conversations/src/store_ops.rs:224-254 | a labels update changes only the labels, to their canonical form |
| `ThreadFiles.HexEncode` | crates/tinymemory-conversations/src/store.rs:246-254 | the nibble loop computes the file-name encoding |
| `ThreadFiles.FilesDiffer` | crates/tinymemory-conversations/src/store_index.rs:128-135 | two threads never share a transcript file, through UTF-8 and hex |
| `ThreadFiles.HexRoundTrip` | crates/tinymemory-conversations/src/store.rs:246-254 | the bytes can be read back from the file name |
| `ThreadFiles.HexIsSafe` | crates/tinymemory-conversations/src/store.rs:238-254 | file names consist of lower-case hex digits |
| `Transcript.FirstOfMeaning` | crates/tinymemory-conversations/src/inverted_index.rs:139-142 | the index of a transcript has exactly its ids, each with its first row |
| `Transcript.CoveredAddsNothing` | crates/tinymemory-conversations/src/store_index.rs:68-86 | indexing rows and then journaled rows whose ids they have is indexing them once: journal and scan may overlap |
| `Transcript.AppendKeepsUnique` | crates/tinymemory-conversations/src/store_ops.rs:154-160 | an append that passes the deterministic-id check keeps `agent:` ids unique |
| `StoreState.DrainIsPerThread` | crates/tinymemory-conversations/src/store_index.rs:81-87 | draining the journal at publication adds to each thread exactly its own journaled rows, in order |
| `StoreProtocol.InitInv` | crates/tinymemory-conversations/src/store_index.rs:36-48 | a freshly started process over a root where dead threads have no transcript satisfies the invariant, whatever its trails and ids |
| `StoreSafety.LockMoveKeepsLocks` | crates/tinymemory-conversations/src/store.rs:79-87 | a step that takes only free locks keeps holders, builder and writer consistent |
| `StoreSafety.SectionOwn` | crates/tinymemory-conversations/src/store_ops.rs:20-46 | ensure, retitle, relabel, patch and repair keep a thread's rows, trail, index and build in agreement |
| `StoreViews.RowFinalised` | crates/tinymemory-conversations/src/store_ops.rs:166-187 | one metadata section takes a durable row into journal, warm index and stat trail together |
| `StoreViews.CutHurtsIff` | crates/tinymemory-conversations/src/store_ops.rs:310-316 | a cut while a build is under way: publishing would still give the index of the kept rows exactly if the thread is still to be scanned and every journaled id is kept, and otherwise a removed id would be published |
| `StoreViews.RowsCut` | crates/tinymemory-conversations/src/store_ops.rs:310-316 | cutting rows under the thread lock keeps rows, trail, index and build in agreement; only a cut that hurts the build makes the thread stale |
| `StoreViews.ThreadScanned` | crates/tinymemory-conversations/src/store_index.rs:64-78 | scanning a transcript under its lock, with part of it journaled already, leaves scan plus journal equal to the finalised rows |
| `StoreViews.Published` | crates/tinymemory-conversations/src/store_index.rs:81-89 | publishing scan plus journal gives the first-row-per-id index of all finalised rows |
| `StoreTheorems.StepKeepsInv` | crates/tinymemory-conversations/src/store_index.rs:36-90 | every lock section of every operation keeps the store invariant, from any state that has it |
| `StoreTheorems.WarmIndexExact` | crates/tinymemory-conversations/src/store_index.rs:36-90 | in every run: a warm index holds exactly the finalised rows after the skipped ones, first row per id |
| `StoreTheorems.ColdBuildCorrect` | crates/tinymemory-conversations/src/store_index.rs:36-90 | in every run without truncation, with no writer active, a warm index is the index of all finalised rows of every thread |
| `StoreTheorems.ColdBuildRows` | crates/tinymemory-conversations/src/store_index.rs:36-90 | the same row by row: an id is indexed exactly if a finalised row has it, under the first such row, of live threads only |
| `StoreTheorems.NothingFinalisedIsMissed` | crates/tinymemory-conversations/src/store_index.rs:81-87 | completeness, in every run and for stale threads too: a warm index has the id of every finalised row after the skipped ones |
| `StoreTheorems.CompleteIff` | crates/tinymemory-conversations/src/store_ops.rs:294-299 | the index of a thread is complete exactly if every skipped row's id occurs again later |
| `StoreTheorems.IndexedIsDurable` | crates/tinymemory-conversations/src/store_ops.rs:338-345 | outside stale threads every indexed message is a row of its thread's transcript |
| `WarmTruncation.EvictionKeepsIndexIff` | crates/tinymemory-conversations/src/store_ops.rs:338-345 | the eviction that ends a truncation on a warm index leaves the kept rows indexed exactly if there are none |
| `WarmTruncation.TruncateKeepsIndexIff` | crates/tinymemory-conversations/src/store_ops.rs:294-345 | with nothing else in flight: the next search has every kept row indexed if and only if the index is cold at the call or no row is kept; the comment promises it always |
| `KeptRows.KeptRowsIndexedIff` | crates/tinymemory-conversations/src/store_ops.rs:294-345 | exact over runs: after a truncation, at any later warm state before the thread is cut again, and with no kept id appended again, all kept rows are indexed if and only if the index was cold at the eviction or none is kept |
| `KeptRows.GuardKeepsRows` | crates/tinymemory-conversations/src/store_ops.rs:294-345 | what a caller can check at the call, over runs: cold with no build past the thread, all kept rows are indexed next; warm, they are only if there are none |
| `StaleBuild.LateEvictionLosesKeptRow` | crates/tinymemory-conversations/src/store_index.rs:81-89 | a concrete run: the index is cold at the call, a row is kept, and the next search misses it, because a build that had scanned the thread published before the eviction |
| `WarmTruncation.WarmTruncationForgetsKept` | crates/tinymemory-conversations/src/store_index.rs:41-43 | in every run, from such an eviction until a purge: the index stays warm, no search builds it, and of the thread it holds only ids appended since |
| `StoreTheorems.PublishSkipsNothing` | crates/tinymemory-conversations/src/store_index.rs:81-89 | publishing a build indexes every finalised row of a thread that is not stale, earlier truncations included |
| `StoreTheorems.StatTrailRefinesScan` | crates/tinymemory-conversations/src/store_index.rs:274-291 | in every run on a root whose trail for the thread is right at the start, while its lock is free its folded count and last time are missing or what reading the transcript gives |
| `StoreTheorems.TrailStaysRight` | crates/tinymemory-conversations/src/store_index.rs:274-291 | a trail that is right at the start is right in every state of the run, lock sections half-way included |
| `StoreTheorems.DeterministicIdsUnique` | crates/tinymemory-conversations/src/store_ops.rs:125-139 | in every run on a root where no `agent:` id of the transcript is repeated, none ever is |
| `StoreTheorems.RepeatedAppendChangesNothing` | crates/tinymemory-conversations/src/store_ops.rs:154-160 | in every run, while a process appends a stored `agent:` id again, no step of it changes any transcript, the log, the journal or the index, whatever the others do |
| `StoreTheorems.PrimedIndexPresent` | crates/tinymemory-conversations/src/store_index.rs:97-107 | a search that has primed always finds the index |
| `TruncationSafety.SparedNeverStale` | crates/tinymemory-conversations/src/store_ops.rs:300-345 | only a truncation that cuts rows a running build holds leaves the thread stale |
| `TruncationSafety.NoRemovedRowIsHit` | crates/tinymemory-conversations/src/store_ops.rs:300-345 | in runs whose truncations of a thread spare the builds, what the index holds for it while unlocked are rows of its transcript, and all rows after the last warm truncation are there |
| `CutDuringBuild.CutMeetsBuild` | crates/tinymemory-conversations/src/store_index.rs:55-89 | at the cut, for any reachable state: publishing would still give the index of the kept rows if and only if the cut spares the build, read off scan, journal and cut before the call |
| `CutDuringBuild.CutDuringBuildIff` | crates/tinymemory-conversations/src/store_index.rs:55-89 | exact over runs: a thread is cut, appended to and cut again while a build runs; the published index holds only its rows, and all of them, if and only if every cut spared the build; asked only that no removed id the build holds is appended again in time |
| `CutDuringBuild.RemovedRowIsPublished` | crates/tinymemory-conversations/src/store_index.rs:81-89 | a removed row that the build holds is in the published index, whatever else runs until then, unless its id is appended again |
| `TruncationSafety.BuildsAreSerialized` | crates/tinymemory-conversations/src/store_locks.rs:42-45 | two processes never build at once, and the journal is closed when a build begins |
| `StaleBuild.StaleBuildKeepsRemovedRow` | crates/tinymemory-conversations/src/store_index.rs:64-89 | a concrete run, for any thread and message: truncation during a cold build, and the published index still holds the removed row |
| `StoreSearch.AddRowIsInsert` | crates/tinymemory-conversations/src/store_ops.rs:172-174 | adding a row in the protocol is `InvertedIndex.Insert` on the contents |
| `StoreSearch.EvictIsRemoveThread` | crates/tinymemory-conversations/src/store_ops.rs:338-343 | evicting a thread in the protocol is `InvertedIndex.RemoveThread` on the contents |
| `StoreSearch.SearchReadsLinearScan` | crates/tinymemory-conversations/src/store_ops.rs:102-118 | in every run without truncation a primed search reads what scanning every transcript would give |
| `StoreSearch.SearchReadsUnskipped` | crates/tinymemory-conversations/src/store_ops.rs:102-118 | in runs whose truncations spare the builds, with no truncation half-way, a primed search reads what scanning every transcript would give, but for the skipped rows |
| `StoreSearch.HitsAreRows` | crates/tinymemory-conversations/src/store_ops.rs:338-345 | a hit shows a row of its thread's transcript if the truncations of that one thread spare the builds and none of it is half-way: no removed row is hit, whatever happens to other threads |
| `IndexReplay.RunMirrors` | crates/tinymemory-conversations/src/store_index.rs:55-89 | the insert and remove calls a run makes, scan, drain, append and evict, leave exactly the indexed rows, in every run |
| `IndexReplay.Replay` | crates/tinymemory-conversations/src/inverted_index.rs:129-185 | those calls made on a new `InvertedIndex` leave it with the first-insert-wins map they describe, for up to 2^32 inserts |
| `IndexReplay.SearchPrimed` | crates/tinymemory-conversations/src/store_ops.rs:102-118 | end to end on the real index, at any point of any run: each hit of a primed search whose own thread is spared is a row of its transcript; if all threads are, the hits are the best `limit` messages, by words of the query and then by time, of all transcripts at that moment, without the skipped rows |
| `StoreSearch.FinalisedMessageIsFound` | crates/tinymemory-conversations/src/store_ops.rs:69-118 | end to end: a transcript row whose append is over, of which any word of the query is a raw substring, qualifies as a hit, whatever interleaved |
| `SoloStore.TrailIsMeasured` | crates/tinymemory-conversations/src/store_index.rs:293-327 | where the trail is complete, folded stats equal measured ones |
| `SoloStore.OpKeepsHealthy` | crates/tinymemory-conversations/src/store_ops.rs:140-345 | appends, truncations and metadata updates keep trails, ids and index in agreement with the transcripts |
| `SoloStore.DeleteKeepsHealthy` | crates/tinymemory-conversations/src/store_ops.rs:354-399 | so does a delete |
| `SoloStore.PrimeKeepsHealthy` | crates/tinymemory-conversations/src/store_index.rs:36-90 | so does priming, which leaves out exactly the transcripts that could not be read |
| `SoloStore.RepairCompletesTrail` | crates/tinymemory-conversations/src/store_index.rs:216-240 | one repair completes exactly one trail |
| `SoloStore.RepairKeepsSummary` | crates/tinymemory-conversations/src/store_index.rs:216-240 | a repair changes no thread's measured summary |
| `SoloRuns.AppendAlone` | crates/tinymemory-conversations/src/store_ops.rs:140-189 | the lock sections of an append, run without interruption, are the whole operation |
| `SoloRuns.TruncateAlone` | crates/tinymemory-conversations/src/store_ops.rs:300-345 | the same for truncation, skipped rows included |
| `SoloRuns.DeleteAlone` | crates/tinymemory-conversations/src/store_ops.rs:354-399 | the same for delete, both when the thread exists and when not |
| `SoloRuns.PurgeAlone` | crates/tinymemory-conversations/src/store_ops.rs:403-421 | the same for purge |
| `ThreadListing.ThreadsFromIndex` | crates/tinymemory-conversations/src/store_index.rs:245-274 | each live thread once, with what is recorded of it; newer last messages first, of equally new ones the thread created later first |
| `ThreadListing.AllShow` | crates/tinymemory-conversations/src/store_index.rs:245-327 | a listing shows every live thread once, with its title, labels, creation time, number of rows and time of the newest row, or of its creation when it has none |
| `ThreadListing.RepairOrQuarantine` | crates/tinymemory-conversations/src/store_index.rs:216-240 | each loop turn settles exactly one pending thread, by repair or by quarantine |
| `ThreadListing.PendingGrowsIff` | crates/tinymemory-conversations/src/store_index.rs:193-243 | which operations bring work back to a listing: the pending trails grow if and only if the operation creates a thread that is not quarantined |
| `ThreadListing.RepairMeasuresIff` | crates/tinymemory-conversations/src/store_index.rs:200-203 | on any store: a listing shows what measuring gives if and only if the trail was missing or already right |
| `ThreadListing.LostStatEntryStays` | crates/tinymemory-conversations/src/store_ops.rs:120-123 | a row whose stat entry was lost is reconciled by a listing exactly if the trail is missing; the comment promises it always |
| `ThreadListing.ListedInRun` | crates/tinymemory-conversations/src/store_index.rs:193-274 | at any point of any run, a thread with a complete trail that is not just cut is listed with the count and time of its finalised rows |
| `ConversationStoreModule.FindMessageById` | crates/tinymemory-conversations/src/store.rs:289-310 | the first row with the id, or none |
| `ConversationStoreModule.ConversationStore.ThreadSummary` | crates/tinymemory-conversations/src/store_index.rs:293-327 | title, labels, parent, creation time; the number of rows and the time of the newest, or of the creation when there is none; with an unreadable transcript, what is recorded |
| `StoreContracts.EnsureMeans` | crates/tinymemory-conversations/src/store_ops.rs:20-46 | field by field: title as given; creation time as it was, or the given one for a new thread; parent, personality and labels as given, else as they were or inferred; count and time kept; every other thread and every row untouched |
| `ConversationStoreModule.ConversationStore.EnsureThread` | crates/tinymemory-conversations/src/store_ops.rs:20-46 | the same of the store, and the summary shows the thread |
| `ConversationStoreModule.ConversationStore.GetMessages` | crates/tinymemory-conversations/src/store_ops.rs:55-67 | the transcript of a live thread, nothing for a dead one |
| `StoreContracts.AppendMeans` | crates/tinymemory-conversations/src/store_ops.rs:140-189 | an append that is no repeat changes one transcript, one entry and one thread of the index, in exactly these fields |
| `ConversationStoreModule.ConversationStore.AppendMessage` | crates/tinymemory-conversations/src/store_ops.rs:140-189 | fails for a dead thread; gives back the first stored row for an id that starts with `agent:` and is stored, changing nothing; else the row is last, the count one up, the time the row's, and a warm index has it |
| `ConversationStoreModule.ConversationStore.UpdateThreadTitle` | crates/tinymemory-conversations/src/store_ops.rs:192-221 | changes only the title; not found for a dead thread; the summary shows the thread |
| `ConversationStoreModule.ConversationStore.UpdateThreadLabels` | crates/tinymemory-conversations/src/store_ops.rs:224-254 | changes only the labels, to their canonical form; not found for a dead thread; the summary shows the thread |
| `StoreContracts.UpdateMeans` | crates/tinymemory-conversations/src/store_ops.rs:257-283 | patching touches the metadata of one row, the first with the id, and nothing else |
| `ConversationStoreModule.ConversationStore.UpdateMessage` | crates/tinymemory-conversations/src/store_ops.rs:257-283 | the first row with the id has the new metadata if some is given; its other fields, all other rows and threads, the log and the index are as they were; not found otherwise |
| `StoreContracts.CutMeans` | crates/tinymemory-conversations/src/store_ops.rs:300-345 | the same of the whole-operation function |
| `ConversationStoreModule.ConversationStore.DeleteMessagesFrom` | crates/tinymemory-conversations/src/store_ops.rs:300-345 | keeps the rows in front of the first row with the id, records their count and the time of the newest, or of the creation when none is left, takes the thread out of the index, touches no other thread, and returns how many rows went |
| `ConversationStoreModule.ConversationStore.DeleteThread` | crates/tinymemory-conversations/src/store_ops.rs:354-399 | tells whether the thread existed; if so no entry, row or index of it is left, and every other thread keeps its own; if not nothing changes |
| `ConversationStoreModule.ConversationStore.ListThreadsUnlocked` | crates/tinymemory-conversations/src/store_index.rs:137-187 | repairs every readable missing trail in one pass and lists every live thread once, newest message first, measured, or from its folded entry if unreadable |
| `ConversationStoreModule.ConversationStore.PurgeThreads` | crates/tinymemory-conversations/src/store_ops.rs:403-421 | wipes everything and counts the threads and rows that listing shows |
| `ConversationStoreModule.ConversationStore.BuildIndex` | crates/tinymemory-conversations/src/store_index.rs:55-78 | scanning the live threads indexes every row of the store, but for the transcripts that cannot be read |
| `ConversationStoreModule.ConversationStore.PrimeIndexIfCold` | crates/tinymemory-conversations/src/store_index.rs:36-90 | a cold index becomes the full one, unreadable transcripts left out; a warm one is left as it is |
| `ConversationStoreModule.ConversationStore.ListThreadsCoordinated` | crates/tinymemory-conversations/src/store_index.rs:193-243 | terminates whenever the threads that others create meanwhile are finitely many, though their other operations may go on for ever; on return lists every live thread once, newest message first, measured unless its transcript was unreadable, and without interference nothing but trails changed |
| `ConversationStoreModule.ConversationStore.ListThreads` | crates/tinymemory-conversations/src/store_index.rs:193-274 | alone and readable: every live thread once, with its rows counted, newest message first, then newest thread first |
| `LockRegistry.FetchKeepsLive` | crates/tinymemory-conversations/src/store_locks.rs:31-40 | a lookup returns the registered live mutex or a new one, and prunes only dead entries |
| `LockRegistry.SameThreadSameLock` | crates/tinymemory-conversations/src/store_locks.rs:31-70 | in every run two operations hold the same mutex exactly when they are on the same thread, and never both lock it |
| `LockRegistry.RemovalNeedsWriteGuard` | crates/tinymemory-conversations/src/store_locks.rs:61-70 | removal while another operation holds the mutex would hand out a second one |
| `StoreLocksModule.StoreLocks.Thread` | crates/tinymemory-conversations/src/store_locks.rs:31-40 | prune, upgrade or insert, as the registry specifies, and one more strong reference |
| `LocksReplay.FollowBuilds` | crates/tinymemory-conversations/src/store_locks.rs:42-59 | the begin, record, finish and cancel calls of any run of the store, made on one lock set: a build begins with the journal closed, and each publication drains exactly the appends finalised since its build began, in order |
| `LocksReplay.JournalIsRecorded` | crates/tinymemory-conversations/src/store_locks.rs:47-55 | in every run an open journal holds exactly the appends finalised since its build began |
| `LocksReplay.FollowHandles` | crates/tinymemory-conversations/src/store_locks.rs:31-70 | the fetches, drops, removals and clearings of any run of the registry, made on one lock set: every fetch returns the mutex of the run, and the strong counts are the handles held |
| `LockOrder.OperationOrdered` | crates/tinymemory-conversations/src/store.rs:79-101 | every operation, on every branch, takes locks in the order lifecycle, build mutex, one thread lock, metadata, leaf |
| `LockOrder.SomeoneSteps` | crates/tinymemory-conversations/src/store.rs:79-101 | following blockers from any unfinished process ends at one that can step, even with readers queueing behind writers |
| `LockOrder.DeadlockFree` | crates/tinymemory-conversations/src/store_ops.rs:20-421 | in every reachable state of any number of processes running any operations, all are done or one can step; runs are no longer than their operations |
| `GlobalClient.RefusalChangesNothing` | crates/tinymemory-core/src/global.rs:354-407 | `bind` is refused exactly when another client is cached for the workspace, the slot and cache are then unchanged, and the second refusal branch is unreachable |
| `GlobalClient.StepKeepsInv` | crates/tinymemory-core/src/global.rs:57-292 | every lock section of init, bind and client_for_workspace keeps the slot's client cached and changes no cache entry |
| `GlobalClient.OneClientPerWorkspace` | crates/tinymemory-core/src/global.rs:57-292 | in every run all successful calls for a workspace return one client, and the slot never holds another one for it |
| `GlobalClient.InitBindsSlot` | crates/tinymemory-core/src/global.rs:80-146 | an init that returns from its last section leaves the slot on its workspace and the returned client |
| `GlobalClient.ClientRegistry.CacheClient` | crates/tinymemory-core/src/global.rs:236-245 | the first client cached for a workspace wins |
| `GlobalClient.ClientRegistry.Init` | crates/tinymemory-core/src/global.rs:57-146 | returns the cached client if there is one, else the built one, bound in slot and cache; a failed build clears the slot |
| `GlobalClient.ClientRegistry.PublishBuilt` | crates/tinymemory-core/src/global.rs:119-146 | publishing a built client defers to one bound or cached meanwhile |
| `GlobalClient.ClientRegistry.ClientForWorkspace` | crates/tinymemory-core/src/global.rs:264-292 | returns the cached client if there is one, else caches the built one; never touches the slot |
| `GlobalClient.ClientRegistry.BindInSlot` | crates/tinymemory-core/src/global.rs:354-407 | binds unless another client is cached for the workspace |
| `Backfill.BackfillPass.Backfill` | crates/tinymemory-core/src/backfill.rs:107-274 | the nested loops with the labelled break compute the fold over everything listed |
| `Backfill.BackfillPass.VisitDocument` | crates/tinymemory-core/src/backfill.rs:144-268 | one document: probe before the limit check, charge before the read |
| `Backfill.RunAccounting` | crates/tinymemory-core/src/backfill.rs:107-274 | in every pass: scanned equals the charged documents and stays within the limit; each visited document is counted once; the limit is reported exactly when an unfiled document stopped the pass |
| `BackfillOutcomes.PassAccounts` | crates/tinymemory-core/src/backfill.rs:107-274 | in every pass, document by document against the tree it meets: which count as skipped, already present, ingested and charged, what is filed, which reasons are noted, and why the pass got no further |
| `Backfill.RunNotes` | crates/tinymemory-core/src/backfill.rs:86-92 | notes stay at most 20 and never repeat; a dry run files nothing |
| `Backfill.IdealPass` | crates/tinymemory-core/src/backfill.rs:107-274 | when nothing fails and no one else writes, a pass files min(limit, unfiled) identities and reports exactly whether any remain |
| `Backfill.PassesConverge` | crates/tinymemory-core/src/backfill.rs:22-33 | k passes leave exactly unfiled - min(k * limit, unfiled) |
| `Backfill.EnoughPassesFinish` | crates/tinymemory-core/src/backfill.rs:22-33 | ceil(unfiled / limit) passes file everything |
| `Backfill.FinishedPassIsIdle` | crates/tinymemory-core/src/backfill.rs:16-20 | once everything is filed a pass changes and charges nothing |
| `BackfillStall.PassFilesIff` | crates/tinymemory-core/src/backfill.rs:144-268 | a pass files something if and only if some fileable document has fewer charged documents before it than there is budget left, when no one else writes and no store is corrupt |
| `BackfillStall.StallIsPermanent` | crates/tinymemory-core/src/backfill.rs:22-33 | a pass files nothing exactly if no fileable document is within the limit, and then no later pass does |
| `BackfillStall.UnreadableStall` | crates/tinymemory-core/src/backfill.rs:209-230 | a fileable document that stalls so is never filed, and every pass reports more pending |
| `BackfillStall.PassesSettle` | crates/tinymemory-core/src/backfill.rs:22-33 | as many passes as there are documents are enough, failures or not |
| `BackfillStall.PreviewExactIff` | crates/tinymemory-core/src/backfill.rs:103-106 | with documents that fail but no corrupt store and no other writer: a dry run scans what the real pass scans if and only if no identity the pass could file is listed again or its charges use up the limit |
| `BackfillStall.FiledInTheEndIff` | crates/tinymemory-core/src/backfill.rs:22-33 | a document that can be filed is filed in the end if and only if fewer than `limit` documents that can never be filed are listed before it |
| `BackfillTargets.ScopeOfMeans` | crates/tinymemory-core/src/backfill.rs:291-310 | a row is usable exactly if it is a connector's with neither name missing or blank; its names are read trimmed, the toolkit in small letters |
| `BackfillTargets.ResolveTargets` | crates/tinymemory-core/src/backfill.rs:291-331 | each usable row's namespace `source:toolkit:connection`; in order, the namespace `skill-toolkit` of exactly the toolkits with one registered connection; the others, in order, with at most 20 reasons |
| `BackfillTargets.BeforeIff` | crates/tinymemory-core/src/backfill.rs:295-317 | the order of the toolkits is the lexicographic one |
| `BackfillTargets.NamespaceDeterminesScope` | crates/tinymemory-core/src/backfill.rs:311-315 | without a colon in toolkits a source namespace belongs to one account and is never a legacy one |
| `BackfillTargets.ToolkitsShareIff` | crates/tinymemory-core/src/backfill.rs:311-315 | two toolkit strings can share a namespace exactly if they are equal or one extends the other by a colon and more |
| `BackfillTargets.AccountsCollideIff` | crates/tinymemory-core/src/backfill.rs:300-315 | on registry rows: two different accounts can share a namespace if and only if one toolkit extends the other by a colon and a rest that does not start with white space |
| `Goals.ParseLineIff` | crates/tinymemory-bus/src/goals.rs:60-79 | a line is an item if and only if it is white space, a dash and a blank, white space, `[`, a part without `]`, `]` and a part, neither blank; it is then those two parts, trimmed |
| `Goals.ParsedListsItems` | crates/tinymemory-bus/src/goals.rs:57-82 | the items of a body are those of its lines, in order, and of all of them; lines are found without splitting |
| `Goals.Parse` | crates/tinymemory-bus/src/goals.rs:57-82 | the line loop computes the parsed document, which lists exactly the items of the body's lines, in order |
| `Goals.RenderOneMore` | crates/tinymemory-bus/src/goals.rs:91-98 | one more item adds its line at the end, after the title and an empty line |
| `Goals.Render` | crates/tinymemory-bus/src/goals.rs:91-98 | the item loop computes the rendered document |
| `Goals.RenderParse` | crates/tinymemory-bus/src/goals.rs:57-98 | render then parse is the identity exactly on documents whose ids and texts are trimmed, non-empty and without line feed, and whose ids have no `]` |
| `Goals.ParseRenderParse` | crates/tinymemory-bus/src/goals.rs:57-98 | parse(render(parse(body))) == parse(body) for every body |
| `Goals.NextId` | crates/tinymemory-bus/src/goals.rs:112-121 | the least unused g<N>, within one try more than there are items |
| `Goals.UsedIdsFit` | crates/tinymemory-bus/src/goals.rs:112-121 | the pigeonhole: distinct used ids need as many items |
| `Goals.DecimalValue` | crates/tinymemory-bus/src/goals.rs:115 | decimal rendering can be read back, so ids of different numbers differ |
| `Goals.DecimalDigits` | crates/tinymemory-bus/src/goals.rs:115 | it has digits only and no leading zero |
| `Chunks.QuartersAreWeight` | crates/tinymemory-bus/src/chunks.rs:344-353 | the weight is two for each ASCII letter or digit, one for each white space and four for each other character |
| `Chunks.ConservativeTokenEstimate` | crates/tinymemory-bus/src/chunks.rs:361-368 | a quarter of that weight, rounded up and saturated at 32 bits |
| `Chunks.ConservativeAtLeastApprox` | crates/tinymemory-bus/src/chunks.rs:333-368 | the conservative estimate is never below the chars/4 one, whose count is cut to 32 bits |
| `Chunks.TruncateToConservativeTokens` | crates/tinymemory-bus/src/chunks.rs:374-388 | the longest prefix within the budget, for every 32-bit budget: its weight is at most four times the budget, and one character more would exceed that; the whole text at the saturated ceiling |
| `Chunks.LongestFitsAgree` | crates/tinymemory-bus/src/chunks.rs:374-388 | the longest fits of a longest fit are those of the text: truncating to a larger budget first makes no difference |

## Left out

- Files, directories, fsync, JSON and path handling: a transcript and the log are sequences of valid
  rows, appended to and replaced atomically. Crashes and failed writes are not modelled.
- A root on which a transcript of a dead thread was left behind (a crash between the tombstone and the
  unlinking): `StoreProtocol.Init` starts from roots without one.
- Read failures while a concurrent cold build scans (it skips that transcript): `StoreProtocol` models a
  failing snapshot only. `PrimeIndexIfCold`, which runs alone, models unreadable transcripts.
- ConversationStoreModule.ConversationStore.ListThreadsCoordinated: other callers' operations take
  effect whole between two of its lock sections. What a listing shows while they are between their
  own sections is `ThreadListing.ListedInRun`; its repairs are the `Repair` step of `StoreProtocol`.
- ConversationStoreModule.ConversationStore.BuildIndex: the index under construction is a map from
  threads to first rows. `IndexReplay` makes the same calls on an `InvertedIndex`.
- The order of equal ranks: the host's sort leaves ties in map order, so only the ranks are fixed.
- The wording of backfill reasons: a reason is its namespace and what kind it is.
- Reading `threads.jsonl` again inside one lock section: the log cannot change meanwhile.
- StoreProtocol: waiting is a step that is not enabled, so fairness and starvation are not covered;
  `LockOrder` proves progress of the system, not of each process.
- LockOrder: an operation's branches are parameters of its lock tree, not derived from the store state.
- Lock poisoning and panics.
- GlobalClient: how many clients get built. A losing racer may build one that is never published.
- Chunks: the 64-bit sum of weights cannot overflow for a text that fits in memory, so it is unbounded.
- Goals.NextId: the counter is unbounded; the code's 32-bit one would need 2^31 items to overflow.
- Interning pools, boxed keys and other memory-saving choices of the index; `InvertedIndex::clear`.
- Wire types, the namespace and graph views, chunk ids, embedding adapters: thin or easy.
