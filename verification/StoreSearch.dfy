/** The per-thread index of the protocol and the inverted index are the same map, so a search
    in a run answers what a linear scan of the transcripts would. */
module StoreSearch {
  import opened Wrappers
  import opened Types
  import opened ThreadLog
  import opened Transcript
  import opened StoreState
  import opened StoreProtocol
  import opened StoreTheorems
  import opened IndexTables
  import opened TruncationSafety
  import StoreSafety
  import SearchMeaning
  import SearchSpec
  import Text
  import Tokenize

  // ---- One index, two layouts ---------------------------------------------------------------

  function IndexKeys(index: Index): set<Key> {
    set t, id | t in index && id in index[t] :: (t, id)
  }

  /** The index laid out as the inverted index keeps it. */
  function Entries(lower: char -> string, millis: string -> int, index: Index): Contents {
    map k | k in IndexKeys(index) && k.0 in index && k.1 in index[k.0]
      :: EntryOf(lower, millis, k.0, index[k.0][k.1])
  }

  lemma EntriesMember(lower: char -> string, millis: string -> int, index: Index, t: ThreadId, id: MessageId)
    ensures (t, id) in Entries(lower, millis, index) <==> id in Of(index, t)
    ensures id in Of(index, t) ==> Entries(lower, millis, index)[(t, id)] == EntryOf(lower, millis, t, Of(index, t)[id])
  {
    if id in Of(index, t) {
      assert t in index && id in index[t];
      assert (t, id) in IndexKeys(index);
    }
  }

  lemma SameOfSameEntries(lower: char -> string, millis: string -> int, a: Index, b: Index)
    requires forall t: ThreadId :: Of(a, t) == Of(b, t)
    ensures Entries(lower, millis, a) == Entries(lower, millis, b)
  {
    var ea, eb := Entries(lower, millis, a), Entries(lower, millis, b);
    forall k: Key ensures (k in ea <==> k in eb) && (k in ea ==> ea[k] == eb[k]) {
      EntriesMember(lower, millis, a, k.0, k.1);
      EntriesMember(lower, millis, b, k.0, k.1);
      assert Of(a, k.0) == Of(b, k.0);
    }
  }

  /** Indexing a row in the protocol is inserting it into the inverted index. */
  lemma AddRowIsInsert(lower: char -> string, millis: string -> int, index: Index, t: ThreadId, m: Message)
    ensures Entries(lower, millis, index[t := AddRow(Of(index, t), m)])
            == InsertFirst(Entries(lower, millis, index), EntryOf(lower, millis, t, m))
  {
    var after := index[t := AddRow(Of(index, t), m)];
    var e := EntryOf(lower, millis, t, m);
    var left, right := Entries(lower, millis, after), InsertFirst(Entries(lower, millis, index), e);
    EntriesMember(lower, millis, index, t, m.id);
    forall k: Key ensures (k in left <==> k in right) && (k in left ==> left[k] == right[k]) {
      EntriesMember(lower, millis, after, k.0, k.1);
      EntriesMember(lower, millis, index, k.0, k.1);
    }
  }

  lemma EvictedEntry(lower: char -> string, millis: string -> int, index: Index, t: ThreadId, k: Key)
    ensures k in Entries(lower, millis, index - {t}) <==> k in Entries(lower, millis, index) && k.0 != t
    ensures k in Entries(lower, millis, index - {t}) ==>
              Entries(lower, millis, index - {t})[k] == Entries(lower, millis, index)[k]
  {
    EntriesMember(lower, millis, index - {t}, k.0, k.1);
    EntriesMember(lower, millis, index, k.0, k.1);
  }

  /** Evicting a thread in the protocol is removing it from the inverted index. */
  lemma EvictIsRemoveThread(lower: char -> string, millis: string -> int, index: Index, t: ThreadId)
    ensures Entries(lower, millis, index - {t}) == DropThread(Entries(lower, millis, index), t)
  {
    forall k: Key {
      EvictedEntry(lower, millis, index, t, k);
    }
  }

  // ---- A search answers the linear scan -----------------------------------------------------

  /** Reading every transcript, rows in flight left out, first row per id. */
  function ScanAll(s: State): Index {
    map t | t in s.store.transcripts :: FirstOf(FinalRows(s, t))
  }

  lemma UnlistedThreadIsEmpty(s: State, t: ThreadId)
    requires t !in s.store.transcripts
    ensures FirstOf(FinalRows(s, t)) == map[]
  {
    assert RowsOf(s.store, t) == [];
  }

  /** In every run without truncation, whatever interleaved with the build, the index a primed
      search reads holds what reading every transcript would give, so by the contract of
      `InvertedIndex.Search` its hits answer the linear scan. */
  lemma SearchReadsLinearScan(lower: char -> string, millis: string -> int, run: seq<State>, schedule: Schedule,
                              i: nat, p: Pid)
    requires IsRun(run, schedule) && i < |run| && PcOf(run[i], p).SearchReady?
    requires forall k | 0 <= k < |schedule| :: !schedule[k].1.Truncate?
    ensures run[i].store.cache.Some?
    ensures Entries(lower, millis, run[i].store.cache.value) == Entries(lower, millis, ScanAll(run[i]))
  {
    var s := run[i];
    PrimedIndexPresent(run, schedule, i, p);
    RunKeepsInv(run, schedule, i);
    StoreSafety.Mover(s, p);
    forall t: ThreadId ensures Of(s.store.cache.value, t) == Of(ScanAll(s), t) {
      ColdBuildCorrect(run, schedule, i, t);
      if t !in s.store.transcripts {
        UnlistedThreadIsEmpty(s, t);
      }
    }
    SameOfSameEntries(lower, millis, s.store.cache.value, ScanAll(s));
  }

  // ---- With truncations ---------------------------------------------------------------------

  function Drop(rows: Rows, n: nat): Rows {
    if n <= |rows| then rows[n..] else []
  }

  /** The same scan, without the rows each thread's last truncation on a warm index left out. */
  function ScanUnskipped(s: State): Index {
    map t | t in s.store.transcripts :: FirstOf(Drop(FinalRows(s, t), Skipped(s, t)))
  }

  /** No truncation of any thread cuts rows a build holds. */
  ghost predicate AllSpared(run: seq<State>, schedule: Schedule)
    requires |run| == |schedule| + 1
  {
    forall t: ThreadId :: BuildsSpared(run, schedule, t)
  }

  /** In every run whose truncations spare the builds, while no truncation is half-way, the index
      a primed search reads holds what reading every transcript would give, but for the skipped
      rows. */
  lemma SearchReadsUnskipped(lower: char -> string, millis: string -> int, run: seq<State>, schedule: Schedule,
                             i: nat, p: Pid)
    requires IsRun(run, schedule) && i < |run| && PcOf(run[i], p).SearchReady?
    requires AllSpared(run, schedule) && NoCutInProgress(run[i])
    ensures run[i].store.cache.Some?
    ensures Entries(lower, millis, run[i].store.cache.value) == Entries(lower, millis, ScanUnskipped(run[i]))
  {
    var s := run[i];
    PrimedIndexPresent(run, schedule, i, p);
    RunKeepsInv(run, schedule, i);
    StoreSafety.Mover(s, p);
    forall t: ThreadId ensures Of(s.store.cache.value, t) == Of(ScanUnskipped(s), t) {
      assert BuildsSpared(run, schedule, t);
      SparedNeverStale(run, schedule, i, t);
      SettledWithoutWriter(s, t);
      WarmIndexExact(run, schedule, i, t);
      if t !in s.store.transcripts {
        assert RowsOf(s.store, t) == [];
      }
    }
    SameOfSameEntries(lower, millis, s.store.cache.value, ScanUnskipped(s));
  }

  /** No truncation of this one thread has cut rows a build holds, and none is half-way now. */
  ghost predicate ThreadSpared(run: seq<State>, schedule: Schedule, i: nat, t: ThreadId)
    requires |run| == |schedule| + 1 && i < |run|
  {
    BuildsSpared(run, schedule, t) && NotCutting(run[i], t)
  }

  predicate ShowsRow(h: Hit, m: Message) {
    h.messageId == m.id && h.role == m.sender && h.content == m.content && h.createdAt == m.createdAt
  }

  /** The hit shows a row of its thread's transcript. */
  predicate IsRowHit(s: State, h: Hit) {
    exists m | m in RowsOf(s.store, h.threadId) :: ShowsRow(h, m)
  }

  /** An indexed message stands under its own id and is a row. */
  lemma IndexedIsRow(run: seq<State>, schedule: Schedule, i: nat, t: ThreadId, id: MessageId)
    requires IsRun(run, schedule) && i < |run|
    requires run[i].store.cache.Some? && Settled(ViewOf(run[i], t)) && t !in run[i].stale
    requires id in Of(run[i].store.cache.value, t)
    ensures var indexed := Of(run[i].store.cache.value, t)[id];
            indexed.id == id && exists m | m in RowsOf(run[i].store, t) :: Searchable(m) == indexed
  {
    IndexedIsDurable(run, schedule, i, t, id);
    WarmIndexExact(run, schedule, i, t);
    FirstOfMeaning(FinalRows(run[i], t)[Skipped(run[i], t)..], id);
  }

  lemma HitIsEntry(lower: char -> string, millis: string -> int, index: Index, hits: seq<Hit>, terms: seq<string>,
                   limit: nat, exclude: Option<ThreadId>, n: nat)
    requires SearchSpec.IsAnswer(hits, Entries(lower, millis, index), terms, limit, exclude) && n < |hits|
    ensures hits[n].messageId in Of(index, hits[n].threadId)
    ensures ShowsRow(hits[n].(messageId := Of(index, hits[n].threadId)[hits[n].messageId].id),
                     Of(index, hits[n].threadId)[hits[n].messageId])
  {
    assert SearchSpec.HitKeys(hits)[n] == (hits[n].threadId, hits[n].messageId);
    EntriesMember(lower, millis, index, hits[n].threadId, hits[n].messageId);
  }

  /** Every hit whose own thread's truncations spare the builds, with none of them half-way, is a
      row of that thread's transcript: no removed row is ever hit. Other threads may be cut freely. */
  lemma HitsAreRows(lower: char -> string, millis: string -> int, run: seq<State>, schedule: Schedule, i: nat, p: Pid,
                    hits: seq<Hit>, terms: seq<string>, limit: nat, exclude: Option<ThreadId>, n: nat)
    requires IsRun(run, schedule) && i < |run| && PcOf(run[i], p).SearchReady?
    requires run[i].store.cache.Some?
    requires SearchSpec.IsAnswer(hits, Entries(lower, millis, run[i].store.cache.value), terms, limit, exclude)
    requires n < |hits| && ThreadSpared(run, schedule, i, hits[n].threadId)
    ensures IsRowHit(run[i], hits[n])
  {
    var t, id := hits[n].threadId, hits[n].messageId;
    RunKeepsInv(run, schedule, i);
    StoreSafety.Mover(run[i], p);
    SparedNeverStale(run, schedule, i, t);
    SettledWithoutWriter(run[i], t);
    HitIsEntry(lower, millis, run[i].store.cache.value, hits, terms, limit, exclude, n);
    IndexedIsRow(run, schedule, i, t, id);
  }

  /** The row is in the transcript, and no append of it is still under way. */
  predicate Finalised(s: State, t: ThreadId, k: nat) {
    k < |RowsOf(s.store, t)| && (k + 1 < |RowsOf(s.store, t)| || t !in s.holder)
  }

  lemma FinalisedRow(s: State, t: ThreadId, k: nat)
    requires Finalised(s, t, k)
    ensures k < |FinalRows(s, t)| && FinalRows(s, t)[k] == Searchable(RowsOf(s.store, t)[k])
  {
  }

  lemma {:induction false} SameStartSameFirst(rows: Rows, f: Rows, k: nat, id: MessageId)
    requires IndexOf(rows, id) == Some(k) && k < |f| && forall j | 0 <= j <= k :: f[j].id == rows[j].id
    ensures IndexOf(f, id) == Some(k)
  {
    assert f[0].id == rows[0].id;
    if k > 0 {
      assert forall j | 0 <= j < k :: f[1..][j].id == f[j + 1].id && rows[1..][j].id == rows[j + 1].id;
      SameStartSameFirst(rows[1..], f[1..], k - 1, id);
    }
  }

  /** Finalised rows come first, so the first row of an id is also the first finalised one. */
  lemma FirstFinalised(s: State, t: ThreadId, k: nat)
    requires Finalised(s, t, k) && IndexOf(RowsOf(s.store, t), RowsOf(s.store, t)[k].id) == Some(k)
    ensures k < |FinalRows(s, t)| && IndexOf(FinalRows(s, t), RowsOf(s.store, t)[k].id) == Some(k)
  {
    var rows, f := RowsOf(s.store, t), FinalRows(s, t);
    forall j | 0 <= j <= k ensures j < |f| && f[j].id == rows[j].id {
      FinalisedRow(s, t, j);
    }
    SameStartSameFirst(rows, f, k, rows[k].id);
  }

  /** End to end: a finalised row (the first of its id) of which any word of the query is a raw
      substring qualifies as a hit in whatever index the search got to see. */
  lemma FinalisedMessageIsFound(lower: char -> string, millis: string -> int, run: seq<State>, schedule: Schedule,
                                i: nat, p: Pid, t: ThreadId, k: nat, before: string, word: string, after: string,
                                exclude: Option<ThreadId>)
    requires IsRun(run, schedule) && i < |run| && PcOf(run[i], p).SearchReady?
    requires forall j | 0 <= j < |schedule| :: !schedule[j].1.Truncate?
    requires Finalised(run[i], t, k)
    requires IndexOf(RowsOf(run[i].store, t), RowsOf(run[i].store, t)[k].id) == Some(k)
    requires Text.Contains(RowsOf(run[i].store, t)[k].content, word)
    requires Text.NoWhitespace(Tokenize.Normalized(lower, word))
    requires Text.Utf8Len(Tokenize.Normalized(lower, word)) >= 3
    requires SearchMeaning.EndsApart(Tokenize.Normalized(lower, before))
    requires SearchMeaning.StartsApart(Tokenize.Normalized(lower, after))
    requires exclude != Some(t)
    ensures run[i].store.cache.Some?
    ensures var c, key := Entries(lower, millis, run[i].store.cache.value), (t, RowsOf(run[i].store, t)[k].id);
            key in c && SearchMeaning.Qualifies(c, key, Tokenize.Normalized(lower, before + word + after), exclude)
  {
    var s := run[i];
    FirstFinalised(s, t, k);
    FinalisedRow(s, t, k);
    var m := FinalRows(s, t)[k];
    PrimedIndexPresent(run, schedule, i, p);
    RunKeepsInv(run, schedule, i);
    StoreSafety.Mover(s, p);
    ColdBuildRows(run, schedule, i, t, m.id);
    EntriesMember(lower, millis, s.store.cache.value, t, m.id);
    SearchMeaning.RawWordMatches(lower, t, m, before, word, after, exclude,
                                 Entries(lower, millis, s.store.cache.value));
  }
}
