/**
 The calls a run makes on its inverted index, and the index they leave: a search in a run, made on
 a real `InvertedIndex`, answers the scan of the transcripts.
 */
module IndexReplay {
  import opened Wrappers
  import opened Types
  import opened Transcript
  import opened StoreState
  import opened StoreProtocol
  import opened StoreTheorems
  import opened IndexTables
  import opened StoreSearch
  import opened InvertedIndexModule
  import StoreSafety
  import SearchMeaning
  import SearchSpec
  import Tokenize

  datatype Call = Insert(thread: ThreadId, msg: Message) | Remove(thread: ThreadId)

  // ---- Calls on an index ----------------------------------------------------------------------

  function AfterCall(lower: char -> string, millis: string -> int, c: Contents, call: Call): Contents {
    match call
    case Insert(t, m) => InsertFirst(c, EntryOf(lower, millis, t, m))
    case Remove(t) => DropThread(c, t)
  }

  function AfterCalls(lower: char -> string, millis: string -> int, c: Contents, calls: seq<Call>): Contents {
    if calls == [] then c
    else AfterCall(lower, millis, AfterCalls(lower, millis, c, calls[..|calls| - 1]), calls[|calls| - 1])
  }

  function Inserts(calls: seq<Call>): nat {
    if calls == [] then 0 else Inserts(calls[..|calls| - 1]) + if calls[|calls| - 1].Insert? then 1 else 0
  }

  lemma {:induction false} InsertsOfPrefix(calls: seq<Call>, i: nat)
    requires i <= |calls|
    ensures Inserts(calls[..i]) <= Inserts(calls)
  {
    if i < |calls| {
      assert calls[..|calls| - 1][..i] == calls[..i];
      InsertsOfPrefix(calls[..|calls| - 1], i);
    } else {
      assert calls[..i] == calls;
    }
  }

  lemma {:induction false} AfterConcat(lower: char -> string, millis: string -> int, c: Contents, a: seq<Call>,
                                       b: seq<Call>)
    ensures AfterCalls(lower, millis, c, a + b) == AfterCalls(lower, millis, AfterCalls(lower, millis, c, a), b)
  {
    if b == [] {
      assert a + b == a;
    } else {
      assert (a + b)[..|a + b| - 1] == a + b[..|b| - 1];
      AfterConcat(lower, millis, c, a, b[..|b| - 1]);
    }
  }

  lemma AfterOne(lower: char -> string, millis: string -> int, c: Contents, calls: seq<Call>, call: Call)
    ensures AfterCalls(lower, millis, c, calls + [call])
         == AfterCall(lower, millis, AfterCalls(lower, millis, c, calls), call)
  {
    assert (calls + [call])[..|calls|] == calls;
  }

  /** Make the calls, one after another, on a new index. */
  method Replay(lower: char -> string, millis: string -> int, calls: seq<Call>) returns (index: InvertedIndex)
    requires Inserts(calls) <= DOC_ID_SPAN
    ensures fresh(index) && index.Valid() && index.lower == lower && index.millis == millis
    ensures index.Contents() == AfterCalls(lower, millis, map[], calls)
  {
    index := new InvertedIndex(lower, millis);
    for i := 0 to |calls|
      invariant fresh(index) && index.Valid() && index.lower == lower && index.millis == millis
      invariant |index.docs| <= Inserts(calls[..i])
      invariant index.Contents() == AfterCalls(lower, millis, map[], calls[..i])
    {
      assert calls[..i + 1][..i] == calls[..i];
      InsertsOfPrefix(calls, i + 1);
      match calls[i]
      case Insert(t, m) => index.Insert(t, m);
      case Remove(t) => index.RemoveThread(t);
    }
    assert calls[..|calls|] == calls;
  }

  // ---- The calls of a run ---------------------------------------------------------------------

  function RowCalls(t: ThreadId, rows: Rows): seq<Call> {
    seq(|rows|, i requires 0 <= i < |rows| => Insert(t, rows[i]))
  }

  function JournalCalls(j: Journal): seq<Call> {
    seq(|j|, i requires 0 <= i < |j| => Insert(j[i].0, j[i].1))
  }

  /** The calls made so far on the warm index and on the one under construction. */
  datatype Calls = Calls(cached: seq<Call>, built: seq<Call>)

  function Cached(s: State, c: Calls, call: Call): Calls {
    if s.store.cache.Some? then c.(cached := c.cached + [call]) else c
  }

  function StepCalls(s: State, p: Pid, a: Action, c: Calls): Calls {
    match a
    case Scan(t) => c.(built := c.built + RowCalls(t, RowsOf(s.store, t)))
    case Advance => (
      match PcOf(s, p)
      case AppendWritten(t, m) => Cached(s, c, Insert(t, m))
      case TruncateEvict(t) => Cached(s, c, Remove(t))
      case DeleteEvict(t) => Cached(s, c, Remove(t))
      case BuildSnapshot => c.(built := [])
      case BuildScan(_, _) =>
        Calls(c.built + JournalCalls(if s.store.journal.Some? then s.store.journal.value else []), [])
      case PurgeEvict => c.(cached := [])
      case _ => c
      )
    case _ => c
  }

  /** The calls made up to each state of a run. */
  ghost predicate AreCalls(calls: seq<Calls>, run: seq<State>, schedule: Schedule) {
    && |calls| == |run| == |schedule| + 1
    && calls[0] == Calls([], [])
    && forall i | 0 <= i < |schedule| :: calls[i + 1] == StepCalls(run[i], schedule[i].0, schedule[i].1, calls[i])
  }

  method CallsOf(run: seq<State>, schedule: Schedule) returns (calls: seq<Calls>)
    requires |run| == |schedule| + 1
    ensures AreCalls(calls, run, schedule)
  {
    calls := [Calls([], [])];
    for n := 0 to |schedule|
      invariant |calls| == n + 1 && calls[0] == Calls([], [])
      invariant forall i | 0 <= i < n :: calls[i + 1] == StepCalls(run[i], schedule[i].0, schedule[i].1, calls[i])
    {
      calls := calls + [StepCalls(run[n], schedule[n].0, schedule[n].1, calls[n])];
    }
  }

  // ---- They leave what the protocol says is indexed -------------------------------------------

  /** One more insert call is one more row. */
  lemma InsertIsAddRow(lower: char -> string, millis: string -> int, c: Contents, calls: seq<Call>, index: Index,
                       t: ThreadId, m: Message)
    requires AfterCalls(lower, millis, c, calls) == Entries(lower, millis, index)
    ensures AfterCalls(lower, millis, c, calls + [Insert(t, m)])
         == Entries(lower, millis, index[t := AddRow(Of(index, t), m)])
  {
    AfterOne(lower, millis, c, calls, Insert(t, m));
    AddRowIsInsert(lower, millis, index, t, m);
  }

  lemma RowCallsStep(t: ThreadId, rows: Rows)
    requires rows != []
    ensures RowCalls(t, rows) == RowCalls(t, rows[..|rows| - 1]) + [Insert(t, rows[|rows| - 1])]
  {
  }

  /** The index with these rows of `t` added. */
  function WithRows(index: Index, t: ThreadId, rows: Rows): Index {
    index[t := AddRows(Of(index, t), rows)]
  }

  lemma WithRowsStep(index: Index, t: ThreadId, rows: Rows)
    requires rows != []
    ensures var mid, last := WithRows(index, t, rows[..|rows| - 1]), rows[|rows| - 1];
            WithRows(index, t, rows) == mid[t := AddRow(Of(mid, t), last)]
  {
  }

  lemma {:induction false} RowsAreInserts(lower: char -> string, millis: string -> int, index: Index, t: ThreadId,
                                          rows: Rows)
    ensures AfterCalls(lower, millis, Entries(lower, millis, index), RowCalls(t, rows))
         == Entries(lower, millis, WithRows(index, t, rows))
  {
    if rows == [] {
      SameOfSameEntries(lower, millis, index, WithRows(index, t, rows));
    } else {
      var init := rows[..|rows| - 1];
      RowsAreInserts(lower, millis, index, t, init);
      RowCallsStep(t, rows);
      WithRowsStep(index, t, rows);
      InsertIsAddRow(lower, millis, Entries(lower, millis, index), RowCalls(t, init), WithRows(index, t, init),
                     t, rows[|rows| - 1]);
    }
  }

  lemma ScanIsInserts(lower: char -> string, millis: string -> int, built: Index, st: Store, t: ThreadId)
    ensures AfterCalls(lower, millis, Entries(lower, millis, built), RowCalls(t, RowsOf(st, t)))
         == Entries(lower, millis, ScanThread(built, st, t))
  {
    RowsAreInserts(lower, millis, built, t, RowsOf(st, t));
    if t !in st.transcripts {
      SameOfSameEntries(lower, millis, built, WithRows(built, t, []));
    }
  }

  lemma JournalCallsStep(j: Journal)
    requires j != []
    ensures JournalCalls(j) == JournalCalls(j[..|j| - 1]) + [Insert(j[|j| - 1].0, j[|j| - 1].1)]
  {
  }

  lemma {:induction false} DrainIsInserts(lower: char -> string, millis: string -> int, built: Index, j: Journal)
    ensures AfterCalls(lower, millis, Entries(lower, millis, built), JournalCalls(j))
         == Entries(lower, millis, Drain(built, j))
  {
    if j != [] {
      var init, last := j[..|j| - 1], j[|j| - 1];
      DrainIsInserts(lower, millis, built, init);
      JournalCallsStep(j);
      InsertIsAddRow(lower, millis, Entries(lower, millis, built), JournalCalls(init), Drain(built, init), last.0, last.1);
    }
  }

  predicate MirrorsCache(lower: char -> string, millis: string -> int, s: State, calls: seq<Call>) {
    s.store.cache.Some? ==> AfterCalls(lower, millis, map[], calls) == Entries(lower, millis, s.store.cache.value)
  }

  predicate MirrorsBuild(lower: char -> string, millis: string -> int, s: State, calls: seq<Call>) {
    s.builder.Some? && PcOf(s, s.builder.value).BuildScan? ==>
      AfterCalls(lower, millis, map[], calls) == Entries(lower, millis, PcOf(s, s.builder.value).built)
  }

  lemma ScanMirrorsBuild(lower: char -> string, millis: string -> int, s: State, p: Pid, t: ThreadId, s': State,
                         c: Calls)
    requires Inv(s) && Next(s, p, Scan(t)) == Some(s') && MirrorsBuild(lower, millis, s, c.built)
    ensures MirrorsBuild(lower, millis, s', StepCalls(s, p, Scan(t), c).built)
  {
    StoreSafety.Mover(s, p);
    ScanIsInserts(lower, millis, PcOf(s, p).built, s.store, t);
    AfterConcat(lower, millis, map[], c.built, RowCalls(t, RowsOf(s.store, t)));
  }

  /** A step that is no scan of the builder leaves the index under construction alone. */
  lemma OtherStepKeepsBuild(s: State, p: Pid, a: Action, s': State)
    requires LocksOk(s) && Next(s, p, a) == Some(s') && !a.Scan? && !(a.Advance? && PcOf(s, p).BuildSnapshot?)
    requires s'.builder.Some? && PcOf(s', s'.builder.value).BuildScan?
    ensures s.builder == s'.builder && PcOf(s, s.builder.value) == PcOf(s', s.builder.value)
    ensures !(a.Advance? && PcOf(s, p).BuildScan?)
  {
    StoreSafety.Mover(s, p);
    var q := s'.builder.value;
    assert ProcOk(s, q);
    if a.Advance? {
      AdvanceMovesOne(s, p, s');
    }
  }

  lemma SnapshotMirrorsBuild(lower: char -> string, millis: string -> int, s: State, p: Pid, s': State, c: Calls)
    requires Inv(s) && PcOf(s, p).BuildSnapshot? && Next(s, p, Advance) == Some(s')
    ensures MirrorsBuild(lower, millis, s', StepCalls(s, p, Advance, c).built)
  {
    StoreSafety.Mover(s, p);
    assert Entries(lower, millis, map[]) == map[];
  }

  lemma OtherStepMirrorsBuild(lower: char -> string, millis: string -> int, s: State, p: Pid, a: Action, s': State,
                              c: Calls)
    requires Inv(s) && Next(s, p, a) == Some(s') && MirrorsBuild(lower, millis, s, c.built)
    requires !a.Scan? && !(a.Advance? && PcOf(s, p).BuildSnapshot?)
    ensures MirrorsBuild(lower, millis, s', StepCalls(s, p, a, c).built)
  {
    if s'.builder.Some? && PcOf(s', s'.builder.value).BuildScan? {
      OtherStepKeepsBuild(s, p, a, s');
      assert StepCalls(s, p, a, c).built == c.built;
    }
  }

  lemma StepMirrorsBuild(lower: char -> string, millis: string -> int, s: State, p: Pid, a: Action, s': State, c: Calls)
    requires Inv(s) && Next(s, p, a) == Some(s') && MirrorsBuild(lower, millis, s, c.built)
    ensures MirrorsBuild(lower, millis, s', StepCalls(s, p, a, c).built)
  {
    if a.Scan? {
      ScanMirrorsBuild(lower, millis, s, p, a.thread, s', c);
    } else if a.Advance? && PcOf(s, p).BuildSnapshot? {
      SnapshotMirrorsBuild(lower, millis, s, p, s', c);
    } else {
      OtherStepMirrorsBuild(lower, millis, s, p, a, s', c);
    }
  }

  lemma CallMirrorsCache(lower: char -> string, millis: string -> int, s: State, c: Calls, call: Call, s': State)
    requires MirrorsCache(lower, millis, s, c.cached)
    requires s'.store.cache == if s.store.cache.None? then None else
               match call
               case Insert(t, m) => Some(s.store.cache.value[t := AddRow(Of(s.store.cache.value, t), m)])
               case Remove(t) => Some(s.store.cache.value - {t})
    ensures MirrorsCache(lower, millis, s', Cached(s, c, call).cached)
  {
    if s.store.cache.Some? {
      match call
      case Insert(t, m) => InsertIsAddRow(lower, millis, map[], c.cached, s.store.cache.value, t, m);
      case Remove(t) =>
        AfterOne(lower, millis, map[], c.cached, call);
        EvictIsRemoveThread(lower, millis, s.store.cache.value, t);
    }
  }

  lemma PublishMirrorsCache(lower: char -> string, millis: string -> int, s: State, p: Pid, s': State, c: Calls)
    requires Inv(s) && PcOf(s, p).BuildScan? && Continue(s, p) == Some(s') && MirrorsBuild(lower, millis, s, c.built)
    ensures MirrorsCache(lower, millis, s', StepCalls(s, p, Advance, c).cached)
  {
    StoreSafety.Mover(s, p);
    var j := if s.store.journal.Some? then s.store.journal.value else [];
    DrainIsInserts(lower, millis, PcOf(s, p).built, j);
    AfterConcat(lower, millis, map[], c.built, JournalCalls(j));
  }

  /** The advances that call the index; the others keep the cache or drop it. */
  predicate MakesCalls(pc: Pc) {
    pc.AppendWritten? || pc.TruncateEvict? || pc.DeleteEvict? || pc.BuildScan?
  }

  lemma QuietStepKeepsCache(s: State, p: Pid, a: Action, s': State, c: Calls)
    requires Next(s, p, a) == Some(s') && !(a.Advance? && MakesCalls(PcOf(s, p)))
    ensures s'.store.cache == s.store.cache || s'.store.cache.None?
    ensures s'.store.cache.Some? ==> StepCalls(s, p, a, c).cached == c.cached
  {
  }

  lemma StepMirrorsCache(lower: char -> string, millis: string -> int, s: State, p: Pid, a: Action, s': State, c: Calls)
    requires Inv(s) && Next(s, p, a) == Some(s')
    requires MirrorsCache(lower, millis, s, c.cached) && MirrorsBuild(lower, millis, s, c.built)
    ensures MirrorsCache(lower, millis, s', StepCalls(s, p, a, c).cached)
  {
    if !(a.Advance? && MakesCalls(PcOf(s, p))) {
      QuietStepKeepsCache(s, p, a, s', c);
    } else {
      match PcOf(s, p)
      case AppendWritten(t, m) => CallMirrorsCache(lower, millis, s, c, Insert(t, m), s');
      case TruncateEvict(t) => CallMirrorsCache(lower, millis, s, c, Remove(t), s');
      case DeleteEvict(t) => CallMirrorsCache(lower, millis, s, c, Remove(t), s');
      case BuildScan(_, _) => PublishMirrorsCache(lower, millis, s, p, s', c);
    }
  }

  predicate Mirrors(lower: char -> string, millis: string -> int, s: State, c: Calls) {
    MirrorsCache(lower, millis, s, c.cached) && MirrorsBuild(lower, millis, s, c.built)
  }

  lemma StepMirrors(lower: char -> string, millis: string -> int, s: State, p: Pid, a: Action, s': State, c: Calls)
    requires Inv(s) && Next(s, p, a) == Some(s') && Mirrors(lower, millis, s, c)
    ensures Mirrors(lower, millis, s', StepCalls(s, p, a, c))
  {
    StepMirrorsCache(lower, millis, s, p, a, s', c);
    StepMirrorsBuild(lower, millis, s, p, a, s', c);
  }

  lemma StartMirrors(lower: char -> string, millis: string -> int, s: State)
    requires Init(s)
    ensures Mirrors(lower, millis, s, Calls([], []))
  {
  }

  /** In every run, the calls made on the index leave exactly the indexed rows. */
  lemma {:induction false} RunMirrors(lower: char -> string, millis: string -> int, run: seq<State>,
                                      schedule: Schedule, calls: seq<Calls>, i: nat)
    requires IsRun(run, schedule) && AreCalls(calls, run, schedule) && i < |run|
    ensures Mirrors(lower, millis, run[i], calls[i])
  {
    if i == 0 {
      StartMirrors(lower, millis, run[0]);
    } else {
      RunMirrors(lower, millis, run, schedule, calls, i - 1);
      RunKeepsInv(run, schedule, i - 1);
      StepMirrors(lower, millis, run[i - 1], schedule[i - 1].0, schedule[i - 1].1, run[i], calls[i - 1]);
    }
  }

  /** The hits are what a search of these rows must answer. */
  ghost predicate Answers(hits: seq<Hit>, lower: char -> string, millis: string -> int, index: Index, query: string,
                          limit: nat, exclude: Option<ThreadId>)
  {
    var c := Entries(lower, millis, index);
    && SearchSpec.IsAnswer(hits, c, SearchSpec.Terms(lower, query), limit, exclude)
    && SearchMeaning.IsBest(hits, c, Tokenize.Normalized(lower, query), limit, exclude, millis)
  }

  lemma AnswersScan(lower: char -> string, millis: string -> int, run: seq<State>, schedule: Schedule, i: nat, p: Pid,
                    hits: seq<Hit>, query: string, limit: nat, exclude: Option<ThreadId>)
    requires IsRun(run, schedule) && i < |run| && PcOf(run[i], p).SearchReady? && run[i].store.cache.Some?
    requires Answers(hits, lower, millis, run[i].store.cache.value, query, limit, exclude)
    ensures AllSpared(run, schedule) && NoCutInProgress(run[i]) ==>
              Answers(hits, lower, millis, ScanUnskipped(run[i]), query, limit, exclude)
    ensures (forall k | 0 <= k < |schedule| :: !schedule[k].1.Truncate?) ==>
              Answers(hits, lower, millis, ScanAll(run[i]), query, limit, exclude)
    ensures forall n | 0 <= n < |hits| && ThreadSpared(run, schedule, i, hits[n].threadId) :: IsRowHit(run[i], hits[n])
  {
    if AllSpared(run, schedule) && NoCutInProgress(run[i]) {
      SearchReadsUnskipped(lower, millis, run, schedule, i, p);
    }
    if forall k | 0 <= k < |schedule| :: !schedule[k].1.Truncate? {
      SearchReadsLinearScan(lower, millis, run, schedule, i, p);
    }
    forall n | 0 <= n < |hits| && ThreadSpared(run, schedule, i, hits[n].threadId) ensures IsRowHit(run[i], hits[n]) {
      HitsAreRows(lower, millis, run, schedule, i, p, hits, SearchSpec.Terms(lower, query), limit, exclude, n);
    }
  }

  /** `search_cross_thread_messages` once primed, at any point of any run, on an index on which the
      run's calls were made: while fewer than 2^32 documents have been inserted, each hit whose own
      thread's truncations spare the builds is a row of its transcript. If that holds of all
      threads, the hits answer the linear scan of all transcripts at that moment, but for the
      skipped rows; without truncation nothing is skipped. */
  method SearchPrimed(lower: char -> string, millis: string -> int, ghost run: seq<State>, ghost schedule: Schedule,
                      calls: seq<Calls>, i: nat, ghost p: Pid, query: string, limit: nat, exclude: Option<ThreadId>)
    returns (hits: seq<Hit>)
    requires IsRun(run, schedule) && AreCalls(calls, run, schedule) && i < |run| && PcOf(run[i], p).SearchReady?
    requires Inserts(calls[i].cached) <= DOC_ID_SPAN
    ensures forall n | 0 <= n < |hits| && ThreadSpared(run, schedule, i, hits[n].threadId) :: IsRowHit(run[i], hits[n])
    ensures AllSpared(run, schedule) && NoCutInProgress(run[i]) ==>
              Answers(hits, lower, millis, ScanUnskipped(run[i]), query, limit, exclude)
    ensures (forall k | 0 <= k < |schedule| :: !schedule[k].1.Truncate?) ==>
              Answers(hits, lower, millis, ScanAll(run[i]), query, limit, exclude)
  {
    RunMirrors(lower, millis, run, schedule, calls, i);
    PrimedIndexPresent(run, schedule, i, p);
    var index := Replay(lower, millis, calls[i].cached);
    hits := index.Search(query, limit, exclude);
    AnswersScan(lower, millis, run, schedule, i, p, hits, query, limit, exclude);
  }
}
