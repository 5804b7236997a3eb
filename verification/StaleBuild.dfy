/** Runs in which truncation overlaps a cold build: the published index keeps a removed row, or the
    late eviction loses the kept ones. */
module StaleBuild {
  import opened Wrappers
  import opened Types
  import opened ThreadLog
  import opened Transcript
  import opened StoreState
  import opened StoreProtocol
  import opened StoreTheorems

  /** One live thread with some rows, nothing running. */
  function Stocked(t: ThreadId, rows: Rows): State {
    State(Store([Upsert(t, "", "", "", None, Some([]), None)], map[t := rows], None, None),
          map[], map[], None, None, map[], {})
  }

  lemma StockedInit(t: ThreadId, rows: Rows)
    ensures Init(Stocked(t, rows))
    ensures Fold(Stocked(t, rows).store.log).Keys == {t}
  {
    var s := Stocked(t, rows);
    var log := s.store.log;
    assert log[..0] == [];
    forall u: ThreadId ensures RowsOk(ViewOf(s, u)) {
      assert FoldThread(log, u) == if u == t then ApplyOwn(None, log[0]) else None;
    }
  }

  /** The builder (process 0) has scanned the only thread; nothing else has moved. */
  function Scanned(t: ThreadId, rows: Rows): State {
    Stocked(t, rows).(
      store := Stocked(t, rows).store.(journal := Some([])),
      procs := map[0 := BuildScan({}, map[t := AddRows(map[], rows)])],
      builder := Some(0))
  }

  /** Just after the builder's snapshot. */
  function Snapshotted(t: ThreadId, rows: Rows): State {
    Scanned(t, rows).(procs := map[0 := BuildScan({t}, map[])])
  }

  lemma ReachSnapshot(t: ThreadId, rows: Rows) returns (run: seq<State>, schedule: Schedule)
    ensures IsRun(run, schedule) && run[|run| - 1] == Snapshotted(t, rows)
  {
    StockedInit(t, rows);
    var s0 := Stocked(t, rows);
    var s1 := StartSearch(s0, 0);
    var s2 := StepSearchCold(s1, 0);
    var s3 := StepBuildBegin(s2, 0);
    var s4 := StepBuildSnapshot(s3, 0);
    assert s4.procs == map[0 := BuildScan({t}, map[])];
    run := [s0, s1, s2, s3, s4];
    schedule := [(0, Search), (0, Advance), (0, Advance), (0, Advance)];
  }

  lemma ScanTheThread(t: ThreadId, rows: Rows)
    ensures Next(Snapshotted(t, rows), 0, Scan(t)) == Some(Scanned(t, rows))
  {
    var s5 := StepScan(Snapshotted(t, rows), 0, {t}, map[], t);
    assert {t} - {t} == {};
    assert s5.procs == map[0 := BuildScan({}, map[t := AddRows(map[], rows)])];
  }

  lemma ReachScanned(t: ThreadId, rows: Rows) returns (run: seq<State>, schedule: Schedule)
    ensures IsRun(run, schedule) && run[|run| - 1] == Scanned(t, rows)
  {
    run, schedule := ReachSnapshot(t, rows);
    ScanTheThread(t, rows);
    run, schedule := Extend(run, schedule, 0, Scan(t), Scanned(t, rows));
  }

  /** A run goes on by one step. */
  lemma Extend(run: seq<State>, schedule: Schedule, p: Pid, a: Action, s': State)
    returns (run': seq<State>, schedule': Schedule)
    requires IsRun(run, schedule) && Next(run[|run| - 1], p, a) == Some(s')
    ensures IsRun(run', schedule') && run' == run + [s'] && schedule' == schedule + [(p, a)]
  {
    run', schedule' := run + [s'], schedule + [(p, a)];
    forall i | 0 <= i < |schedule'| ensures IsStep(run', schedule', i) {
      assert i < |schedule| ==> IsStep(run, schedule, i);
    }
  }

  /** After the scan, process 1 has cut the thread down to `rows[..k]`. */
  function Truncated(t: ThreadId, rows: Rows, k: nat): State
    requires k <= |rows|
  {
    var s := Scanned(t, rows);
    s.(store := s.store.(transcripts := map[t := rows[..k]]),
       procs := s.procs[1 := TruncateStats(t, rows[..k])], holder := map[t := 1], stale := {t})
  }

  lemma ReachTruncated(t: ThreadId, rows: Rows, k: nat) returns (run: seq<State>, schedule: Schedule)
    requires k < |rows| && IndexOf(rows, rows[k].id) == Some(k)
    ensures IsRun(run, schedule) && |run| > 1 && run[|run| - 1] == Truncated(t, rows, k)
    ensures run[|run| - 2] == Scanned(t, rows) && schedule[|schedule| - 1] == (1, Truncate(t, rows[k].id))
  {
    run, schedule := ReachScanned(t, rows);
    var s5 := Scanned(t, rows);
    assert BuildHoldsCut(s5, t, rows[..k]);
    assert StartTruncate(s5, 1, t, rows[k].id) == Truncated(t, rows, k) by {
      assert s5.store.transcripts[t := rows[..k]] == map[t := rows[..k]];
    }
    run, schedule := Extend(run, schedule, 1, Truncate(t, rows[k].id), Truncated(t, rows, k));
  }

  function PublishedIndex(t: ThreadId, rows: Rows): Index {
    map[t := AddRows(map[], rows)]
  }

  /** The truncation goes on to its end, then the build publishes. */
  function EarlyEnd(t: ThreadId, m: Message): seq<State> {
    var s6 := Truncated(t, [m], 0);
    var s7 := StepTruncateStats(s6, 1, t, [m][..0]);
    var s8 := StepTruncateEvict(s7, 1, t);
    [s7, s8, StepPublish(s8, 0, PublishedIndex(t, [m]))]
  }

  lemma EarlyEndSteps(t: ThreadId, m: Message)
    ensures var s6, end := Truncated(t, [m], 0), EarlyEnd(t, m);
            && Next(s6, 1, Advance) == Some(end[0])
            && Next(end[0], 1, Advance) == Some(end[1])
  {
  }

  lemma EarlyEndPublishes(t: ThreadId, m: Message)
    ensures var end := EarlyEnd(t, m);
            Next(end[1], 0, Advance) == Some(end[2])
  {
  }

  lemma EarlyEndIs(t: ThreadId, m: Message)
    ensures var last := EarlyEnd(t, m)[2];
            && RowsOf(last.store, t) == []
            && last.store.cache.Some? && m.id in Of(last.store.cache.value, t)
            && t in last.stale && last.writer.None? && last.holder == map[]
  {
    AddRowsKeys(map[], [m]);
    assert [m][0].id == m.id;
  }

  /** Truncating the thread now and publishing when the truncation is over leaves the removed rows
      in a warm index, with no operation left running. */
  lemma StaleBuildKeepsRemovedRow(t: ThreadId, m: Message) returns (run: seq<State>, schedule: Schedule)
    ensures IsRun(run, schedule)
    ensures var last := run[|run| - 1];
            && RowsOf(last.store, t) == []
            && last.store.cache.Some? && m.id in Of(last.store.cache.value, t)
            && t in last.stale && last.writer.None? && last.holder == map[]
  {
    var end := EarlyEnd(t, m);
    EarlyEndSteps(t, m);
    EarlyEndPublishes(t, m);
    EarlyEndIs(t, m);
    run, schedule := ReachTruncated(t, [m], 0);
    run, schedule := Extend(run, schedule, 1, Advance, end[0]);
    run, schedule := Extend(run, schedule, 1, Advance, end[1]);
    run, schedule := Extend(run, schedule, 0, Advance, end[2]);
  }

  /** The build publishes, then the truncation goes on to its end. */
  function LateEnd(t: ThreadId, rows: Rows): seq<State>
    requires |rows| > 0
  {
    var s6 := Truncated(t, rows, 1);
    var s7 := StepPublish(s6, 0, PublishedIndex(t, rows));
    var s8 := StepTruncateStats(s7, 1, t, rows[..1]);
    [s7, s8, StepTruncateEvict(s8, 1, t)]
  }

  lemma LateEndPublishes(t: ThreadId, rows: Rows)
    requires |rows| > 0
    ensures Next(Truncated(t, rows, 1), 0, Advance) == Some(LateEnd(t, rows)[0])
  {
  }

  lemma LateEndSteps(t: ThreadId, rows: Rows)
    requires |rows| > 0
    ensures var end := LateEnd(t, rows);
            && Next(end[0], 1, Advance) == Some(end[1])
            && Next(end[1], 1, Advance) == Some(end[2])
  {
  }

  lemma LateEndIs(t: ThreadId, rows: Rows)
    requires |rows| > 0
    ensures var last := LateEnd(t, rows)[2];
            && RowsOf(last.store, t) == rows[..1]
            && last.store.cache.Some? && Of(last.store.cache.value, t) == map[]
            && last.stale == {} && last.holder == map[] && last.writer.None? && PcOf(last, 0).SearchReady?
  {
    assert {t} - {t} == {};
  }

  /** Publishing before the truncation evicts leaves the kept row out of a warm index, although the
      index was cold at the call: no thread is stale, no lock held, and the next search misses it. */
  lemma LateEvictionLosesKeptRow(t: ThreadId, a: Message, b: Message)
    returns (run: seq<State>, schedule: Schedule, call: nat)
    requires a.id != b.id
    ensures IsRun(run, schedule) && call < |schedule| && schedule[call] == (1, Truncate(t, b.id))
    ensures run[call].store.cache.None? && RowsOf(run[call].store, t) == [a, b]
    ensures var last := run[|run| - 1];
            && RowsOf(last.store, t) == [a]
            && last.store.cache.Some? && a.id !in Of(last.store.cache.value, t)
            && last.stale == {} && last.holder == map[] && last.writer.None? && PcOf(last, 0).SearchReady?
  {
    var rows := [a, b];
    assert rows[1..] == [b] && rows[..1] == [a];
    assert IndexOf(rows, b.id) == Some(1);
    var end := LateEnd(t, rows);
    LateEndPublishes(t, rows);
    LateEndSteps(t, rows);
    LateEndIs(t, rows);
    run, schedule := ReachTruncated(t, rows, 1);
    call := |schedule| - 1;
    run, schedule := Extend(run, schedule, 0, Advance, end[0]);
    run, schedule := Extend(run, schedule, 1, Advance, end[1]);
    run, schedule := Extend(run, schedule, 1, Advance, end[2]);
  }
}
