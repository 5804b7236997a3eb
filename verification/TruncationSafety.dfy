/** Which truncations can make a search return a removed row: exactly those that cut rows a
    running cold build already holds. */
module TruncationSafety {
  import opened Wrappers
  import opened Types
  import opened ThreadLog
  import opened Transcript
  import opened StoreState
  import opened StoreProtocol
  import opened StoreSafety
  import opened StoreViews
  import opened StoreTheorems

  /** The cut that truncating `t` at `id` would make now removes rows a running build holds. */
  predicate CutsBuild(s: State, t: ThreadId, id: MessageId) {
    var rows := RowsOf(s.store, t);
    var cut := IndexOf(rows, id);
    cut.Some? && BuildHoldsCut(s, t, rows[..cut.value])
  }

  /** No truncation of `t` cuts rows a build holds. Truncations of other threads, and cuts of
      `t` ahead of the scan that keep every journaled id, are free. */
  ghost predicate BuildsSpared(run: seq<State>, schedule: Schedule, t: ThreadId)
    requires |run| == |schedule| + 1
  {
    forall k, id | 0 <= k < |schedule| && schedule[k].1 == Truncate(t, id) :: !CutsBuild(run[k], t, id)
  }

  lemma AdvanceKeepsFresh(s: State, p: Pid, s': State, t: ThreadId)
    requires Continue(s, p) == Some(s') && t !in s.stale
    ensures t !in s'.stale
  {
    var pc := PcOf(s, p);
    if pc.Writes() {
      WriterQuiet(s, p, s');
    } else if pc.Thread().None? {
      SearchQuiet(s, p, s');
    } else if !Truncates(pc) {
      AppendQuiet(s, p, s');
    } else if pc.TruncateStats? {
      assert s' == StepTruncateStats(s, p, pc.thread, pc.kept);
    } else {
      assert s' == StepTruncateEvict(s, p, pc.thread);
    }
  }

  lemma StepKeepsFresh(s: State, p: Pid, a: Action, s': State, t: ThreadId)
    requires Next(s, p, a) == Some(s') && t !in s.stale
    requires forall id | a == Truncate(t, id) :: !CutsBuild(s, t, id)
    ensures t !in s'.stale
  {
    if a.Advance? {
      AdvanceKeepsFresh(s, p, s', t);
    }
  }

  /** Only a truncation that cuts rows a build holds leaves a thread stale. */
  lemma {:induction false} SparedNeverStale(run: seq<State>, schedule: Schedule, i: nat, t: ThreadId)
    requires IsRun(run, schedule) && i < |run| && BuildsSpared(run, schedule, t)
    ensures t !in run[i].stale
  {
    if i > 0 {
      SparedNeverStale(run, schedule, i - 1, t);
      assert IsStep(run, schedule, i - 1);
      StepKeepsFresh(run[i - 1], schedule[i - 1].0, schedule[i - 1].1, run[i], t);
    }
  }

  lemma UnlockedIsSettled(s: State, t: ThreadId)
    requires t !in s.holder && s.writer.None?
    ensures Settled(ViewOf(s, t))
  {
  }

  /** Soundness: in a run whose truncations of `t` spare the builds, whenever no operation is
      inside `t`, everything the warm index holds for `t` is a row of its transcript, and what it
      leaves out are only rows before the last truncation on a warm index. */
  lemma NoRemovedRowIsHit(run: seq<State>, schedule: Schedule, i: nat, t: ThreadId, id: MessageId)
    requires IsRun(run, schedule) && i < |run| && BuildsSpared(run, schedule, t)
    requires t !in run[i].holder && run[i].writer.None? && run[i].store.cache.Some?
    ensures id in Of(run[i].store.cache.value, t) ==>
              exists k | 0 <= k < |RowsOf(run[i].store, t)| ::
                Searchable(RowsOf(run[i].store, t)[k]) == Of(run[i].store.cache.value, t)[id]
    ensures forall k | Skipped(run[i], t) <= k < |FinalRows(run[i], t)| ::
              FinalRows(run[i], t)[k].id in Of(run[i].store.cache.value, t)
  {
    var s := run[i];
    SparedNeverStale(run, schedule, i, t);
    UnlockedIsSettled(s, t);
    WarmIndexExact(run, schedule, i, t);
    if id in Of(s.store.cache.value, t) {
      IndexedIsDurable(run, schedule, i, t, id);
    }
    var indexed := FinalRows(s, t)[Skipped(s, t)..];
    forall k | Skipped(s, t) <= k < |FinalRows(s, t)| ensures FinalRows(s, t)[k].id in FirstOf(indexed) {
      var j := k - Skipped(s, t);
      assert indexed[j] == FinalRows(s, t)[k];
      IndexOfExact(indexed, indexed[j].id);
      FirstOfMeaning(indexed, indexed[j].id);
    }
  }

  /** At most one process builds, and its journal is closed when it begins. */
  lemma BuildsAreSerialized(run: seq<State>, schedule: Schedule, i: nat, p: Pid, q: Pid)
    requires IsRun(run, schedule) && i < |run|
    requires PcOf(run[i], p).Builds() && PcOf(run[i], q).Builds()
    ensures p == q
    ensures PcOf(run[i], p).BuildBegin? ==> run[i].store.journal.None?
  {
    RunKeepsInv(run, schedule, i);
    assert ProcOk(run[i], p) && ProcOk(run[i], q);
  }
}
