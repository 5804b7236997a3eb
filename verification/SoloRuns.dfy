/** An operation whose lock sections run without interruption does what the whole operation of
    `SoloStore` does. */
module SoloRuns {
  import opened Wrappers
  import opened Types
  import opened ThreadLog
  import opened Transcript
  import opened StoreState
  import opened StoreProtocol
  import opened SoloStore

  /** Process `p` goes on alone, for at most `sections` sections. */
  function Alone(s: State, p: Pid, sections: nat): State
    decreases sections
  {
    if sections == 0 || Continue(s, p).None? then s else Alone(Continue(s, p).value, p, sections - 1)
  }

  lemma AloneStep(s: State, p: Pid, sections: nat, s': State)
    requires sections > 0 && Continue(s, p) == Some(s')
    ensures Alone(s, p, sections) == Alone(s', p, sections - 1)
  {
  }

  lemma AloneIdle(s: State, p: Pid, sections: nat)
    requires PcOf(s, p).Idle?
    ensures Alone(s, p, sections) == s
  {
  }

  lemma AppendAlone(s: State, p: Pid, t: ThreadId, m: Message)
    requires CanLock(s, p, t)
    ensures var end := Alone(StartAppend(s, p, t, m), p, 3);
            PcOf(end, p).Idle? && end.store == SoloAppend(s.store, t, m) && end.holder == s.holder
  {
    var s1 := StartAppend(s, p, t, m);
    var s2 := StepAppendLocked(s1, p, t, m);
    AloneStep(s1, p, 3, s2);
    assert s1.holder - {t} == s.holder;
    if t !in Fold(s.store.log) {
      AloneIdle(s2, p, 2);
    } else {
      var s3 := StepAppendChecked(s2, p, t, m);
      AloneStep(s2, p, 2, s3);
      if AppendRepeats(s.store, t, m) {
        AloneIdle(s3, p, 1);
      } else {
        AloneStep(s3, p, 1, StepAppendWritten(s3, p, t, m));
      }
    }
  }

  /** The last two sections of a truncation. */
  lemma TruncateRest(s: State, p: Pid, t: ThreadId, kept: Rows)
    requires PcOf(s, p) == TruncateStats(t, kept)
    ensures var end := Alone(s, p, 2);
            && PcOf(end, p).Idle? && end.store == EvictThread(RecordStats(s.store, t, kept), t)
            && end.holder == s.holder - {t}
            && end.skipped == if s.store.cache.None? then s.skipped else s.skipped[t := |RowsOf(s.store, t)|]
  {
    var s' := StepTruncateStats(s, p, t, kept);
    AloneStep(s, p, 2, s');
    AloneStep(s', p, 1, StepTruncateEvict(s', p, t));
  }

  lemma TruncateAlone(s: State, p: Pid, t: ThreadId, id: MessageId)
    requires CanLock(s, p, t)
    ensures var end := Alone(StartTruncate(s, p, t, id), p, 2);
            && PcOf(end, p).Idle? && end.store == SoloTruncate(s.store, t, id) && end.holder == s.holder
            && end.skipped == SkippedAfterTruncate(s.store, s.skipped, t, id)
  {
    var s1 := StartTruncate(s, p, t, id);
    var cut := IndexOf(RowsOf(s.store, t), id);
    if cut.None? {
      AloneIdle(s1, p, 2);
    } else {
      TruncateRest(s1, p, t, RowsOf(s.store, t)[..cut.value]);
      assert s1.holder - {t} == s.holder;
    }
  }

  lemma DeleteRest(s: State, p: Pid, t: ThreadId)
    requires PcOf(s, p) == DeleteUnlink(t)
    ensures var end := Alone(s, p, 2);
            && PcOf(end, p).Idle? && end.store == EvictThread(Unlink(s.store, t), t)
            && end.holder == s.holder - {t} && end.writer.None?
  {
    var s' := StepDeleteUnlink(s, p, t);
    AloneStep(s, p, 2, s');
    AloneStep(s', p, 1, StepDeleteEvict(s', p, t));
  }

  lemma DeleteAlone(s: State, p: Pid, t: ThreadId, at: string)
    requires CanStart(s, p) && t !in s.holder
    ensures var end := Alone(StartDelete(s, p, t, at), p, 3);
            && PcOf(end, p).Idle? && end.store == SoloDelete(s.store, t, at)
            && end.holder == s.holder && end.writer.None?
  {
    var s1 := StartDelete(s, p, t, at);
    var s2 := StepDeleteLocked(s1, p, t, at);
    AloneStep(s1, p, 3, s2);
    assert s1.holder - {t} == s.holder;
    if t !in Fold(s.store.log) {
      AloneIdle(s2, p, 2);
    } else {
      DeleteRest(s2, p, t);
    }
  }

  lemma PurgeAlone(s: State, p: Pid)
    requires CanStart(s, p)
    ensures var end := Alone(StartPurge(s, p), p, 2);
            PcOf(end, p).Idle? && end.store == SoloPurge(s.store) && end.writer.None?
  {
    var s1 := StartPurge(s, p);
    var s2 := StepPurgeLocked(s1, p);
    AloneStep(s1, p, 2, s2);
    AloneStep(s2, p, 1, StepPurgeEvict(s2, p));
  }
}
