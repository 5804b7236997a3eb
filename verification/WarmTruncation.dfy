/** What a truncation on a warm index costs, and for how long. */
module WarmTruncation {
  import opened Wrappers
  import opened Types
  import opened ThreadLog
  import opened Transcript
  import opened StoreState
  import opened StoreProtocol
  import opened StoreSafety
  import opened StoreTheorems
  import opened SoloStore

  /** Every row's id is indexed. */
  predicate AllIndexed(rows: Rows, indexed: Indexed) {
    forall k | 0 <= k < |rows| :: rows[k].id in indexed
  }

  /** The eviction that ends a truncation on a warm index leaves the kept rows indexed exactly if
      there are none. */
  lemma EvictionKeepsIndexIff(s: State, p: Pid, t: ThreadId)
    requires Inv(s) && PcOf(s, p) == TruncateEvict(t) && s.store.cache.Some?
    ensures var s' := StepTruncateEvict(s, p, t);
            && Next(s, p, Advance) == Some(s')
            && (AllIndexed(RowsOf(s'.store, t), Of(s'.store.cache.value, t)) <==> RowsOf(s.store, t) == [])
  {
    assert RowsOf(s.store, t) != [] ==> RowsOf(s.store, t)[0].id !in Of(EvictThread(s.store, t).cache.value, t);
  }

  /** The index the next search uses: the warm one, or else a freshly built one. */
  function NextIndex(st: Store, full: Index): Index {
    if st.cache.Some? then st.cache.value else full
  }

  /** For the caller of a truncation that cuts at `cut`: the next search has every kept row
      indexed if and only if the index is cold at the call or no row is kept. */
  lemma TruncateKeepsIndexIff(st: Store, skipped: map<ThreadId, nat>, t: ThreadId, id: MessageId, full: Index)
    requires Healthy(st, skipped) && IndexOf(RowsOf(st, t), id).Some?
    requires IsFullIndex(full, SoloTruncate(st, t, id))
    ensures var after := SoloTruncate(st, t, id);
            AllIndexed(RowsOf(after, t), Of(NextIndex(after, full), t))
            <==> st.cache.None? || IndexOf(RowsOf(st, t), id).value == 0
  {
    var after := SoloTruncate(st, t, id);
    var kept := RowsOf(after, t);
    assert kept == RowsOf(st, t)[..IndexOf(RowsOf(st, t), id).value];
    if st.cache.None? {
      forall k | 0 <= k < |kept| ensures kept[k].id in Of(full, t) {
        FirstOfMeaning(SearchableRows(kept), kept[k].id);
        IndexOfExact(SearchableRows(kept), kept[k].id);
        assert SearchableRows(kept)[k].id == kept[k].id;
      }
    } else {
      assert Of(NextIndex(after, full), t) == map[];
      assert kept != [] ==> kept[0].id !in Of(NextIndex(after, full), t);
    }
  }

  // ---- For how long ---------------------------------------------------------------------------

  /** The index is warm, and everything it holds or is about to hold of `t` is in `later`. */
  ghost predicate OnlyLater(s: State, t: ThreadId, later: set<MessageId>) {
    && s.store.cache.Some?
    && (forall id | id in Of(s.store.cache.value, t) :: id in later)
    && (forall q: Pid :: AppendsTo(PcOf(s, q), t) ==> PcOf(s, q).msg.id in later)
    && (forall q: Pid :: !PcOf(s, q).PurgeLocked? && !PcOf(s, q).PurgeEvict?)
  }

  lemma WarmExcludesBuild(s: State, p: Pid)
    requires LocksOk(s) && s.store.cache.Some?
    ensures !PcOf(s, p).Builds() && s.builder.None?
  {
    assert ProcOk(s, p);
  }

  /** A step of `p` on a warm index indexes at most the row `p` is appending. */
  lemma AdvanceIndexes(s: State, p: Pid, s': State, t: ThreadId)
    requires LocksOk(s) && Continue(s, p) == Some(s') && s.store.cache.Some? && !PcOf(s, p).PurgeEvict?
    ensures s'.store.cache.Some?
    ensures forall id | id in Of(s'.store.cache.value, t) ::
              id in Of(s.store.cache.value, t) || (AppendsTo(PcOf(s, p), t) && id == PcOf(s, p).msg.id)
  {
    WarmExcludesBuild(s, p);
  }

  lemma AdvanceStaysLater(s: State, p: Pid, s': State, t: ThreadId, later: set<MessageId>)
    requires LocksOk(s) && Continue(s, p) == Some(s') && OnlyLater(s, t, later)
    ensures OnlyLater(s', t, later)
  {
    AdvanceIndexes(s, p, s', t);
    AdvanceMovesOne(s, p, s');
    AdvanceGoesTo(s, p, s', t);
  }

  lemma StartStaysLater(s: State, p: Pid, a: Action, s': State, t: ThreadId, later: set<MessageId>)
    requires LocksOk(s) && Next(s, p, a) == Some(s') && !a.Purge? && !a.Advance? && OnlyLater(s, t, later)
    ensures OnlyLater(s', t, later + AppendedBy(a, t))
  {
    WarmExcludesBuild(s, p);
    assert forall q: Pid | q != p :: PcOf(s', q) == PcOf(s, q);
    assert s'.store.cache == s.store.cache;
  }

  lemma StepStaysLater(s: State, p: Pid, a: Action, s': State, t: ThreadId, later: set<MessageId>)
    requires LocksOk(s) && Next(s, p, a) == Some(s') && !a.Purge? && OnlyLater(s, t, later)
    ensures OnlyLater(s', t, later + AppendedBy(a, t))
  {
    if a.Advance? {
      AdvanceStaysLater(s, p, s', t, later);
    } else {
      StartStaysLater(s, p, a, s', t, later);
    }
  }

  lemma {:induction false} RunStaysLater(run: seq<State>, schedule: Schedule, k: nat, n: nat, t: ThreadId)
    requires IsRun(run, schedule) && k <= n < |run| && OnlyLater(run[k], t, {})
    requires forall j | k <= j < n :: !schedule[j].1.Purge?
    ensures OnlyLater(run[n], t, AppendedIn(schedule, k, n, t))
  {
    if k < n {
      RunStaysLater(run, schedule, k, n - 1, t);
      RunKeepsInv(run, schedule, n - 1);
      StepStaysLater(run[n - 1], schedule[n - 1].0, schedule[n - 1].1, run[n], t,
                     AppendedIn(schedule, k, n - 1, t));
    }
  }

  lemma EvictionLeavesNothing(s: State, p: Pid, t: ThreadId, s': State)
    requires Inv(s) && PcOf(s, p) == TruncateEvict(t) && s.store.cache.Some? && Next(s, p, Advance) == Some(s')
    ensures OnlyLater(s', t, {})
  {
    Mover(s, p);
    forall q: Pid ensures !AppendsTo(PcOf(s', q), t) && !PcOf(s', q).PurgeLocked? && !PcOf(s', q).PurgeEvict? {
      assert ProcOk(s, q);
    }
  }

  /** After a truncation of `t` that ends on a warm index, until a purge: the index stays warm, no
      search builds it again, and of `t` it holds only ids appended since. The kept rows stay out
      unless their ids are appended again. */
  lemma WarmTruncationForgetsKept(run: seq<State>, schedule: Schedule, k: nat, n: nat, t: ThreadId, q: Pid)
    requires IsRun(run, schedule) && k < n < |run|
    requires schedule[k].1.Advance? && PcOf(run[k], schedule[k].0) == TruncateEvict(t) && run[k].store.cache.Some?
    requires forall j | k < j < n :: !schedule[j].1.Purge?
    ensures run[n].store.cache.Some? && !PcOf(run[n], q).Builds()
    ensures Of(run[n].store.cache.value, t).Keys <= AppendedIn(schedule, k + 1, n, t)
  {
    RunKeepsInv(run, schedule, k);
    assert IsStep(run, schedule, k);
    EvictionLeavesNothing(run[k], schedule[k].0, t, run[k + 1]);
    RunStaysLater(run, schedule, k + 1, n, t);
    RunKeepsInv(run, schedule, n);
    WarmExcludesBuild(run[n], q);
  }
}
