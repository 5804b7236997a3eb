/**
 The conversation store as a concurrent protocol: any number of processes, one step per lock
 section, every interleaving.

 `skipped` and `stale` are history: how many leading rows of a thread the warm index leaves
 out since its last truncation, and which threads a truncation cut rows from that a running
 build already held.
 */
module StoreProtocol {
  import opened Wrappers
  import opened Types
  import opened ThreadLog
  import opened Transcript
  import opened StoreState

  type Pid = nat

  /** Where a process is inside its operation. */
  datatype Pc =
    | Idle
    // append_message
    | AppendLocked(thread: ThreadId, msg: Message)
    | AppendChecked(thread: ThreadId, msg: Message)
    | AppendWritten(thread: ThreadId, msg: Message)
    // delete_messages_from
    | TruncateStats(thread: ThreadId, kept: Rows)
    | TruncateEvict(thread: ThreadId)
    // search_cross_thread_messages
    | SearchCold
    | BuildBegin
    | BuildSnapshot
    | BuildScan(todo: set<ThreadId>, built: Index)
    | SearchReady
    // delete_thread
    | DeleteLocked(thread: ThreadId, at: string)
    | DeleteUnlink(thread: ThreadId)
    | DeleteEvict(thread: ThreadId)
    // purge_threads
    | PurgeLocked
    | PurgeEvict
  {
    /** The thread lock held here, if any. */
    function Thread(): Option<ThreadId> {
      match this
      case AppendLocked(t, _) => Some(t)
      case AppendChecked(t, _) => Some(t)
      case AppendWritten(t, _) => Some(t)
      case TruncateStats(t, _) => Some(t)
      case TruncateEvict(t) => Some(t)
      case DeleteLocked(t, _) => Some(t)
      case DeleteUnlink(t) => Some(t)
      case DeleteEvict(t) => Some(t)
      case _ => None
    }

    /** Holds the lifecycle write guard. */
    predicate Writes() {
      DeleteLocked? || DeleteUnlink? || DeleteEvict? || PurgeLocked? || PurgeEvict?
    }

    /** Holds the index-build mutex. */
    predicate Builds() {
      BuildBegin? || BuildSnapshot? || BuildScan?
    }

    /** The append journal is open. */
    predicate Journals() {
      BuildSnapshot? || BuildScan?
    }
  }

  datatype State = State(
    store: Store,
    procs: map<Pid, Pc>,
    holder: map<ThreadId, Pid>,
    builder: Option<Pid>,
    writer: Option<Pid>,
    skipped: map<ThreadId, nat>,
    stale: set<ThreadId>)

  function PcOf(s: State, p: Pid): Pc {
    if p in s.procs then s.procs[p] else Idle
  }

  function Skipped(s: State, t: ThreadId): nat {
    if t in s.skipped then s.skipped[t] else 0
  }

  /** The operations that are a single section under one thread's lock. */
  datatype Section =
    | Ensure(thread: ThreadId, title: string, createdAt: string, parent: Option<ThreadId>,
             labels: Option<seq<string>>, personality: Option<string>)
    | Retitle(thread: ThreadId, title: string, at: string)
    | Relabel(thread: ThreadId, newLabels: seq<string>, at: string)
    | UpdateMessage(thread: ThreadId, id: MessageId, extraMetadata: Option<string>)
    | Repair(thread: ThreadId)

  datatype Action =
    | Append(thread: ThreadId, msg: Message)
    | Truncate(thread: ThreadId, id: MessageId)
    | Search
    | DeleteThread(thread: ThreadId, at: string)
    | Purge
    | Run(section: Section)
    | Advance
    | Scan(thread: ThreadId)
    | FailSnapshot

  // ---- Steps ----------------------------------------------------------------------------

  function Goto(s: State, p: Pid, pc: Pc): State {
    s.(procs := s.procs[p := pc])
  }

  /** Leave the operation: drop the thread lock and the lifecycle guard. */
  function Leave(s: State, p: Pid, t: ThreadId): State {
    Goto(s, p, Idle).(holder := s.holder - {t})
  }

  predicate AllIdle(s: State) {
    forall q | q in s.procs :: s.procs[q].Idle?
  }

  /** A running build holds rows of `t` that cutting it down to `kept` removes: it has scanned
      `t`, or it has journaled a row whose id is not kept. */
  predicate BuildHoldsCut(s: State, t: ThreadId, kept: Rows) {
    && s.builder.Some? && s.store.journal.Some?
    && (!Covered(JournalRows(s.store.journal.value, t), kept)
        || var pc := PcOf(s, s.builder.value); pc.BuildScan? && t !in pc.todo)
  }

  function StartAppend(s: State, p: Pid, t: ThreadId, m: Message): State {
    Goto(s, p, AppendLocked(t, m)).(holder := s.holder[t := p])
  }

  function StartTruncate(s: State, p: Pid, t: ThreadId, id: MessageId): State {
    var rows := RowsOf(s.store, t);
    var cut := IndexOf(rows, id);
    if cut.None? then s
    else
      Goto(s, p, TruncateStats(t, rows[..cut.value])).(
        store := CutRows(s.store, t, cut.value),
        holder := s.holder[t := p],
        stale := if BuildHoldsCut(s, t, rows[..cut.value]) then s.stale + {t} else s.stale)
  }

  function StartSearch(s: State, p: Pid): State {
    Goto(s, p, if s.store.cache.Some? then SearchReady else SearchCold)
  }

  function StartDelete(s: State, p: Pid, t: ThreadId, at: string): State {
    Goto(s, p, DeleteLocked(t, at)).(holder := s.holder[t := p], writer := Some(p))
  }

  function StartPurge(s: State, p: Pid): State {
    Goto(s, p, PurgeLocked).(writer := Some(p))
  }

  function RunSection(st: Store, a: Section): Store {
    match a
    case Ensure(t, title, createdAt, parent, labels, personality) =>
      Ensured(st, t, title, createdAt, parent, labels, personality)
    case Retitle(t, title, at) => Retitled(st, t, title, at)
    case Relabel(t, labels, at) => Relabelled(st, t, labels, at)
    case UpdateMessage(t, id, meta) => MessageUpdated(st, t, id, meta)
    case Repair(t) => Repaired(st, t)
  }

  function StepAppendLocked(s: State, p: Pid, t: ThreadId, m: Message): State {
    if t in Fold(s.store.log) then Goto(s, p, AppendChecked(t, m)) else Leave(s, p, t)
  }

  function StepAppendChecked(s: State, p: Pid, t: ThreadId, m: Message): State {
    if IsDeterministicId(m.id) && IndexOf(RowsOf(s.store, t), m.id).Some? then Leave(s, p, t)
    else Goto(s, p, AppendWritten(t, m)).(store := WriteRow(s.store, t, m))
  }

  function StepAppendWritten(s: State, p: Pid, t: ThreadId, m: Message): State {
    Leave(s, p, t).(store := FinaliseAppend(s.store, t, m))
  }

  function StepTruncateStats(s: State, p: Pid, t: ThreadId, kept: Rows): State {
    Goto(s, p, TruncateEvict(t)).(store := RecordStats(s.store, t, kept))
  }

  function StepTruncateEvict(s: State, p: Pid, t: ThreadId): State {
    var s' := Leave(s, p, t).(store := EvictThread(s.store, t));
    if s.store.cache.None? then s'
    else s'.(skipped := s.skipped[t := |RowsOf(s.store, t)|], stale := s.stale - {t})
  }

  function StepSearchCold(s: State, p: Pid): State {
    if s.store.cache.Some? then Goto(s, p, SearchReady) else Goto(s, p, BuildBegin).(builder := Some(p))
  }

  function StepBuildBegin(s: State, p: Pid): State {
    Goto(s, p, BuildSnapshot).(store := s.store.(journal := Some([])), stale := {})
  }

  function StepBuildSnapshot(s: State, p: Pid): State {
    Goto(s, p, BuildScan(Fold(s.store.log).Keys, map[]))
  }

  function StepFailSnapshot(s: State, p: Pid): State {
    Goto(s, p, Idle).(store := s.store.(journal := None), builder := None)
  }

  function StepScan(s: State, p: Pid, todo: set<ThreadId>, built: Index, t: ThreadId): State {
    Goto(s, p, BuildScan(todo - {t}, ScanThread(built, s.store, t)))
  }

  function StepPublish(s: State, p: Pid, built: Index): State {
    Goto(s, p, SearchReady).(store := Publish(s.store, built), builder := None, skipped := map[])
  }

  function StepDeleteLocked(s: State, p: Pid, t: ThreadId, at: string): State {
    if t in Fold(s.store.log) then Goto(s, p, DeleteUnlink(t)).(store := Tombstone(s.store, t, at))
    else Leave(s, p, t).(writer := None)
  }

  function StepDeleteUnlink(s: State, p: Pid, t: ThreadId): State {
    Goto(s, p, DeleteEvict(t)).(store := Unlink(s.store, t))
  }

  function StepDeleteEvict(s: State, p: Pid, t: ThreadId): State {
    Leave(s, p, t).(store := EvictThread(s.store, t), writer := None,
                    skipped := s.skipped - {t}, stale := s.stale - {t})
  }

  function StepPurgeLocked(s: State, p: Pid): State {
    Goto(s, p, PurgeEvict).(store := Wipe(s.store))
  }

  function StepPurgeEvict(s: State, p: Pid): State {
    Goto(s, p, Idle).(store := DropCache(s.store), writer := None, skipped := map[], stale := {})
  }

  /** Advance inside an operation; `None` while a needed lock is taken. */
  function Continue(s: State, p: Pid): Option<State> {
    match PcOf(s, p)
    case Idle => None
    case AppendLocked(t, m) => Some(StepAppendLocked(s, p, t, m))
    case AppendChecked(t, m) => Some(StepAppendChecked(s, p, t, m))
    case AppendWritten(t, m) => Some(StepAppendWritten(s, p, t, m))
    case TruncateStats(t, kept) => Some(StepTruncateStats(s, p, t, kept))
    case TruncateEvict(t) => Some(StepTruncateEvict(s, p, t))
    case SearchCold => if s.builder.None? then Some(StepSearchCold(s, p)) else None
    case BuildBegin => Some(StepBuildBegin(s, p))
    case BuildSnapshot => Some(StepBuildSnapshot(s, p))
    case BuildScan(todo, built) => if todo == {} then Some(StepPublish(s, p, built)) else None
    case SearchReady => Some(Goto(s, p, Idle))
    case DeleteLocked(t, at) => Some(StepDeleteLocked(s, p, t, at))
    case DeleteUnlink(t) => Some(StepDeleteUnlink(s, p, t))
    case DeleteEvict(t) => Some(StepDeleteEvict(s, p, t))
    case PurgeLocked => Some(StepPurgeLocked(s, p))
    case PurgeEvict => Some(StepPurgeEvict(s, p))
  }

  /** The lifecycle guard can be taken for reading by an idle process. */
  predicate CanStart(s: State, p: Pid) {
    PcOf(s, p).Idle? && s.writer.None?
  }

  predicate CanLock(s: State, p: Pid, t: ThreadId) {
    CanStart(s, p) && t !in s.holder
  }

  predicate CanScan(s: State, p: Pid, t: ThreadId) {
    var pc := PcOf(s, p);
    pc.BuildScan? && t in pc.todo && t !in s.holder
  }

  /** The step process `p` takes for `a`, if it can take it now. */
  function Next(s: State, p: Pid, a: Action): Option<State> {
    match a
    case Append(t, m) => if CanLock(s, p, t) then Some(StartAppend(s, p, t, m)) else None
    case Truncate(t, id) => if CanLock(s, p, t) then Some(StartTruncate(s, p, t, id)) else None
    case Search => if CanStart(s, p) then Some(StartSearch(s, p)) else None
    case DeleteThread(t, at) => if CanStart(s, p) && AllIdle(s) then Some(StartDelete(s, p, t, at)) else None
    case Purge => if CanStart(s, p) && AllIdle(s) then Some(StartPurge(s, p)) else None
    case Run(op) => if CanLock(s, p, op.thread) then Some(s.(store := RunSection(s.store, op))) else None
    case Advance => Continue(s, p)
    case Scan(t) =>
      if CanScan(s, p, t) then Some(StepScan(s, p, PcOf(s, p).todo, PcOf(s, p).built, t)) else None
    case FailSnapshot => if PcOf(s, p).BuildSnapshot? then Some(StepFailSnapshot(s, p)) else None
  }

  // ---- What one thread sees -------------------------------------------------------------

  datatype Phase =
    | Free
    | Locked
    | Checked
    | Written(msg: Message)
    | Cut(kept: Rows)
    | Evicting
    | Unlinking
    | Unlinked

  function PhaseOfPc(pc: Pc): Phase {
    match pc
    case AppendLocked(_, _) => Locked
    case AppendChecked(_, _) => Checked
    case AppendWritten(_, m) => Written(m)
    case TruncateStats(_, kept) => Cut(kept)
    case TruncateEvict(_) => Evicting
    case DeleteLocked(_, _) => Locked
    case DeleteUnlink(_) => Unlinking
    case DeleteEvict(_) => Unlinked
    case _ => Free
  }

  datatype ScanState = NoScan | Todo | Done(built: Indexed)

  function ScanOfPc(pc: Pc, t: ThreadId): ScanState {
    match pc
    case BuildSnapshot => Todo
    case BuildScan(todo, built) => if t in todo then Todo else Done(Of(built, t))
    case _ => NoScan
  }

  /** Everything the invariant says about one thread. */
  datatype View = View(
    entry: Option<ThreadEntry>,
    rows: Rows,
    phase: Phase,
    cached: Option<Indexed>,
    journal: Option<Rows>,
    scan: ScanState,
    skipped: nat,
    stale: bool,
    wiped: bool)

  function PhaseOf(s: State, t: ThreadId): Phase {
    if t in s.holder then PhaseOfPc(PcOf(s, s.holder[t])) else Free
  }

  function ScanOf(s: State, t: ThreadId): ScanState {
    if s.builder.Some? then ScanOfPc(PcOf(s, s.builder.value), t) else NoScan
  }

  function Wiped(s: State): bool {
    s.writer.Some? && PcOf(s, s.writer.value).PurgeEvict?
  }

  function ViewOf(s: State, t: ThreadId): View {
    View(
      FoldThread(s.store.log, t),
      RowsOf(s.store, t),
      PhaseOf(s, t),
      if s.store.cache.Some? then Some(Of(s.store.cache.value, t)) else None,
      if s.store.journal.Some? then Some(JournalRows(s.store.journal.value, t)) else None,
      ScanOf(s, t),
      Skipped(s, t),
      t in s.stale,
      Wiped(s))
  }

  /** The rows whose append has finalised, as the index sees them. */
  function Final(v: View): Rows {
    SearchableRows(if v.phase.Written? && v.rows != [] then v.rows[..|v.rows| - 1] else v.rows)
  }

  /** A dead thread has no rows; a row being appended is the last one. */
  predicate RowsOk(v: View) {
    && (v.rows != [] && !v.phase.Unlinking? ==> v.entry.Some?)
    && (v.phase.Checked? || v.phase.Written? || v.phase.Cut? || v.phase.Evicting? ==> v.entry.Some?)
    && (v.phase.Unlinking? || v.phase.Unlinked? ==> v.entry.None?)
    && (v.phase.Written? ==> v.rows != [] && v.rows[|v.rows| - 1] == v.phase.msg)
    && (v.phase.Cut? ==> v.phase.kept == v.rows)
    && (v.phase.Unlinked? || v.wiped ==> v.rows == [])
  }

  /** The folded stats are missing or what a full scan of the finalised rows would measure. */
  predicate TrailOk(v: View) {
    v.entry.Some? && !v.phase.Cut? ==>
      && (v.entry.value.messageCount.Some? ==> v.entry.value.messageCount.value == |Final(v)|)
      && (v.entry.value.lastMessageAt.Some? ==> v.entry.value.lastMessageAt.value == LastTime(v.entry, Final(v)))
  }

  /** No operation is between changing this thread's rows and bringing the warm index in line. */
  predicate Settled(v: View) {
    !v.wiped && !v.phase.Cut? && !v.phase.Evicting? && !v.phase.Unlinking? && !v.phase.Unlinked?
  }

  /** A warm index holds exactly the finalised rows after the skipped ones, first row per id. */
  predicate CacheOk(v: View) {
    v.cached.Some? && Settled(v) && !v.stale ==>
      v.skipped <= |Final(v)| && v.cached.value == FirstOf(Final(v)[v.skipped..])
  }

  /** What a running build has of this thread, plus its journal, makes up the finalised rows. */
  predicate BuildOk(v: View) {
    && (v.journal.Some? <==> !v.scan.NoScan?)
    && (v.journal.Some? ==> v.cached.None?)
    && (v.journal.Some? && !v.stale ==>
          if v.scan.Todo? then Covered(v.journal.value, Final(v))
          else v.scan.Done? && AddRows(v.scan.built, v.journal.value) == FirstOf(Final(v)))
  }

  /** Stale or not, a warm index has every finalised row's id after the skipped ones, and so will
      what a running build publishes. */
  predicate CompleteOk(v: View) {
    && (v.cached.Some? && Settled(v) ==>
          v.skipped <= |Final(v)| && forall i | v.skipped <= i < |Final(v)| :: Final(v)[i].id in v.cached.value)
    && (v.journal.Some? && v.scan.Done? ==>
          forall i | 0 <= i < |Final(v)| :: Final(v)[i].id in AddRows(v.scan.built, v.journal.value))
  }

  /** What the index rests on. It needs neither right trails nor unique deterministic ids. */
  predicate ThreadOk(v: View) {
    RowsOk(v) && CacheOk(v) && BuildOk(v) && CompleteOk(v)
  }

  /** `w` comes after `v`: it is right, and so are its trail and its ids if those of `v` were. */
  predicate Keeps(v: View, w: View) {
    ThreadOk(w) && (TrailOk(v) ==> TrailOk(w)) && (UniqueAgentIds(v.rows) ==> UniqueAgentIds(w.rows))
  }

  // ---- Locks ----------------------------------------------------------------------------

  /** The recorded holder of a thread lock is inside an operation on that thread. */
  predicate HolderOk(s: State, t: ThreadId) {
    t in s.holder ==> PcOf(s, s.holder[t]).Thread() == Some(t)
  }

  predicate ProcOk(s: State, p: Pid) {
    var pc := PcOf(s, p);
    && (pc.Thread().Some? ==> pc.Thread().value in s.holder && s.holder[pc.Thread().value] == p)
    && (pc.Builds() ==> s.builder == Some(p))
    && (pc.Writes() ==> s.writer == Some(p))
    && (s.writer.Some? && s.writer != Some(p) ==> pc.Idle?)
    && (pc.SearchReady? ==> s.store.cache.Some?)
  }

  /** A thread still to be scanned has nothing in the index under construction. */
  predicate ScanOk(pc: Pc) {
    pc.BuildScan? ==> pc.todo !! pc.built.Keys
  }

  /** The index is cold while it is built, and the journal is open exactly during the scan. */
  predicate BuildMutexOk(s: State) {
    && (s.builder.Some? ==> ScanOk(PcOf(s, s.builder.value)))
    && (s.builder.Some? ==> PcOf(s, s.builder.value).Builds() && s.store.cache.None?)
    && (s.writer.Some? ==> PcOf(s, s.writer.value).Writes())
    && (s.store.journal.Some? <==> s.builder.Some? && PcOf(s, s.builder.value).Journals())
  }

  ghost predicate LocksOk(s: State) {
    && (forall t: ThreadId :: HolderOk(s, t))
    && (forall p: Pid :: ProcOk(s, p))
    && BuildMutexOk(s)
  }

  ghost predicate Inv(s: State) {
    LocksOk(s) && forall t: ThreadId :: ThreadOk(ViewOf(s, t))
  }

  /** A freshly started process over a root in which dead threads have no transcript. Trails may be
      wrong and deterministic ids repeated. */
  ghost predicate Init(s: State) {
    && s.procs == map[] && s.holder == map[] && s.builder == None && s.writer == None
    && s.skipped == map[] && s.stale == {}
    && s.store.cache == None && s.store.journal == None
    && forall t: ThreadId :: RowsOk(ViewOf(s, t))
  }

  lemma InitInv(s: State)
    requires Init(s)
    ensures Inv(s)
  {
  }
}
