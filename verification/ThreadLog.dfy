/** The append-only thread log (`threads.jsonl`) and its fold into per-thread state. */
module ThreadLog {
  import opened Wrappers
  import opened Types
  import Ranking

  datatype LogEntry =
    | Upsert(
        threadId: ThreadId,
        title: string,
        createdAt: string,
        updatedAt: string,
        parent: Option<ThreadId>,
        labels: Option<seq<string>>,
        personality: Option<string>)
    | Delete(threadId: ThreadId, deletedAt: string)
    | MessageAppended(threadId: ThreadId, lastMessageAt: string)
    | Stats(threadId: ThreadId, messageCount: nat, lastMessageAt: string)

  /** Folded state of one thread; a missing count or time has no trail yet. */
  datatype ThreadEntry = ThreadEntry(
    title: string,
    createdAt: string,
    parent: Option<ThreadId>,
    labels: seq<string>,
    messageCount: Option<nat>,
    lastMessageAt: Option<string>,
    personality: Option<string>)

  type Log = seq<LogEntry>

  type ThreadIndex = map<ThreadId, ThreadEntry>

  function Or<T>(a: Option<T>, b: Option<T>): Option<T> {
    if a.Some? then a else b
  }

  // ---- Labels ---------------------------------------------------------------------------

  function InferLabels(threadId: ThreadId): seq<string> {
    if threadId == "proactive:morning_briefing" then ["briefing"]
    else if "proactive:" <= threadId then ["notification"]
    else ["general"]
  }

  function CanonicalLabel(tag: string): string {
    if tag == "work" || tag == "from_reflection" || tag == "subconscious_tick" || tag == "subconscious"
    then "general"
    else if tag == "agent-task" || tag == "worker" then "tasks"
    else tag
  }

  function PushNew(labels: seq<string>, tag: string): seq<string> {
    if tag in labels then labels else labels + [tag]
  }

  /** Canonical spellings, first occurrences only. */
  function NormalizedLabels(labels: seq<string>): seq<string> {
    if labels == [] then []
    else PushNew(NormalizedLabels(labels[..|labels| - 1]), CanonicalLabel(labels[|labels| - 1]))
  }

  method NormalizeLabels(labels: seq<string>) returns (normalized: seq<string>)
    ensures normalized == NormalizedLabels(labels)
  {
    normalized := [];
    for i := 0 to |labels|
      invariant normalized == NormalizedLabels(labels[..i])
    {
      assert labels[..i + 1][..i] == labels[..i];
      var next := CanonicalLabel(labels[i]);
      if next !in normalized {
        normalized := normalized + [next];
      }
    }
    assert labels[..|labels|] == labels;
  }

  lemma {:induction false} NormalizedLabelsExact(labels: seq<string>)
    ensures Ranking.Distinct(NormalizedLabels(labels))
    ensures forall l | l in NormalizedLabels(labels) :: CanonicalLabel(l) == l
  {
    if labels != [] {
      NormalizedLabelsExact(labels[..|labels| - 1]);
    }
  }

  /** Normalising keeps exactly the canonical spellings of the given labels. */
  lemma {:induction false} NormalizedLabelsMembers(labels: seq<string>, l: string)
    ensures l in NormalizedLabels(labels) <==> exists k :: k in labels && CanonicalLabel(k) == l
  {
    if labels != [] {
      NormalizedLabelsMembers(labels[..|labels| - 1], l);
      assert labels == labels[..|labels| - 1] + [labels[|labels| - 1]];
    }
  }

  /** The spellings that stand for "general". */
  lemma GeneralLabel(labels: seq<string>)
    ensures "general" in NormalizedLabels(labels)
       <==> "general" in labels || "work" in labels || "from_reflection" in labels || "subconscious_tick" in labels
            || "subconscious" in labels
  {
    NormalizedLabelsMembers(labels, "general");
    assert CanonicalLabel("general") == CanonicalLabel("work") == CanonicalLabel("from_reflection") == "general";
    assert CanonicalLabel("subconscious_tick") == CanonicalLabel("subconscious") == "general";
  }

  /** The spellings that stand for "tasks". */
  lemma TasksLabel(labels: seq<string>)
    ensures "tasks" in NormalizedLabels(labels) <==> "tasks" in labels || "agent-task" in labels || "worker" in labels
  {
    NormalizedLabelsMembers(labels, "tasks");
    assert CanonicalLabel("tasks") == CanonicalLabel("agent-task") == CanonicalLabel("worker") == "tasks";
  }

  /** The old spellings never survive; any other label is kept exactly if it is given. */
  lemma OtherLabel(labels: seq<string>, l: string)
    requires l != "general" && l != "tasks"
    ensures l in NormalizedLabels(labels)
       <==> l in labels && l !in ["work", "from_reflection", "subconscious_tick", "subconscious", "agent-task", "worker"]
  {
    NormalizedLabelsMembers(labels, l);
    assert CanonicalLabel(l) == l <==>
      l !in ["work", "from_reflection", "subconscious_tick", "subconscious", "agent-task", "worker"];
  }

  /** Labels come in the order of their first occurrence: more labels only add at the end. */
  lemma {:induction false} LaterLabelsComeLater(labels: seq<string>, n: nat)
    requires n <= |labels|
    ensures NormalizedLabels(labels[..n]) <= NormalizedLabels(labels)
  {
    if n == |labels| {
      assert labels[..n] == labels;
    } else {
      assert labels[..|labels| - 1][..n] == labels[..n];
      LaterLabelsComeLater(labels[..|labels| - 1], n);
    }
  }

  lemma {:induction false} CanonicalDistinctFixed(labels: seq<string>)
    requires Ranking.Distinct(labels) && forall l | l in labels :: CanonicalLabel(l) == l
    ensures NormalizedLabels(labels) == labels
  {
    if labels != [] {
      var init := labels[..|labels| - 1];
      CanonicalDistinctFixed(init);
      assert labels[|labels| - 1] in labels && labels[|labels| - 1] !in init;
    }
  }

  /** A tag list some normalisation produced: normalising it again changes nothing. */
  predicate LabelsFixed(labels: seq<string>) {
    NormalizedLabels(labels) == labels
  }

  lemma NormalizeLabelsIdempotent(labels: seq<string>)
    ensures LabelsFixed(NormalizedLabels(labels))
  {
    NormalizedLabelsExact(labels);
    CanonicalDistinctFixed(NormalizedLabels(labels));
  }

  lemma InferredLabelsFixed(threadId: ThreadId)
    ensures LabelsFixed(InferLabels(threadId))
  {
    var labels := InferLabels(threadId);
    assert labels[0] in labels;
    CanonicalDistinctFixed(labels);
  }

  // ---- The fold, as the code runs it ----------------------------------------------------

  function UpsertInto(index: ThreadIndex, e: LogEntry): ThreadIndex
    requires e.Upsert?
  {
    index[e.threadId :=
      if e.threadId in index then
        var existing := index[e.threadId];
        ThreadEntry(e.title, existing.createdAt, Or(e.parent, existing.parent),
                    if e.labels.Some? then NormalizedLabels(e.labels.value) else existing.labels,
                    existing.messageCount, existing.lastMessageAt, Or(e.personality, existing.personality))
      else
        ThreadEntry(e.title, e.createdAt, e.parent,
                    if e.labels.Some? then NormalizedLabels(e.labels.value) else InferLabels(e.threadId),
                    None, None, e.personality)]
  }

  function ApplyEntry(index: ThreadIndex, e: LogEntry): ThreadIndex {
    match e
    case Upsert(_, _, _, _, _, _, _) => UpsertInto(index, e)
    case Delete(t, _) => index - {t}
    case MessageAppended(t, last) =>
      if t in index then
        index[t := index[t].(messageCount := if index[t].messageCount.Some?
                                             then Some(index[t].messageCount.value + 1) else None,
                             lastMessageAt := Some(last))]
      else index
    case Stats(t, count, last) =>
      if t in index then index[t := index[t].(messageCount := Some(count), lastMessageAt := Some(last))] else index
  }

  function Fold(log: Log): ThreadIndex {
    if log == [] then map[] else ApplyEntry(Fold(log[..|log| - 1]), log[|log| - 1])
  }

  /** `thread_index_unlocked`: one pass over the log. */
  method ThreadIndexOf(log: Log) returns (index: ThreadIndex)
    ensures index == Fold(log)
  {
    index := map[];
    for i := 0 to |log|
      invariant index == Fold(log[..i])
    {
      assert log[..i + 1][..i] == log[..i];
      match log[i] {
        case Upsert(_, _, _, _, _, _, _) => index := UpsertInto(index, log[i]);
        case Delete(t, _) => index := index - {t};
        case MessageAppended(t, last) =>
          if t in index {
            var entry := index[t];
            if entry.messageCount.Some? {
              entry := entry.(messageCount := Some(entry.messageCount.value + 1));
            }
            index := index[t := entry.(lastMessageAt := Some(last))];
          }
        case Stats(t, count, last) =>
          if t in index {
            index := index[t := index[t].(messageCount := Some(count), lastMessageAt := Some(last))];
          }
      }
    }
    assert log[..|log|] == log;
  }

  // ---- The fold, one thread at a time ---------------------------------------------------

  /** What one entry does to its own thread, absent or present. */
  function ApplyOwn(own: Option<ThreadEntry>, e: LogEntry): Option<ThreadEntry> {
    match e
    case Upsert(t, title, createdAt, _, parent, labels, personality) =>
      var given := if labels.Some? then Some(NormalizedLabels(labels.value)) else None;
      if own.Some? then
        Some(ThreadEntry(title, own.value.createdAt, Or(parent, own.value.parent),
                         Or(given, Some(own.value.labels)).value,
                         own.value.messageCount, own.value.lastMessageAt,
                         Or(personality, own.value.personality)))
      else Some(ThreadEntry(title, createdAt, parent, Or(given, Some(InferLabels(t))).value, None, None, personality))
    case Delete(_, _) => None
    case MessageAppended(_, last) =>
      if own.None? then None
      else Some(own.value.(messageCount := if own.value.messageCount.Some?
                                           then Some(own.value.messageCount.value + 1) else None,
                           lastMessageAt := Some(last)))
    case Stats(_, count, last) =>
      if own.None? then None else Some(own.value.(messageCount := Some(count), lastMessageAt := Some(last)))
  }

  /** The state of thread `t`, from its own entries alone. */
  function FoldThread(log: Log, t: ThreadId): Option<ThreadEntry> {
    if log == [] then None
    else if log[|log| - 1].threadId == t then ApplyOwn(FoldThread(log[..|log| - 1], t), log[|log| - 1])
    else FoldThread(log[..|log| - 1], t)
  }

  function Lookup(index: ThreadIndex, t: ThreadId): Option<ThreadEntry> {
    if t in index then Some(index[t]) else None
  }

  function Project(log: Log, t: ThreadId): Log {
    if log == [] then []
    else Project(log[..|log| - 1], t) + if log[|log| - 1].threadId == t then [log[|log| - 1]] else []
  }

  lemma FoldThreadStep(log: Log, e: LogEntry, t: ThreadId)
    ensures FoldThread(log + [e], t) == if e.threadId == t then ApplyOwn(FoldThread(log, t), e) else FoldThread(log, t)
  {
    assert (log + [e])[..|log|] == log;
  }

  /** The whole-map fold holds, for each thread, the fold of that thread alone. */
  lemma {:induction false} FoldIsPerThread(log: Log, t: ThreadId)
    ensures Lookup(Fold(log), t) == FoldThread(log, t)
  {
    if log != [] {
      FoldIsPerThread(log[..|log| - 1], t);
    }
  }

  lemma {:induction false} FoldThreadOfProjection(log: Log, t: ThreadId)
    ensures FoldThread(log, t) == FoldThread(Project(log, t), t)
  {
    if log != [] {
      FoldThreadOfProjection(log[..|log| - 1], t);
      if log[|log| - 1].threadId == t {
        FoldThreadStep(Project(log[..|log| - 1], t), log[|log| - 1], t);
      } else {
        assert Project(log, t) == Project(log[..|log| - 1], t);
      }
    }
  }

  /** Two interleavings of the same per-thread histories fold to the same state. */
  lemma InterleavingsAgree(a: Log, b: Log)
    requires forall t :: Project(a, t) == Project(b, t)
    ensures Fold(a) == Fold(b)
  {
    forall t: ThreadId ensures Lookup(Fold(a), t) == Lookup(Fold(b), t) {
      FoldIsPerThread(a, t);
      FoldIsPerThread(b, t);
      FoldThreadOfProjection(a, t);
      FoldThreadOfProjection(b, t);
    }
    forall t: ThreadId ensures t in Fold(a) <==> t in Fold(b) {
      assert Lookup(Fold(a), t) == Lookup(Fold(b), t);
    }
    forall t: ThreadId | t in Fold(a) ensures Fold(a)[t] == Fold(b)[t] {
      assert Lookup(Fold(a), t) == Lookup(Fold(b), t);
    }
  }

  /** Nothing but an `Upsert` of its own brings a dead thread back. */
  lemma {:induction false} DeadStaysDead(log: Log, more: Log, t: ThreadId)
    requires FoldThread(log, t) == None
    requires forall e | e in more && e.threadId == t :: !e.Upsert?
    ensures FoldThread(log + more, t) == None
  {
    if more == [] {
      assert log + more == log;
    } else {
      var init, e := more[..|more| - 1], more[|more| - 1];
      DeadStaysDead(log, init, t);
      assert e in more && log + more == (log + init) + [e];
      FoldThreadStep(log + init, e, t);
    }
  }

  /** Until the thread is deleted, its creation time never changes. */
  lemma {:induction false} CreatedAtFixed(log: Log, more: Log, t: ThreadId)
    requires FoldThread(log, t).Some?
    requires forall e | e in more && e.threadId == t :: !e.Delete?
    ensures FoldThread(log + more, t).Some?
    ensures FoldThread(log + more, t).value.createdAt == FoldThread(log, t).value.createdAt
  {
    if more == [] {
      assert log + more == log;
    } else {
      var init, e := more[..|more| - 1], more[|more| - 1];
      CreatedAtFixed(log, init, t);
      assert e in more && log + more == (log + init) + [e];
      FoldThreadStep(log + init, e, t);
    }
  }

  /** A live thread's creation time is that of the first `Upsert` after it was last dead. */
  lemma FirstUpsertWins(log: Log, first: LogEntry, more: Log)
    requires first.Upsert? && FoldThread(log, first.threadId) == None
    requires forall e | e in more && e.threadId == first.threadId :: !e.Delete?
    ensures FoldThread(log + [first] + more, first.threadId).Some?
    ensures FoldThread(log + [first] + more, first.threadId).value.createdAt == first.createdAt
  {
    FoldThreadStep(log, first, first.threadId);
    CreatedAtFixed(log + [first], more, first.threadId);
  }

  lemma {:induction false} FoldedLabelsFixed(log: Log, t: ThreadId)
    ensures FoldThread(log, t).Some? ==> LabelsFixed(FoldThread(log, t).value.labels)
  {
    if log != [] {
      FoldedLabelsFixed(log[..|log| - 1], t);
      var e := log[|log| - 1];
      InferredLabelsFixed(t);
      if e.Upsert? && e.labels.Some? {
        NormalizeLabelsIdempotent(e.labels.value);
      }
    }
  }

  // ---- Title and tag updates ----------------------------------------------------------

  /** The entry `update_thread_title` appends: everything but the title is read back. */
  function TitleUpdate(t: ThreadId, e: ThreadEntry, title: string, at: string): LogEntry {
    Upsert(t, title, e.createdAt, at, e.parent, Some(e.labels), e.personality)
  }

  function LabelsUpdate(t: ThreadId, e: ThreadEntry, labels: seq<string>, at: string): LogEntry {
    Upsert(t, e.title, e.createdAt, at, e.parent, Some(NormalizedLabels(labels)), e.personality)
  }

  /** A title update changes the title and nothing else, in any log. */
  lemma TitleUpdateOnlyTitle(log: Log, t: ThreadId, title: string, at: string)
    requires t in Fold(log)
    ensures Fold(log + [TitleUpdate(t, Fold(log)[t], title, at)]) == Fold(log)[t := Fold(log)[t].(title := title)]
  {
    FoldIsPerThread(log, t);
    FoldedLabelsFixed(log, t);
    var e := TitleUpdate(t, Fold(log)[t], title, at);
    assert (log + [e])[..|log|] == log;
  }

  lemma LabelsUpdateOnlyLabels(log: Log, t: ThreadId, labels: seq<string>, at: string)
    requires t in Fold(log)
    ensures Fold(log + [LabelsUpdate(t, Fold(log)[t], labels, at)])
            == Fold(log)[t := Fold(log)[t].(labels := NormalizedLabels(labels))]
  {
    NormalizeLabelsIdempotent(labels);
    var e := LabelsUpdate(t, Fold(log)[t], labels, at);
    assert (log + [e])[..|log|] == log;
  }
}
