/** What each operation of the store promises, read off the stores before and after it. */
module StoreContracts {
  import opened Wrappers
  import opened Types
  import opened ThreadLog
  import opened Transcript
  import opened StoreState
  import opened SoloStore

  // ---- Rows -----------------------------------------------------------------------------------

  /** Row `k` is the first with this id. */
  ghost predicate IsFirstRow(rows: Rows, id: MessageId, k: nat) {
    k < |rows| && rows[k].id == id && forall j | 0 <= j < k :: rows[j].id != id
  }

  ghost predicate NoRow(rows: Rows, id: MessageId) {
    forall j | 0 <= j < |rows| :: rows[j].id != id
  }

  lemma FirstRowIs(rows: Rows, id: MessageId)
    ensures match IndexOf(rows, id) case Some(k) => IsFirstRow(rows, id, k) case None => NoRow(rows, id)
    ensures forall k: nat | IsFirstRow(rows, id, k) :: IndexOf(rows, id) == Some(k)
  {
    IndexOfExact(rows, id);
    forall k: nat | IsFirstRow(rows, id, k) ensures IndexOf(rows, id) == Some(k) {
      assert rows[k].id == id;
    }
  }

  /** The time of the newest row, or of the thread's creation when it has none. */
  ghost function NewestTime(e: ThreadEntry, rows: Rows): string {
    if rows == [] then e.createdAt else rows[|rows| - 1].createdAt
  }

  /** Only the log's entry for `t` may differ. */
  ghost predicate OthersKept(was: ThreadIndex, now: ThreadIndex, t: ThreadId) {
    forall u | u != t :: (u in now <==> u in was) && (u in was ==> now[u] == was[u])
  }

  // ---- Ensure ---------------------------------------------------------------------------------

  /** Title as given; creation time as it was, parent and personality if given, labels if given;
      count and time as they were, or none yet. */
  ghost predicate IsEnsured(was: Option<ThreadEntry>, now: ThreadEntry, t: ThreadId, title: string, createdAt: string,
                      parent: Option<ThreadId>, labels: Option<seq<string>>, personality: Option<string>)
  {
    && now.title == title
    && now.createdAt == (if was.Some? then was.value.createdAt else createdAt)
    && now.parent == (if parent.Some? || was.None? then parent else was.value.parent)
    && now.personality == (if personality.Some? || was.None? then personality else was.value.personality)
    && (labels.Some? ==> now.labels == NormalizedLabels(labels.value))
    && (labels.None? && was.Some? ==> now.labels == was.value.labels)
    && (labels.None? && was.None? ==>
          now.labels == [if t == "proactive:morning_briefing" then "briefing"
                         else if "proactive:" <= t then "notification" else "general"])
    && now.messageCount == (if was.Some? then was.value.messageCount else None)
    && now.lastMessageAt == (if was.Some? then was.value.lastMessageAt else None)
  }

  ghost predicate ThreadEnsured(before: Store, after: Store, t: ThreadId, title: string, createdAt: string,
                          parent: Option<ThreadId>, labels: Option<seq<string>>, personality: Option<string>)
  {
    var was, now := Fold(before.log), Fold(after.log);
    && t in now && IsEnsured(Lookup(was, t), now[t], t, title, createdAt, parent, labels, personality)
    && OthersKept(was, now, t)
    && after.transcripts == before.transcripts && after.cache == before.cache
  }

  lemma UpsertMeans(index: ThreadIndex, t: ThreadId, title: string, createdAt: string, parent: Option<ThreadId>,
                    labels: Option<seq<string>>, personality: Option<string>)
    ensures var given := if labels.Some? then Some(NormalizedLabels(labels.value)) else None;
            var now := UpsertInto(index, Upsert(t, title, createdAt, createdAt, parent, given, personality));
            && IsEnsured(Lookup(index, t), now[t], t, title, createdAt, parent, labels, personality)
            && OthersKept(index, now, t)
  {
    if labels.Some? {
      NormalizeLabelsIdempotent(labels.value);
    }
  }

  /** `ensure_thread` names the thread as asked, and keeps what was there. */
  lemma EnsureMeans(st: Store, t: ThreadId, title: string, createdAt: string, parent: Option<ThreadId>,
                    labels: Option<seq<string>>, personality: Option<string>)
    ensures ThreadEnsured(st, Ensured(st, t, title, createdAt, parent, labels, personality), t, title, createdAt,
                          parent, labels, personality)
  {
    var log := Ensured(st, t, title, createdAt, parent, labels, personality).log;
    assert log[..|log| - 1] == st.log;
    UpsertMeans(Fold(st.log), t, title, createdAt, parent, labels, personality);
  }

  // ---- Append ---------------------------------------------------------------------------------

  /** The index of the thread has the message's id, and keeps what it had. */
  ghost predicate IndexGains(was: Indexed, now: Indexed, m: Message) {
    && now.Keys == was.Keys + {m.id}
    && (forall id | id in was :: now[id] == was[id])
    && (m.id !in was ==> now[m.id].id == m.id && now[m.id].content == m.content
                         && now[m.id].sender == m.sender && now[m.id].createdAt == m.createdAt)
  }

  ghost predicate CacheGains(was: Option<Index>, now: Option<Index>, t: ThreadId, m: Message) {
    && (was.Some? <==> now.Some?)
    && (was.Some? ==> IndexGains(Of(was.value, t), Of(now.value, t), m)
                      && forall u | u != t :: Of(now.value, u) == Of(was.value, u))
  }

  /** The row is last, the count is one up where there was one, the time is the row's, and a warm
      index has it. */
  ghost predicate RowAppended(before: Store, after: Store, t: ThreadId, m: Message)
    requires t in Fold(before.log)
  {
    var was, now := Fold(before.log), Fold(after.log);
    && after.transcripts == before.transcripts[t := RowsOf(before, t) + [m]]
    && t in now && OthersKept(was, now, t)
    && now[t] == was[t].(messageCount := if was[t].messageCount.Some? then Some(was[t].messageCount.value + 1) else None,
                         lastMessageAt := Some(m.createdAt))
    && CacheGains(before.cache, after.cache, t, m)
  }

  /** An append to a dead thread fails; an id that starts with "agent:" and is stored gives back the
      first row with it; neither changes anything. Every other append adds its row. */
  ghost predicate AppendPromise(before: Store, after: Store, t: ThreadId, m: Message, stored: Option<Message>) {
    if t !in Fold(before.log) then stored.None? && after == before
    else if "agent:" <= m.id && !NoRow(RowsOf(before, t), m.id) then
      after == before && exists k: nat :: IsFirstRow(RowsOf(before, t), m.id, k) && stored == Some(RowsOf(before, t)[k])
    else RowAppended(before, after, t, m) && stored == Some(m)
  }

  lemma AppendedFold(st: Store, t: ThreadId, m: Message)
    requires t in Fold(st.log)
    ensures var was, now := Fold(st.log), Fold(FinaliseAppend(WriteRow(st, t, m), t, m).log);
            && t in now && OthersKept(was, now, t)
            && now[t] == was[t].(messageCount := if was[t].messageCount.Some? then Some(was[t].messageCount.value + 1)
                                                 else None, lastMessageAt := Some(m.createdAt))
  {
    assert (st.log + [MessageAppended(t, m.createdAt)])[..|st.log|] == st.log;
  }

  lemma AppendMeans(st: Store, t: ThreadId, m: Message)
    requires t in Fold(st.log) && !AppendRepeats(st, t, m)
    ensures RowAppended(st, SoloAppend(st, t, m), t, m)
    ensures !("agent:" <= m.id) || NoRow(RowsOf(st, t), m.id)
  {
    AppendedFold(st, t, m);
    FirstRowIs(RowsOf(st, t), m.id);
  }

  lemma RepeatMeans(st: Store, t: ThreadId, m: Message)
    requires AppendRepeats(st, t, m)
    ensures "agent:" <= m.id && !NoRow(RowsOf(st, t), m.id)
    ensures IsFirstRow(RowsOf(st, t), m.id, IndexOf(RowsOf(st, t), m.id).value)
  {
    FirstRowIs(RowsOf(st, t), m.id);
  }

  // ---- Update ---------------------------------------------------------------------------------

  /** The first row with the id has the new metadata if some is given; nothing else changes. */
  ghost predicate RowPatched(before: Store, after: Store, t: ThreadId, k: nat, extraMetadata: Option<string>)
    requires k < |RowsOf(before, t)|
  {
    var was, now := RowsOf(before, t), RowsOf(after, t);
    && |now| == |was| && (forall j | 0 <= j < |was| && j != k :: now[j] == was[j])
    && now[k].id == was[k].id && now[k].content == was[k].content && now[k].messageType == was[k].messageType
    && now[k].sender == was[k].sender && now[k].createdAt == was[k].createdAt
    && now[k].extraMetadata == (if extraMetadata.Some? then extraMetadata.value else was[k].extraMetadata)
    && (forall u | u != t :: RowsOf(after, u) == RowsOf(before, u))
    && after.log == before.log && after.cache == before.cache
  }

  /** `None` when no row has the id. */
  ghost predicate UpdatePromise(before: Store, after: Store, t: ThreadId, id: MessageId, extraMetadata: Option<string>,
                          stored: Option<Message>)
  {
    if stored.None? then NoRow(RowsOf(before, t), id) && after == before
    else exists k: nat :: IsFirstRow(RowsOf(before, t), id, k) && RowPatched(before, after, t, k, extraMetadata)
                     && stored == Some(RowsOf(after, t)[k])
  }

  lemma UpdateMeans(st: Store, t: ThreadId, id: MessageId, extraMetadata: Option<string>)
    ensures var k, after := IndexOf(RowsOf(st, t), id), MessageUpdated(st, t, id, extraMetadata);
            UpdatePromise(st, after, t, id, extraMetadata,
                          if k.Some? && k.value < |RowsOf(after, t)| then Some(RowsOf(after, t)[k.value]) else None)
  {
    FirstRowIs(RowsOf(st, t), id);
    var k := IndexOf(RowsOf(st, t), id);
    if k.Some? {
      assert RowPatched(st, MessageUpdated(st, t, id, extraMetadata), t, k.value, extraMetadata);
    }
  }

  // ---- Delete from a message on -----------------------------------------------------------------

  /** The rows in front of row `k` are left, with their count and newest time, and the index has
      none of the thread. */
  ghost predicate RowsCutAt(before: Store, after: Store, t: ThreadId, k: nat)
    requires k <= |RowsOf(before, t)| && t in Fold(before.log)
  {
    var was, now, kept := Fold(before.log), Fold(after.log), RowsOf(before, t)[..k];
    && after.transcripts == before.transcripts[t := kept]
    && t in now && OthersKept(was, now, t)
    && now[t] == was[t].(messageCount := Some(k), lastMessageAt := Some(NewestTime(was[t], kept)))
    && (before.cache.Some? <==> after.cache.Some?)
    && (before.cache.Some? ==> Of(after.cache.value, t) == map[]
                               && forall u | u != t :: Of(after.cache.value, u) == Of(before.cache.value, u))
  }

  ghost predicate CutPromise(before: Store, after: Store, t: ThreadId, id: MessageId, removed: Option<nat>) {
    if removed.None? then NoRow(RowsOf(before, t), id) && after == before
    else
      && t in Fold(before.log) && removed.value <= |RowsOf(before, t)|
      && IsFirstRow(RowsOf(before, t), id, |RowsOf(before, t)| - removed.value)
      && RowsCutAt(before, after, t, |RowsOf(before, t)| - removed.value)
  }

  lemma CutFold(st: Store, t: ThreadId, kept: Rows)
    requires t in Fold(st.log)
    ensures var was, now := Fold(st.log), Fold(RecordStats(st, t, kept).log);
            && t in now && OthersKept(was, now, t)
            && now[t] == was[t].(messageCount := Some(|kept|), lastMessageAt := Some(NewestTime(was[t], kept)))
  {
    FoldIsPerThread(st.log, t);
    var log := RecordStats(st, t, kept).log;
    assert log[..|st.log|] == st.log;
  }

  lemma CutMeans(st: Store, t: ThreadId, id: MessageId)
    requires t in Fold(st.log) && IndexOf(RowsOf(st, t), id).Some?
    ensures var k := IndexOf(RowsOf(st, t), id).value;
            RowsCutAt(st, SoloTruncate(st, t, id), t, k) && IsFirstRow(RowsOf(st, t), id, k)
  {
    var k := IndexOf(RowsOf(st, t), id).value;
    FirstRowIs(RowsOf(st, t), id);
    CutFold(CutRows(st, t, k), t, RowsOf(st, t)[..k]);
  }

  // ---- Delete ---------------------------------------------------------------------------------

  /** No entry, row or index of the thread is left; every other thread keeps its own. */
  ghost predicate ThreadGone(before: Store, after: Store, t: ThreadId) {
    && Fold(after.log) == Fold(before.log) - {t} && after.transcripts == before.transcripts - {t}
    && (before.cache.Some? <==> after.cache.Some?)
    && (before.cache.Some? ==> Of(after.cache.value, t) == map[]
                               && forall u | u != t :: Of(after.cache.value, u) == Of(before.cache.value, u))
  }

  lemma DeleteMeans(st: Store, t: ThreadId, at: string)
    requires t in Fold(st.log)
    ensures ThreadGone(st, SoloDelete(st, t, at), t)
  {
    assert (st.log + [Delete(t, at)])[..|st.log|] == st.log;
  }

  // ---- Summaries ------------------------------------------------------------------------------

  /** The summary shows the entry, with this count and time. */
  ghost predicate Shows(s: Summary, t: ThreadId, e: ThreadEntry, count: nat, last: string) {
    && s.id == t && s.title == e.title && s.createdAt == e.createdAt && s.parent == e.parent
    && s.labels == e.labels && s.personality == e.personality && s.messageCount == count && s.lastMessageAt == last
  }

  /** The summary shows the thread with its rows counted, or, if they cannot be read and are not
      recorded, with what is recorded. */
  ghost predicate ShowsThread(s: Summary, st: Store, t: ThreadId, unreadable: set<ThreadId>)
    requires t in Fold(st.log)
  {
    var e, rows := Fold(st.log)[t], RowsOf(st, t);
    if t !in unreadable || (e.messageCount.Some? && e.lastMessageAt.Some?)
    then Shows(s, t, e, |rows|, NewestTime(e, rows))
    else Shows(s, t, e, if e.messageCount.Some? then e.messageCount.value else 0,
               if e.lastMessageAt.Some? then e.lastMessageAt.value else e.createdAt)
  }

  /** The summary shows what is recorded of the entry, and where nothing is, no rows and the time of
      its creation. Folded labels are canonical. */
  ghost predicate ShowsEntry(s: Summary, index: ThreadIndex) {
    s.id in index &&
    var e := index[s.id];
    LabelsFixed(e.labels) ==>
      Shows(s, s.id, e, if e.messageCount.Some? then e.messageCount.value else 0,
            if e.lastMessageAt.Some? then e.lastMessageAt.value else e.createdAt)
  }

  ghost predicate ShowsLive(s: Summary, st: Store, unreadable: set<ThreadId>) {
    s.id in Fold(st.log) && ShowsThread(s, st, s.id, unreadable)
  }

  ghost predicate InOrder(a: Summary, b: Summary, millis: string -> int) {
    || millis(a.lastMessageAt) > millis(b.lastMessageAt)
    || (millis(a.lastMessageAt) == millis(b.lastMessageAt) && millis(a.createdAt) >= millis(b.createdAt))
  }

  /** Newest message first; of equally new ones the newest thread first. */
  ghost predicate NewestFirst(threads: seq<Summary>, millis: string -> int) {
    forall i, j | 0 <= i < j < |threads| :: InOrder(threads[i], threads[j], millis)
  }

  /** Every live thread once, with its rows counted, newest first. */
  ghost predicate ListsThreads(threads: seq<Summary>, st: Store, unreadable: set<ThreadId>, millis: string -> int) {
    && NewestFirst(threads, millis) && EachOnce(threads, Fold(st.log).Keys)
    && forall i | 0 <= i < |threads| :: ShowsLive(threads[i], st, unreadable)
  }

  ghost predicate Occurs(threads: seq<Summary>, t: ThreadId) {
    exists i :: 0 <= i < |threads| && threads[i].id == t
  }

  /** Every one of these threads once. */
  ghost predicate EachOnce(threads: seq<Summary>, live: set<ThreadId>) {
    && (forall i, j | 0 <= i < j < |threads| :: threads[i].id != threads[j].id)
    && (forall i | 0 <= i < |threads| :: threads[i].id in live)
    && (forall t | t in live :: Occurs(threads, t))
  }
}
