/** What a conversation root holds, and what each lock section of an operation does to it. */
module StoreState {
  import opened Wrappers
  import opened Types
  import opened ThreadLog
  import opened Transcript

  /** The search index: for each thread, its indexed ids. A thread without rows may be absent. */
  type Index = map<ThreadId, Indexed>

  type Journal = seq<(ThreadId, Message)>

  datatype Store = Store(
    log: Log,
    transcripts: map<ThreadId, Rows>,
    cache: Option<Index>,
    journal: Option<Journal>)

  function RowsOf(st: Store, t: ThreadId): Rows {
    if t in st.transcripts then st.transcripts[t] else []
  }

  function Of(index: Index, t: ThreadId): Indexed {
    if t in index then index[t] else map[]
  }

  // ---- Append ---------------------------------------------------------------------------

  /** Under the thread lock: the row becomes durable. */
  function WriteRow(st: Store, t: ThreadId, m: Message): Store {
    st.(transcripts := st.transcripts[t := RowsOf(st, t) + [m]])
  }

  /** Under metadata: journal it, index it if the cache is warm, then extend the stat trail. */
  function FinaliseAppend(st: Store, t: ThreadId, m: Message): Store {
    st.(journal := if st.journal.Some? then Some(st.journal.value + [(t, m)]) else None,
        cache := if st.cache.Some? then Some(st.cache.value[t := AddRow(Of(st.cache.value, t), m)]) else None,
        log := st.log + [MessageAppended(t, m.createdAt)])
  }

  // ---- Truncate -------------------------------------------------------------------------

  function CutRows(st: Store, t: ThreadId, k: nat): Store
    requires k <= |RowsOf(st, t)|
  {
    st.(transcripts := st.transcripts[t := RowsOf(st, t)[..k]])
  }

  /** Time of the newest row, or the thread's creation time when there is none. */
  function LastTime(entry: Option<ThreadEntry>, rows: Rows): string {
    if rows != [] then rows[|rows| - 1].createdAt
    else if entry.Some? then entry.value.createdAt else ""
  }

  function RecordStats(st: Store, t: ThreadId, rows: Rows): Store {
    st.(log := st.log + [Stats(t, |rows|, LastTime(FoldThread(st.log, t), rows))])
  }

  function EvictThread(st: Store, t: ThreadId): Store {
    st.(cache := if st.cache.Some? then Some(st.cache.value - {t}) else None)
  }

  // ---- Delete and purge -----------------------------------------------------------------

  function Tombstone(st: Store, t: ThreadId, at: string): Store {
    st.(log := st.log + [Delete(t, at)])
  }

  function Unlink(st: Store, t: ThreadId): Store {
    st.(transcripts := st.transcripts - {t})
  }

  function Wipe(st: Store): Store {
    st.(log := [], transcripts := map[])
  }

  function DropCache(st: Store): Store {
    st.(cache := None)
  }

  // ---- Metadata-only updates ------------------------------------------------------------

  function Ensured(st: Store, t: ThreadId, title: string, createdAt: string, parent: Option<ThreadId>,
                   labels: Option<seq<string>>, personality: Option<string>): Store
  {
    var given := if labels.Some? then Some(NormalizedLabels(labels.value)) else None;
    st.(log := st.log + [Upsert(t, title, createdAt, createdAt, parent, given, personality)])
  }

  function Retitled(st: Store, t: ThreadId, title: string, at: string): Store {
    if t !in Fold(st.log) then st
    else st.(log := st.log + [TitleUpdate(t, Fold(st.log)[t], title, at)])
  }

  function Relabelled(st: Store, t: ThreadId, labels: seq<string>, at: string): Store {
    if t !in Fold(st.log) then st
    else st.(log := st.log + [LabelsUpdate(t, Fold(st.log)[t], labels, at)])
  }

  predicate TrailMissing(e: ThreadEntry) {
    e.messageCount.None? || e.lastMessageAt.None?
  }

  /** One repair of `list_threads`: measure the transcript if the trail is incomplete. */
  function Repaired(st: Store, t: ThreadId): Store {
    if t in Fold(st.log) && TrailMissing(Fold(st.log)[t]) then RecordStats(st, t, RowsOf(st, t)) else st
  }

  function MessageUpdated(st: Store, t: ThreadId, id: MessageId, extraMetadata: Option<string>): Store {
    if IndexOf(RowsOf(st, t), id).None? then st
    else st.(transcripts := st.transcripts[t := Patched(RowsOf(st, t), id, extraMetadata)])
  }

  // ---- Cold build -----------------------------------------------------------------------

  function JournalRows(j: Journal, t: ThreadId): Rows {
    if j == [] then []
    else JournalRows(j[..|j| - 1], t) + if j[|j| - 1].0 == t then [Searchable(j[|j| - 1].1)] else []
  }

  function ScanThread(built: Index, st: Store, t: ThreadId): Index {
    if t in st.transcripts then built[t := AddRows(Of(built, t), st.transcripts[t])] else built
  }

  function Drain(built: Index, j: Journal): Index {
    if j == [] then built
    else
      var init := Drain(built, j[..|j| - 1]);
      init[j[|j| - 1].0 := AddRow(Of(init, j[|j| - 1].0), j[|j| - 1].1)]
  }

  function Publish(st: Store, built: Index): Store {
    st.(cache := Some(Drain(built, if st.journal.Some? then st.journal.value else [])), journal := None)
  }

  lemma {:induction false} DrainIsPerThread(built: Index, j: Journal, t: ThreadId)
    ensures Of(Drain(built, j), t) == AddRows(Of(built, t), JournalRows(j, t))
  {
    if j != [] {
      DrainIsPerThread(built, j[..|j| - 1], t);
      var m := j[|j| - 1].1;
      if j[|j| - 1].0 == t {
        AddRowsSnoc(Of(built, t), JournalRows(j[..|j| - 1], t), Searchable(m));
      } else {
        assert JournalRows(j, t) == JournalRows(j[..|j| - 1], t);
      }
    }
  }

  lemma JournalStep(j: Journal, u: ThreadId, m: Message, t: ThreadId)
    ensures JournalRows(j + [(u, m)], t) == JournalRows(j, t) + if u == t then [Searchable(m)] else []
  {
    assert (j + [(u, m)])[..|j|] == j;
  }
}
