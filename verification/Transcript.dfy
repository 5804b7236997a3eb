/** One thread's transcript, and the per-thread part of the search index built from it. */
module Transcript {
  import opened Wrappers
  import opened Types

  type Rows = seq<Message>

  /** What the index keeps of a message: metadata and message type are dropped. */
  function Searchable(m: Message): Message {
    m.(messageType := "", extraMetadata := "")
  }

  function SearchableRows(rows: Rows): (r: Rows)
    ensures |r| == |rows| && forall i | 0 <= i < |rows| :: r[i] == Searchable(rows[i])
  {
    seq(|rows|, i requires 0 <= i < |rows| => Searchable(rows[i]))
  }

  // ---- First row wins -------------------------------------------------------------------

  type Indexed = map<MessageId, Message>

  function AddRow(v: Indexed, m: Message): Indexed {
    if m.id in v then v else v[m.id := Searchable(m)]
  }

  function AddRows(v: Indexed, rows: Rows): Indexed {
    if rows == [] then v else AddRow(AddRows(v, rows[..|rows| - 1]), rows[|rows| - 1])
  }

  /** The index of a transcript: each id with its first row. */
  function FirstOf(rows: Rows): Indexed {
    AddRows(map[], rows)
  }

  lemma {:induction false} AddRowsKeys(v: Indexed, rows: Rows)
    ensures forall id :: id in AddRows(v, rows) <==> id in v || exists i | 0 <= i < |rows| :: rows[i].id == id
    ensures forall id | id in v :: AddRows(v, rows)[id] == v[id]
  {
    if rows != [] {
      AddRowsKeys(v, rows[..|rows| - 1]);
    }
  }

  lemma {:induction false} AddKnownRows(v: Indexed, rows: Rows)
    requires forall i | 0 <= i < |rows| :: rows[i].id in v
    ensures AddRows(v, rows) == v
  {
    if rows != [] {
      AddKnownRows(v, rows[..|rows| - 1]);
    }
  }

  /** Every journaled row's id occurs in the transcript. */
  predicate Covered(journal: Rows, rows: Rows) {
    forall i | 0 <= i < |journal| :: IndexOf(rows, journal[i].id).Some?
  }

  /** Indexing a transcript and then any rows whose ids it has adds nothing. */
  lemma {:induction false} CoveredAddsNothing(journal: Rows, rows: Rows)
    requires Covered(journal, rows)
    ensures AddRows(FirstOf(rows), journal) == FirstOf(rows)
  {
    AddRowsKeys(map[], rows);
    AddKnownRows(FirstOf(rows), journal);
  }

  lemma CoveredAppend(journal: Rows, rows: Rows, m: Message)
    requires Covered(journal, rows)
    ensures Covered(journal + [m], rows + [m])
  {
    forall i | 0 <= i <= |journal| ensures IndexOf(rows + [m], (journal + [m])[i].id).Some? {
      var id := (journal + [m])[i].id;
      IndexOfExact(rows + [m], id);
      var k := if i == |journal| then |rows| else IndexOf(rows, id).value;
      assert (rows + [m])[k].id == id;
    }
  }

  lemma {:induction false} IndexOfSearchable(rows: Rows, id: MessageId)
    ensures IndexOf(SearchableRows(rows), id) == IndexOf(rows, id)
  {
    if rows != [] {
      assert SearchableRows(rows)[1..] == SearchableRows(rows[1..]);
      IndexOfSearchable(rows[1..], id);
    }
  }

  lemma CoveredSearchable(journal: Rows, rows: Rows)
    ensures Covered(journal, SearchableRows(rows)) <==> Covered(journal, rows)
  {
    forall i | 0 <= i < |journal|
      ensures IndexOf(SearchableRows(rows), journal[i].id) == IndexOf(rows, journal[i].id)
    {
      IndexOfSearchable(rows, journal[i].id);
    }
  }

  lemma {:induction false} AddRowsSnoc(v: Indexed, rows: Rows, m: Message)
    ensures AddRows(v, rows + [m]) == AddRow(AddRows(v, rows), m)
  {
    assert (rows + [m])[..|rows|] == rows;
  }

  lemma {:induction false} FirstOfSearchable(v: Indexed, rows: Rows)
    ensures AddRows(v, SearchableRows(rows)) == AddRows(v, rows)
  {
    if rows != [] {
      assert SearchableRows(rows)[..|rows| - 1] == SearchableRows(rows[..|rows| - 1]);
      FirstOfSearchable(v, rows[..|rows| - 1]);
    }
  }

  /** What the index of a transcript says: exactly its ids, each with its first row. */
  lemma {:induction false} FirstOfMeaning(rows: Rows, id: MessageId)
    ensures id in FirstOf(rows) <==> IndexOf(rows, id).Some?
    ensures id in FirstOf(rows) ==> FirstOf(rows)[id] == Searchable(rows[IndexOf(rows, id).value])
  {
    if rows != [] {
      var init := rows[..|rows| - 1];
      FirstOfMeaning(init, id);
      IndexOfExact(rows, id);
      IndexOfExact(init, id);
      if IndexOf(init, id).Some? {
        var k := IndexOf(init, id).value;
        assert init[k] == rows[k];
        assert IndexOf(rows, id) == Some(k);
      } else if rows[|rows| - 1].id == id {
        assert IndexOf(rows, id) == Some(|rows| - 1) by {
          assert forall i | 0 <= i < |init| :: rows[i] == init[i];
        }
      }
    }
  }

  // ---- Lookups and edits ----------------------------------------------------------------

  /** Position of the first row with this id. */
  function IndexOf(rows: Rows, id: MessageId): (r: Option<nat>)
    ensures r.Some? ==> r.value < |rows| && rows[r.value].id == id
  {
    if rows == [] then None
    else if rows[0].id == id then Some(0)
    else if IndexOf(rows[1..], id).Some? then Some(IndexOf(rows[1..], id).value + 1)
    else None
  }

  lemma {:induction false} IndexOfExact(rows: Rows, id: MessageId)
    ensures IndexOf(rows, id).None? ==> forall i | 0 <= i < |rows| :: rows[i].id != id
    ensures IndexOf(rows, id).Some? ==> forall i | 0 <= i < IndexOf(rows, id).value :: rows[i].id != id
  {
    if rows != [] && rows[0].id != id {
      IndexOfExact(rows[1..], id);
      assert forall i | 1 <= i < |rows| :: rows[i] == rows[1..][i - 1];
    }
  }

  lemma IndexOfNoneIff(rows: Rows, id: MessageId)
    ensures IndexOf(rows, id).None? <==> forall i | 0 <= i < |rows| :: rows[i].id != id
  {
    IndexOfExact(rows, id);
  }

  /** `update_message`: the first row with this id gets the patched metadata. */
  function Patched(rows: Rows, id: MessageId, extraMetadata: Option<string>): Rows {
    if IndexOf(rows, id).None? || extraMetadata.None? then rows
    else
      var k := IndexOf(rows, id).value;
      rows[k := rows[k].(extraMetadata := extraMetadata.value)]
  }

  lemma PatchKeepsSearchable(rows: Rows, id: MessageId, extraMetadata: Option<string>)
    ensures SearchableRows(Patched(rows, id, extraMetadata)) == SearchableRows(rows)
  {
  }

  /** No deterministic id occurs twice. */
  predicate UniqueAgentIds(rows: Rows) {
    forall i, j | 0 <= i < j < |rows| && IsDeterministicId(rows[i].id) :: rows[i].id != rows[j].id
  }

  lemma AppendKeepsUnique(rows: Rows, m: Message)
    requires UniqueAgentIds(rows)
    requires IsDeterministicId(m.id) ==> IndexOf(rows, m.id).None?
    ensures UniqueAgentIds(rows + [m])
  {
    IndexOfExact(rows, m.id);
  }

  lemma PatchKeepsUnique(rows: Rows, id: MessageId, extraMetadata: Option<string>)
    requires UniqueAgentIds(rows)
    ensures UniqueAgentIds(Patched(rows, id, extraMetadata))
  {
    var p := Patched(rows, id, extraMetadata);
    assert forall i | 0 <= i < |rows| :: p[i].id == rows[i].id;
  }
}
