/** The three tables of the inverted index as values, and what keeps them consistent. */
module IndexTables {
  import opened Wrappers
  import opened Types
  import Tokenize

  /** Doc ids are `u32`: the id of a new document is the table length cut to 32 bits. */
  const DOC_ID_SPAN: nat := 0x1_0000_0000

  type Key = (ThreadId, MessageId)

  datatype DocEntry = DocEntry(
    threadId: ThreadId,
    messageId: MessageId,
    role: string,
    content: string,
    contentNormalized: string,
    createdAt: string,
    createdAtMs: int)
  {
    function Key(): Key { (threadId, messageId) }
  }

  type Postings = map<string, set<nat>>

  type Docs = seq<Option<DocEntry>>

  type Contents = map<Key, DocEntry>

  function EntryOf(lower: char -> string, millis: string -> int, threadId: ThreadId, m: Message): DocEntry {
    DocEntry(threadId, m.id, m.sender, m.content, Tokenize.Normalized(lower, m.content),
             m.createdAt, millis(m.createdAt))
  }

  // ---- What the operations mean: a first-insert-wins map --------------------------------

  function InsertFirst(c: Contents, e: DocEntry): Contents {
    if e.Key() in c then c else c[e.Key() := e]
  }

  function DropThread(c: Contents, threadId: ThreadId): Contents {
    map k | k in c && k.0 != threadId :: c[k]
  }

  // ---- Postings -------------------------------------------------------------------------

  predicate Posted(p: Postings, g: string, d: nat) {
    g in p && d in p[g]
  }

  function AddPosting(p: Postings, g: string, d: nat): Postings {
    p[g := if g in p then p[g] + {d} else {d}]
  }

  function AddPostings(p: Postings, grams: seq<string>, d: nat): Postings {
    if grams == [] then p
    else AddPosting(AddPostings(p, grams[..|grams| - 1], d), grams[|grams| - 1], d)
  }

  function DropPosting(p: Postings, g: string, d: nat): Postings {
    if g !in p then p
    else if p[g] - {d} == {} then p - {g}
    else p[g := p[g] - {d}]
  }

  function DropPostings(p: Postings, grams: seq<string>, d: nat): Postings {
    if grams == [] then p
    else DropPosting(DropPostings(p, grams[..|grams| - 1], d), grams[|grams| - 1], d)
  }

  ghost predicate NoneEmpty(p: Postings) {
    forall g | g in p :: p[g] != {}
  }

  lemma AddPostingExact(p: Postings, g: string, d: nat)
    requires NoneEmpty(p)
    ensures NoneEmpty(AddPosting(p, g, d))
    ensures forall h: string, x: nat :: Posted(AddPosting(p, g, d), h, x) <==> Posted(p, h, x) || (x == d && h == g)
  {
  }

  lemma {:induction false} AddPostingsExact(p: Postings, grams: seq<string>, d: nat)
    requires NoneEmpty(p)
    ensures NoneEmpty(AddPostings(p, grams, d))
    ensures forall g: string, x: nat ::
              Posted(AddPostings(p, grams, d), g, x) <==> Posted(p, g, x) || (x == d && g in grams)
  {
    if grams != [] {
      AddPostingsExact(p, grams[..|grams| - 1], d);
      AddPostingExact(AddPostings(p, grams[..|grams| - 1], d), grams[|grams| - 1], d);
      assert grams == grams[..|grams| - 1] + [grams[|grams| - 1]];
    }
  }

  lemma DropPostingExact(p: Postings, g: string, d: nat)
    requires NoneEmpty(p)
    ensures NoneEmpty(DropPosting(p, g, d))
    ensures forall h: string, x: nat :: Posted(DropPosting(p, g, d), h, x) <==> Posted(p, h, x) && !(x == d && h == g)
  {
    if g in p && p[g] - {d} == {} {
      assert forall x: nat | x in p[g] :: x == d || x in p[g] - {d};
    }
  }

  lemma {:induction false} DropPostingsExact(p: Postings, grams: seq<string>, d: nat)
    requires NoneEmpty(p)
    ensures NoneEmpty(DropPostings(p, grams, d))
    ensures forall g: string, x: nat ::
              Posted(DropPostings(p, grams, d), g, x) <==> Posted(p, g, x) && !(x == d && g in grams)
  {
    if grams != [] {
      DropPostingsExact(p, grams[..|grams| - 1], d);
      DropPostingExact(DropPostings(p, grams[..|grams| - 1], d), grams[|grams| - 1], d);
      assert grams == grams[..|grams| - 1] + [grams[|grams| - 1]];
    }
  }

  // ---- The representation invariant -----------------------------------------------------

  predicate Live(docs: Docs, d: nat) {
    d < |docs| && docs[d].Some?
  }

  predicate HasNgram(e: DocEntry, g: string) {
    g in Tokenize.NgramsOf(e.contentNormalized)
  }

  /** Posting lists are never empty and hold exactly the live documents with the n-gram. */
  ghost predicate PostingsExact(p: Postings, docs: Docs) {
    && NoneEmpty(p)
    && (forall g: string, d: nat :: Posted(p, g, d) <==> Live(docs, d) && HasNgram(docs[d].value, g))
  }

  /** `byMessage` and the live slots are each other's inverse. */
  ghost predicate KeysExact(docs: Docs, byMessage: map<Key, nat>) {
    && (forall k | k in byMessage :: Live(docs, byMessage[k]) && docs[byMessage[k]].value.Key() == k)
    && (forall d: nat | Live(docs, d) ::
          docs[d].value.Key() in byMessage && byMessage[docs[d].value.Key()] == d)
  }

  ghost predicate Consistent(p: Postings, docs: Docs, byMessage: map<Key, nat>) {
    PostingsExact(p, docs) && KeysExact(docs, byMessage)
  }

  function ContentsOf(docs: Docs, byMessage: map<Key, nat>): Contents
    requires KeysExact(docs, byMessage)
  {
    map k | k in byMessage :: docs[byMessage[k]].value
  }

  // ---- Insert ---------------------------------------------------------------------------

  function NextDocId(docs: Docs): nat {
    |docs| % DOC_ID_SPAN
  }

  /** Inserting a new key keeps the tables consistent exactly while doc ids do not wrap. */
  lemma InsertConsistentIff(p: Postings, docs: Docs, byMessage: map<Key, nat>, e: DocEntry)
    requires Consistent(p, docs, byMessage) && e.Key() !in byMessage
    ensures var d := NextDocId(docs);
            Consistent(AddPostings(p, Tokenize.NgramsOf(e.contentNormalized), d), docs + [Some(e)],
                       byMessage[e.Key() := d])
            <==> |docs| < DOC_ID_SPAN
  {
    var d := NextDocId(docs);
    var after := docs + [Some(e)];
    AddPostingsExact(p, Tokenize.NgramsOf(e.contentNormalized), d);
    assert forall x: nat | x < |docs| :: after[x] == docs[x];
    if |docs| < DOC_ID_SPAN {
      assert d == |docs| && after[d] == Some(e);
      assert forall x: nat | x != d :: Live(after, x) == Live(docs, x);
    } else {
      var keyed := byMessage[e.Key() := d];
      assert after[d] == docs[d] && e.Key() in keyed && keyed[e.Key()] == d;
      assert Live(docs, d) ==> docs[d].value.Key() in byMessage;
    }
  }

  /** Every indexed document was built from its own message fields. */
  ghost predicate Built(docs: Docs, lower: char -> string, millis: string -> int) {
    forall d: nat | Live(docs, d) ::
      && docs[d].value.contentNormalized == Tokenize.Normalized(lower, docs[d].value.content)
      && docs[d].value.createdAtMs == millis(docs[d].value.createdAt)
  }

  /** While ids do not wrap, a new message goes in under its own key and nothing else changes. */
  lemma InsertNew(p: Postings, docs: Docs, byMessage: map<Key, nat>, lower: char -> string, millis: string -> int,
                  threadId: ThreadId, m: Message)
    requires Consistent(p, docs, byMessage) && Built(docs, lower, millis) && |docs| < DOC_ID_SPAN
    requires (threadId, m.id) !in byMessage
    ensures var e := EntryOf(lower, millis, threadId, m);
            var d := NextDocId(docs);
            var docs', byMessage' := docs + [Some(e)], byMessage[e.Key() := d];
            && Consistent(AddPostings(p, Tokenize.NgramsOf(e.contentNormalized), d), docs', byMessage')
            && Built(docs', lower, millis)
            && ContentsOf(docs', byMessage') == InsertFirst(ContentsOf(docs, byMessage), e)
  {
    InsertConsistentIff(p, docs, byMessage, EntryOf(lower, millis, threadId, m));
  }

  // ---- Remove ---------------------------------------------------------------------------

  lemma RemoveConsistent(p: Postings, docs: Docs, byMessage: map<Key, nat>, d: nat)
    requires Consistent(p, docs, byMessage) && Live(docs, d)
    ensures var e := docs[d].value;
            && PostingsExact(DropPostings(p, Tokenize.NgramsOf(e.contentNormalized), d), docs[d := None])
            && KeysExact(docs[d := None], byMessage - {e.Key()})
  {
    var e := docs[d].value;
    DropPostingsExact(p, Tokenize.NgramsOf(e.contentNormalized), d);
    assert forall x: nat | x != d :: Live(docs[d := None], x) == Live(docs, x);
  }

  lemma RemoveContents(docs: Docs, byMessage: map<Key, nat>, d: nat)
    requires KeysExact(docs, byMessage) && Live(docs, d)
    requires KeysExact(docs[d := None], byMessage - {docs[d].value.Key()})
    ensures ContentsOf(docs[d := None], byMessage - {docs[d].value.Key()})
            == ContentsOf(docs, byMessage) - {docs[d].value.Key()}
  {
  }
}
