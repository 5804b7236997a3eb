/** The in-memory trigram/CJK-bigram index: posting lists over a tombstoned document table. */
module InvertedIndexModule {
  import opened Wrappers
  import opened Types
  import opened IndexTables
  import opened SearchMeaning
  import opened SearchSpec
  import opened Ranking
  import opened DocIds
  import Text
  import Tokenize

  // ---- Phase 2 --------------------------------------------------------------------------

  function CountOf(counts: map<nat, nat>, d: nat): nat {
    if d in counts then counts[d] else 0
  }

  /** `d` is visible and contains `term`. */
  predicate Verified(docs: Docs, exclude: Option<ThreadId>, term: string, d: nat) {
    Live(docs, d) && Visible(docs[d].value, exclude) && Text.Contains(docs[d].value.contentNormalized, term)
  }

  function Tally(docs: Docs, terms: seq<string>, exclude: Option<ThreadId>, d: nat): nat {
    if Live(docs, d) && Visible(docs[d].value, exclude)
    then MatchCount(terms, docs[d].value.contentNormalized) else 0
  }

  /** `counts` holds, for exactly the visible documents matching some of `terms`, how many. */
  ghost predicate Tallied(counts: map<nat, nat>, docs: Docs, terms: seq<string>, exclude: Option<ThreadId>) {
    && (forall d: nat :: CountOf(counts, d) == Tally(docs, terms, exclude, d))
    && (forall d | d in counts :: counts[d] > 0)
  }

  /** Every document that contains the term is listed, and none twice. */
  ghost predicate Covers(ids: seq<nat>, docs: Docs, term: string) {
    && Ascending(ids)
    && forall d: nat | Live(docs, d) && Text.Contains(docs[d].value.contentNormalized, term) :: d in ids
  }

  lemma CandidateListCovers(ids: seq<nat>, docs: Docs, term: string)
    requires IsCandidateList(ids, docs, term)
    ensures Covers(ids, docs, term)
  {
    forall d: nat | Live(docs, d) && Text.Contains(docs[d].value.contentNormalized, term) ensures d in ids {
      CandidatesCoverMatches(docs[d].value, term);
    }
  }

  lemma TalliedStep(before: map<nat, nat>, after: map<nat, nat>, docs: Docs, terms: seq<string>,
                    exclude: Option<ThreadId>, term: string)
    requires Tallied(before, docs, terms, exclude)
    requires forall d: nat :: CountOf(after, d)
               == CountOf(before, d) + if Verified(docs, exclude, term, d) then 1 else 0
    requires forall d | d in after :: after[d] > 0
    ensures Tallied(after, docs, terms + [term], exclude)
  {
    assert (terms + [term])[..|terms|] == terms;
    forall d: nat ensures CountOf(after, d) == Tally(docs, terms + [term], exclude, d) {
      assert CountOf(before, d) == Tally(docs, terms, exclude, d);
    }
  }

  lemma NoTerms(docs: Docs, exclude: Option<ThreadId>)
    ensures Tallied(map[], docs, [], exclude)
  {
  }

  lemma TalliedRanks(counts: map<nat, nat>, docs: Docs, byMessage: map<Key, nat>, terms: seq<string>,
                     exclude: Option<ThreadId>)
    requires KeysExact(docs, byMessage) && Tallied(counts, docs, terms, exclude)
    ensures forall d | d in counts :: Live(docs, d)
    ensures SameRanks(docs, byMessage, DocRanks(docs, counts), MatchRanks(ContentsOf(docs, byMessage), terms, exclude))
  {
    forall d | d in counts ensures Live(docs, d) && counts[d] == Tally(docs, terms, exclude, d) {
      assert CountOf(counts, d) == Tally(docs, terms, exclude, d);
    }
    var ranks := MatchRanks(ContentsOf(docs, byMessage), terms, exclude);
    forall k | k in ranks ensures k in byMessage && byMessage[k] in DocRanks(docs, counts) {
      assert CountOf(counts, byMessage[k]) == Tally(docs, terms, exclude, byMessage[k]);
    }
  }

  /** The candidate list of one term: all live documents with its n-grams, in id order. */
  ghost predicate IsCandidateList(ids: seq<nat>, docs: Docs, term: string) {
    && Ascending(ids)
    && forall d: nat :: d in ids <==> Live(docs, d) && HasAllNgrams(docs[d].value, term)
  }

  lemma CandidateListSize(ids: seq<nat>, docs: Docs, byMessage: map<Key, nat>, term: string)
    requires KeysExact(docs, byMessage) && IsCandidateList(ids, docs, term)
    ensures |ids| == |CandidateKeys(ContentsOf(docs, byMessage), term)|
  {
    assert forall i | 0 <= i < |ids| :: ids[i] in ids && Live(docs, ids[i]);
    var keys := seq(|ids|, i requires 0 <= i < |ids| && Live(docs, ids[i]) => docs[ids[i]].value.Key());
    forall i, j | 0 <= i < j < |keys| ensures keys[i] != keys[j] {
      assert byMessage[keys[i]] == ids[i] && byMessage[keys[j]] == ids[j];
    }
    DistinctCount(keys);
    var c := ContentsOf(docs, byMessage);
    forall k ensures k in ToSet(keys) <==> k in CandidateKeys(c, term) {
      if k in CandidateKeys(c, term) {
        var d := byMessage[k];
        assert d in ids;
        var i :| 0 <= i < |ids| && ids[i] == d;
        assert keys[i] == k;
      }
    }
    assert ToSet(keys) == CandidateKeys(c, term);
  }

  function DocRanks(docs: Docs, counts: map<nat, nat>): map<nat, Rank> {
    map d | d in counts && Live(docs, d) :: Rank(counts[d], docs[d].value.createdAtMs)
  }

  function Renaming(docs: Docs, ranks: map<nat, Rank>): map<nat, Key>
    requires forall d | d in ranks :: Live(docs, d)
  {
    map d | d in ranks && Live(docs, d) :: docs[d].value.Key()
  }

  function HitsFor(docs: Docs, top: seq<Ranked<nat>>, total: nat): seq<Hit>
    requires forall i | 0 <= i < |top| :: Live(docs, top[i].key)
  {
    seq(|top|, i requires 0 <= i < |top| && Live(docs, top[i].key) => HitFor(docs[top[i].key].value, top[i].rank.first, total))
  }

  /** Every ranked message is the document of one ranked id, and has its rank. */
  ghost predicate SameRanks(docs: Docs, byMessage: map<Key, nat>, docRanks: map<nat, Rank>, ranks: map<Key, Rank>) {
    && (forall d | d in docRanks ::
          Live(docs, d) && docs[d].value.Key() in ranks && ranks[docs[d].value.Key()] == docRanks[d])
    && (forall k | k in ranks :: k in byMessage && byMessage[k] in docRanks)
  }

  function SelectedKeys(docs: Docs, sel: seq<nat>): (r: seq<Key>)
    requires forall i | 0 <= i < |sel| :: Live(docs, sel[i])
    ensures |r| == |sel|
    ensures forall i | 0 <= i < |sel| && Live(docs, sel[i]) :: r[i] == docs[sel[i]].value.Key()
  {
    seq(|sel|, i requires 0 <= i < |sel| && Live(docs, sel[i]) => docs[sel[i]].value.Key())
  }

  lemma RenamingIsBijective(docs: Docs, byMessage: map<Key, nat>, docRanks: map<nat, Rank>, ranks: map<Key, Rank>)
    requires KeysExact(docs, byMessage) && SameRanks(docs, byMessage, docRanks, ranks)
    ensures var rename := Renaming(docs, docRanks);
            && rename.Keys == docRanks.Keys
            && (forall a, b | a in rename && b in rename && a != b :: rename[a] != rename[b])
            && (forall k | k in ranks :: exists d :: d in rename && rename[d] == k)
  {
    var rename := Renaming(docs, docRanks);
    forall k | k in ranks ensures exists d :: d in rename && rename[d] == k {
      assert byMessage[k] in rename && rename[byMessage[k]] == k;
    }
    forall a, b | a in rename && b in rename && a != b ensures rename[a] != rename[b] {
      assert byMessage[rename[a]] == a && byMessage[rename[b]] == b;
    }
  }

  lemma RenamedSelection(docs: Docs, byMessage: map<Key, nat>, sel: seq<nat>, docRanks: map<nat, Rank>,
                         ranks: map<Key, Rank>, limit: nat)
    requires KeysExact(docs, byMessage) && SameRanks(docs, byMessage, docRanks, ranks)
    requires IsTopSelection(sel, docRanks, limit)
    ensures forall i | 0 <= i < |sel| :: Live(docs, sel[i])
    ensures IsTopSelection(SelectedKeys(docs, sel), ranks, limit)
  {
    assert forall i | 0 <= i < |sel| :: sel[i] in docRanks;
    var rename := Renaming(docs, docRanks);
    RenamingIsBijective(docs, byMessage, docRanks, ranks);
    Relabel(sel, docRanks, limit, rename, ranks, SelectedKeys(docs, sel));
  }

  /** Selecting documents by id and then materialising hits selects messages by key. */
  lemma HitsAnswer(docs: Docs, byMessage: map<Key, nat>, all: seq<Ranked<nat>>, docRanks: map<nat, Rank>,
                   ranks: map<Key, Rank>, limit: nat, total: nat)
    requires KeysExact(docs, byMessage) && SameRanks(docs, byMessage, docRanks, ranks)
    requires Lists(all, docRanks)
    ensures var top := Take(SortRanked(all), limit);
            && (forall i | 0 <= i < |top| :: Live(docs, top[i].key))
            && IsHitList(HitsFor(docs, top, total), ContentsOf(docs, byMessage), ranks, limit, total)
  {
    var top := Take(SortRanked(all), limit);
    SortAndTruncate(all, docRanks, limit);
    SortedLists(all, docRanks, limit);
    var sel := KeysOf(top);
    RenamedSelection(docs, byMessage, sel, docRanks, ranks, limit);
    var hits := HitsFor(docs, top, total);
    assert HitKeys(hits) == SelectedKeys(docs, sel);
  }

  lemma SortedLists<K>(all: seq<Ranked<K>>, ranks: map<K, Rank>, limit: nat)
    requires Lists(all, ranks)
    ensures forall i | 0 <= i < |Take(SortRanked(all), limit)| ::
              var r := Take(SortRanked(all), limit)[i]; r.key in ranks && ranks[r.key] == r.rank
  {
    SortRankedSorted(all);
    ListsPermuted(all, SortRanked(all), ranks);
  }

  // ---- Recency fallback -----------------------------------------------------------------

  function RecencyDocRanks(docs: Docs, n: nat, exclude: Option<ThreadId>): map<nat, Rank> {
    map d: nat | d < n && Live(docs, d) && Visible(docs[d].value, exclude) :: Rank(0, docs[d].value.createdAtMs)
  }

  lemma RecencyStep(docs: Docs, n: nat, exclude: Option<ThreadId>, all: seq<Ranked<nat>>)
    requires n < |docs| && Lists(all, RecencyDocRanks(docs, n, exclude))
    ensures docs[n].Some? && Visible(docs[n].value, exclude)
            ==> Lists(all + [Ranked(n, Rank(0, docs[n].value.createdAtMs))], RecencyDocRanks(docs, n + 1, exclude))
    ensures !(docs[n].Some? && Visible(docs[n].value, exclude))
            ==> RecencyDocRanks(docs, n + 1, exclude) == RecencyDocRanks(docs, n, exclude)
  {
    if docs[n].Some? && Visible(docs[n].value, exclude) {
      var rank := Rank(0, docs[n].value.createdAtMs);
      assert RecencyDocRanks(docs, n + 1, exclude) == RecencyDocRanks(docs, n, exclude)[n := rank];
    }
  }

  // ---- Removing a thread ----------------------------------------------------------------

  function ThreadDocs(byMessage: map<Key, nat>, threadId: ThreadId): set<nat> {
    set k | k in byMessage && k.0 == threadId :: byMessage[k]
  }

  lemma RemoveThreadStep(docs: Docs, byMessage: map<Key, nat>, c: Contents, threadId: ThreadId, d: nat)
    requires KeysExact(docs, byMessage) && d in ThreadDocs(byMessage, threadId)
    ensures Live(docs, d)
    ensures var key := docs[d].value.Key();
            && ThreadDocs(byMessage - {key}, threadId) == ThreadDocs(byMessage, threadId) - {d}
            && DropThread(c - {key}, threadId) == DropThread(c, threadId)
  {
    var key :| key in byMessage && key.0 == threadId && byMessage[key] == d;
    assert docs[d].value.Key() == key;
    assert forall k | k in byMessage && k != key :: docs[byMessage[k]].value.Key() == k;
    var after := byMessage - {key};
    forall x ensures x in ThreadDocs(after, threadId) <==> x in ThreadDocs(byMessage, threadId) - {d} {
      if x in ThreadDocs(byMessage, threadId) - {d} {
        var k :| k in byMessage && k.0 == threadId && byMessage[k] == x;
        assert k in after;
      }
    }
  }

  lemma RemoveThreadDone(docs: Docs, byMessage: map<Key, nat>, threadId: ThreadId)
    requires KeysExact(docs, byMessage) && ThreadDocs(byMessage, threadId) == {}
    ensures DropThread(ContentsOf(docs, byMessage), threadId) == ContentsOf(docs, byMessage)
  {
    assert forall k | k in byMessage && k.0 == threadId :: byMessage[k] in ThreadDocs(byMessage, threadId);
  }

  // ---- Phase 1 --------------------------------------------------------------------------

  predicate AllPosted(p: Postings, grams: seq<string>, n: nat, d: nat)
    requires n <= |grams|
  {
    forall j | 0 <= j < n :: Posted(p, grams[j], d)
  }

  /** `ids` is the intersection of the first `n` posting lists. */
  ghost predicate Intersected(ids: seq<nat>, p: Postings, grams: seq<string>, n: nat)
    requires n <= |grams|
  {
    Ascending(ids) && forall d: nat :: d in ids <==> AllPosted(p, grams, n, d)
  }

  lemma NothingPosted(p: Postings, grams: seq<string>, i: nat)
    requires i < |grams| && grams[i] !in p
    ensures Intersected([], p, grams, |grams|)
  {
    forall d: nat ensures !AllPosted(p, grams, |grams|, d) {
      assert !Posted(p, grams[i], d);
    }
  }

  lemma EmptyStaysEmpty(p: Postings, grams: seq<string>, n: nat)
    requires n <= |grams| && Intersected([], p, grams, n)
    ensures Intersected([], p, grams, |grams|)
  {
    forall d: nat ensures !AllPosted(p, grams, |grams|, d) {
      assert d !in [] && !AllPosted(p, grams, n, d);
    }
  }

  lemma FirstList(p: Postings, grams: seq<string>)
    requires |grams| > 0 && grams[0] in p
    ensures Intersected(InOrder(p[grams[0]]), p, grams, 1)
  {
    InOrderAscending(p[grams[0]]);
    InOrderMembers(p[grams[0]]);
    forall d: nat ensures AllPosted(p, grams, 1, d) <==> d in p[grams[0]] {
      assert AllPosted(p, grams, 1, d) <==> Posted(p, grams[0], d);
    }
  }

  lemma NextList(ids: seq<nat>, p: Postings, grams: seq<string>, n: nat)
    requires n < |grams| && Intersected(ids, p, grams, n) && grams[n] in p
    ensures Ascending(InOrder(p[grams[n]]))
    ensures Intersected(Common(ids, InOrder(p[grams[n]])), p, grams, n + 1)
  {
    var other := InOrder(p[grams[n]]);
    InOrderAscending(p[grams[n]]);
    InOrderMembers(p[grams[n]]);
    CommonAscending(ids, other);
    forall d: nat ensures d in Common(ids, other) <==> AllPosted(p, grams, n + 1, d) {
      CommonMember(ids, other, d);
      assert AllPosted(p, grams, n + 1, d) <==> AllPosted(p, grams, n, d) && Posted(p, grams[n], d);
    }
  }

  lemma IntersectionIsCandidateList(ids: seq<nat>, p: Postings, docs: Docs, term: string)
    requires PostingsExact(p, docs) && Tokenize.NgramsOf(term) != []
    requires Intersected(ids, p, Tokenize.NgramsOf(term), |Tokenize.NgramsOf(term)|)
    ensures IsCandidateList(ids, docs, term)
  {
    var grams := Tokenize.NgramsOf(term);
    forall d: nat ensures d in ids <==> Live(docs, d) && HasAllNgrams(docs[d].value, term) {
      if AllPosted(p, grams, |grams|, d) {
        assert Posted(p, grams[0], d);
      }
    }
  }

  class InvertedIndex {
    /** Unicode lowercasing and RFC 3339 parsing (the least 64-bit value for bad input). */
    const lower: char -> string
    const millis: string -> int

    var postings: Postings
    var docs: Docs
    var byMessage: map<Key, nat>

    ghost predicate Valid()
      reads this
    {
      Consistent(postings, docs, byMessage) && Built(docs, lower, millis)
    }

    ghost function Contents(): Contents
      requires Valid()
      reads this
    {
      ContentsOf(docs, byMessage)
    }

    constructor (lower: char -> string, millis: string -> int)
      ensures Valid() && Contents() == map[]
      ensures this.lower == lower && this.millis == millis && docs == []
    {
      this.lower, this.millis := lower, millis;
      postings, docs, byMessage := map[], [], map[];
    }

    method PostNgrams(grams: seq<string>, docId: nat)
      modifies this`postings
      ensures postings == AddPostings(old(postings), grams, docId)
    {
      for i := 0 to |grams|
        invariant postings == AddPostings(old(postings), grams[..i], docId)
      {
        assert grams[..i + 1][..i] == grams[..i];
        if grams[i] in postings {
          postings := postings[grams[i] := postings[grams[i]] + {docId}];
        } else {
          postings := postings[grams[i] := {docId}];
        }
      }
      assert grams[..|grams|] == grams;
    }

    method UnpostNgrams(grams: seq<string>, docId: nat)
      modifies this`postings
      ensures postings == DropPostings(old(postings), grams, docId)
    {
      for i := 0 to |grams|
        invariant postings == DropPostings(old(postings), grams[..i], docId)
      {
        assert grams[..i + 1][..i] == grams[..i];
        if grams[i] in postings {
          var posting := postings[grams[i]] - {docId};
          postings := if posting == {} then postings - {grams[i]} else postings[grams[i] := posting];
        }
      }
      assert grams[..|grams|] == grams;
    }

    /** Insert one message; a second message under the same (thread, id) is ignored. */
    method Insert(threadId: ThreadId, msg: Message)
      requires Valid()
      modifies this
      ensures |old(docs)| < DOC_ID_SPAN ==>
                Valid() && Contents() == InsertFirst(old(Contents()), EntryOf(lower, millis, threadId, msg))
      ensures (threadId, msg.id) in old(byMessage) ==> Valid() && unchanged(this)
      ensures (threadId, msg.id) !in old(byMessage) ==>
                && docs == old(docs) + [Some(EntryOf(lower, millis, threadId, msg))]
                && byMessage == old(byMessage)[(threadId, msg.id) := NextDocId(old(docs))]
    {
      var key := (threadId, msg.id);
      if key in byMessage {
        return;
      }
      var normalized := Tokenize.Normalize(lower, msg.content);
      var docId := NextDocId(docs);
      var grams := Tokenize.Ngrams(normalized);
      PostNgrams(grams, docId);
      docs := docs + [Some(DocEntry(threadId, msg.id, msg.sender, msg.content, normalized,
                                    msg.createdAt, millis(msg.createdAt)))];
      byMessage := byMessage[key := docId];
      if |old(docs)| < DOC_ID_SPAN {
        InsertNew(old(postings), old(docs), old(byMessage), lower, millis, threadId, msg);
      }
    }

    /** Tombstone one document and drop it from every posting list that names it. */
    method RemoveDoc(docId: nat)
      requires Valid()
      modifies this
      ensures Valid() && |docs| == |old(docs)|
      ensures !Live(old(docs), docId) ==> unchanged(this)
      ensures Live(old(docs), docId) ==>
                var key := old(docs)[docId].value.Key();
                byMessage == old(byMessage) - {key} && Contents() == old(Contents()) - {key}
    {
      if !Live(docs, docId) {
        return;
      }
      var entry := docs[docId].value;
      docs := docs[docId := None];
      byMessage := byMessage - {entry.Key()};
      var grams := Tokenize.Ngrams(entry.contentNormalized);
      UnpostNgrams(grams, docId);
      RemoveConsistent(old(postings), old(docs), old(byMessage), docId);
      RemoveContents(old(docs), old(byMessage), docId);
    }

    /** Drop every message of a thread. */
    method RemoveThread(threadId: ThreadId)
      requires Valid()
      modifies this
      ensures Valid() && |docs| == |old(docs)|
      ensures Contents() == DropThread(old(Contents()), threadId)
    {
      var toRemove := set k | k in byMessage && k.0 == threadId :: byMessage[k];
      while toRemove != {}
        invariant Valid() && |docs| == |old(docs)|
        invariant toRemove == ThreadDocs(byMessage, threadId)
        invariant DropThread(Contents(), threadId) == DropThread(old(Contents()), threadId)
        decreases |toRemove|
      {
        var docId :| docId in toRemove;
        RemoveThreadStep(docs, byMessage, Contents(), threadId, docId);
        RemoveDoc(docId);
        toRemove := toRemove - {docId};
      }
      RemoveThreadDone(docs, byMessage, threadId);
    }

    /** Phase 1: the documents holding every n-gram of the term, or none if it has no n-gram. */
    method CandidatesForTerm(term: string) returns (r: Option<seq<nat>>)
      requires Valid()
      ensures r.None? <==> Tokenize.NgramsOf(term) == []
      ensures r.Some? ==> IsCandidateList(r.value, docs, term)
    {
      var grams := Tokenize.Ngrams(term);
      if grams == [] {
        return None;
      }
      var ids := IntersectPostings(grams);
      IntersectionIsCandidateList(ids, postings, docs, term);
      return Some(ids);
    }

    method IntersectPostings(grams: seq<string>) returns (ids: seq<nat>)
      requires grams != []
      ensures Intersected(ids, postings, grams, |grams|)
    {
      if grams[0] !in postings {
        NothingPosted(postings, grams, 0);
        return [];
      }
      FirstList(postings, grams);
      var first := InOrder(postings[grams[0]]);
      var acc := new nat[|first|](i requires 0 <= i < |first| => first[i]);
      var len: nat := |first|;
      assert acc[..len] == first;
      for i := 1 to |grams|
        invariant len <= acc.Length && Intersected(acc[..len], postings, grams, i)
      {
        if len == 0 {
          assert acc[..len] == [];
          EmptyStaysEmpty(postings, grams, i);
          return [];
        }
        if grams[i] !in postings {
          NothingPosted(postings, grams, i);
          return [];
        }
        NextList(acc[..len], postings, grams, i);
        len := IntersectSortedWithBtreeset(acc, len, InOrder(postings[grams[i]]));
      }
      return acc[..len];
    }

    /** Every live document id, for a term too short to have an n-gram. */
    method LiveDocs() returns (ids: seq<nat>)
      ensures Ascending(ids) && forall d: nat :: d in ids <==> Live(docs, d)
    {
      ids := [];
      for i := 0 to |docs|
        invariant Ascending(ids) && forall d: nat :: d in ids <==> d < i && Live(docs, d)
      {
        if docs[i].Some? {
          assert forall k | 0 <= k < |ids| :: ids[k] in ids;
          ids := ids + [i];
        }
      }
    }

    method TallyTerm(counts: map<nat, nat>, term: string, ids: seq<nat>, exclude: Option<ThreadId>,
                     ghost terms: seq<string>)
      returns (out: map<nat, nat>)
      requires Covers(ids, docs, term) && Tallied(counts, docs, terms, exclude)
      ensures Tallied(out, docs, terms + [term], exclude)
    {
      out := counts;
      for i := 0 to |ids|
        invariant forall d: nat :: CountOf(out, d)
                    == CountOf(counts, d) + if d in ids[..i] && Verified(docs, exclude, term, d) then 1 else 0
        invariant forall d | d in out :: out[d] > 0
      {
        var docId := ids[i];
        assert docId !in ids[..i] && ids[..i + 1] == ids[..i] + [docId];
        if !Live(docs, docId) {
          continue;
        }
        var entry := docs[docId].value;
        if !Visible(entry, exclude) {
          continue;
        }
        if Text.Contains(entry.contentNormalized, term) {
          out := out[docId := CountOf(out, docId) + 1];
        }
      }
      assert ids[..|ids|] == ids;
      TalliedStep(counts, out, docs, terms, exclude, term);
    }

    method RankCounts(counts: map<nat, nat>) returns (all: seq<Ranked<nat>>)
      requires forall d | d in counts :: Live(docs, d)
      ensures Lists(all, DocRanks(docs, counts))
    {
      all := [];
      var remaining := counts.Keys;
      while remaining != {}
        invariant remaining <= counts.Keys
        invariant forall i, j | 0 <= i < j < |all| :: all[i].key != all[j].key
        invariant forall i | 0 <= i < |all| :: all[i].key in DocRanks(docs, counts) && all[i].key !in remaining
                                            && all[i].rank == DocRanks(docs, counts)[all[i].key]
        invariant forall d | d in counts && d !in remaining :: Ranked(d, DocRanks(docs, counts)[d]) in all
        decreases |remaining|
      {
        var d :| d in remaining;
        all := all + [Ranked(d, Rank(counts[d], docs[d].value.createdAtMs))];
        remaining := remaining - {d};
      }
    }

    method VisibleDocs(exclude: Option<ThreadId>) returns (all: seq<Ranked<nat>>)
      ensures Lists(all, RecencyDocRanks(docs, |docs|, exclude))
    {
      all := [];
      for i := 0 to |docs|
        invariant Lists(all, RecencyDocRanks(docs, i, exclude))
      {
        RecencyStep(docs, i, exclude, all);
        if docs[i].Some? && Visible(docs[i].value, exclude) {
          all := all + [Ranked(i, Rank(0, docs[i].value.createdAtMs))];
        }
      }
    }

    /** The newest visible messages, score 0. */
    method RecencyFallback(exclude: Option<ThreadId>, limit: nat, total: nat) returns (hits: seq<Hit>)
      requires Valid()
      ensures IsHitList(hits, Contents(), RecencyRanks(Contents(), exclude), limit, total)
    {
      var all := VisibleDocs(exclude);
      ghost var docRanks := RecencyDocRanks(docs, |docs|, exclude);
      HitsAnswer(docs, byMessage, all, docRanks, RecencyRanks(Contents(), exclude), limit, total);
      var top := Take(SortRanked(all), limit);
      hits := HitsFor(docs, top, total);
    }

    /** Phase 1 for every term; none as soon as one term has too many candidates. */
    method CollectCandidates(terms: seq<string>) returns (r: Option<seq<seq<nat>>>)
      requires Valid()
      ensures r.None? <==> exists t :: t in terms && Overflows(Contents(), t)
      ensures r.Some? ==> |r.value| == |terms|
                          && forall j | 0 <= j < |terms| :: Covers(r.value[j], docs, terms[j])
    {
      var perTerm: seq<seq<nat>> := [];
      for i := 0 to |terms|
        invariant |perTerm| == i
        invariant forall j | 0 <= j < i :: Covers(perTerm[j], docs, terms[j]) && !Overflows(Contents(), terms[j])
      {
        var candidates := CandidatesForTerm(terms[i]);
        var ids;
        if candidates.Some? {
          ids := candidates.value;
          CandidateListSize(ids, docs, byMessage, terms[i]);
          CandidateListCovers(ids, docs, terms[i]);
          if |ids| > LARGE_CANDIDATE_LIMIT {
            assert terms[i] in terms && Overflows(Contents(), terms[i]);
            return None;
          }
        } else {
          ids := LiveDocs();
        }
        perTerm := perTerm + [ids];
      }
      return Some(perTerm);
    }

    /** Phase 2: how many term positions each visible document matches. */
    method CountMatches(terms: seq<string>, perTerm: seq<seq<nat>>, exclude: Option<ThreadId>)
      returns (counts: map<nat, nat>)
      requires |perTerm| == |terms| && forall j | 0 <= j < |terms| :: Covers(perTerm[j], docs, terms[j])
      ensures Tallied(counts, docs, terms, exclude)
    {
      counts := map[];
      NoTerms(docs, exclude);
      for i := 0 to |terms|
        invariant Tallied(counts, docs, terms[..i], exclude)
      {
        counts := TallyTerm(counts, terms[i], perTerm[i], exclude, terms[..i]);
        assert terms[..i] + [terms[i]] == terms[..i + 1];
      }
      assert terms[..|terms|] == terms;
    }

    /** Rank the counted documents and keep the first `limit`. */
    method TopHits(counts: map<nat, nat>, terms: seq<string>, limit: nat, exclude: Option<ThreadId>)
      returns (hits: seq<Hit>)
      requires Valid() && Tallied(counts, docs, terms, exclude)
      ensures IsHitList(hits, Contents(), MatchRanks(Contents(), terms, exclude), limit, |terms|)
    {
      TalliedRanks(counts, docs, byMessage, terms, exclude);
      var ranked := RankCounts(counts);
      ghost var docRanks := DocRanks(docs, counts);
      HitsAnswer(docs, byMessage, ranked, docRanks, MatchRanks(Contents(), terms, exclude), limit, |terms|);
      var top := Take(SortRanked(ranked), limit);
      hits := HitsFor(docs, top, |terms|);
    }

    /** Phase 1 then Phase 2: the best `limit` messages, by the words of the query they hold, then
        by time. */
    method Search(query: string, limit: nat, exclude: Option<ThreadId>) returns (hits: seq<Hit>)
      requires Valid()
      ensures IsAnswer(hits, Contents(), Terms(lower, query), limit, exclude)
      ensures IsBest(hits, Contents(), Tokenize.Normalized(lower, query), limit, exclude, millis)
    {
      hits := SearchTerms(query, limit, exclude);
      AnswerIsBest(hits, lower, millis, Contents(), query, limit, exclude);
    }

    method SearchTerms(query: string, limit: nat, exclude: Option<ThreadId>) returns (hits: seq<Hit>)
      requires Valid()
      ensures IsAnswer(hits, Contents(), Terms(lower, query), limit, exclude)
    {
      if limit == 0 {
        return [];
      }
      var normalized := Tokenize.Normalize(lower, query);
      var terms := LongTerms(Text.SplitWhitespace(normalized));
      if terms == [] {
        return [];
      }
      var perTerm := CollectCandidates(terms);
      if perTerm.None? {
        hits := RecencyFallback(exclude, limit, |terms|);
        return;
      }
      var counts := CountMatches(terms, perTerm.value, exclude);
      hits := TopHits(counts, terms, limit, exclude);
    }
  }
}
