/** Ranking by two keys, both descending, and top-`limit` selection. */
module Ranking {
  datatype Rank = Rank(first: int, second: int)

  datatype Ranked<K> = Ranked(key: K, rank: Rank)

  predicate Outranks(a: Rank, b: Rank) {
    a.first > b.first || (a.first == b.first && a.second > b.second)
  }

  predicate Distinct<T(==)>(s: seq<T>) {
    forall i, j | 0 <= i < j < |s| :: s[i] != s[j]
  }

  /** `sel` is a best-first choice of `limit` keys (all of them when there are fewer). */
  ghost predicate IsTopSelection<K>(sel: seq<K>, ranks: map<K, Rank>, limit: nat) {
    && Distinct(sel)
    && (forall i | 0 <= i < |sel| :: sel[i] in ranks)
    && |sel| == (if limit < |ranks| then limit else |ranks|)
    && (forall i, j | 0 <= i < j < |sel| :: !Outranks(ranks[sel[j]], ranks[sel[i]]))
    && (forall k, i | k in ranks && k !in sel && 0 <= i < |sel| :: !Outranks(ranks[k], ranks[sel[i]]))
  }

  function ToSet<T>(s: seq<T>): set<T> {
    set x | x in s
  }

  lemma {:induction false} DistinctCount<T>(s: seq<T>)
    requires Distinct(s)
    ensures |ToSet(s)| == |s|
  {
    if s != [] {
      var init := s[..|s| - 1];
      var last := s[|s| - 1];
      DistinctCount(init);
      assert s == init + [last] && last !in init;
      assert ToSet(s) == ToSet(init) + {last};
    }
  }

  lemma MoreElements<T>(a: set<T>, b: set<T>)
    requires |a| > |b|
    ensures exists x :: x in a && x !in b
  {
    assert b == a * b + (b - a);
    assert a == a * b + (a - b);
    var x :| x in a - b;
  }

  lemma EarlierRanksNoLower<K>(sel: seq<K>, ranks: map<K, Rank>, limit: nat, i: nat, k: K)
    requires IsTopSelection(sel, ranks, limit) && i < |sel| && k in ToSet(sel[..i + 1])
    ensures k in ranks && !Outranks(ranks[sel[i]], ranks[k])
  {
    var p :| 0 <= p <= i && sel[p] == k;
  }

  lemma LaterRanksNoHigher<K>(sel: seq<K>, ranks: map<K, Rank>, limit: nat, i: nat, k: K)
    requires IsTopSelection(sel, ranks, limit) && i < |sel| && k in ranks && k !in ToSet(sel[..i])
    ensures !Outranks(ranks[k], ranks[sel[i]])
  {
    if k in sel {
      var q :| 0 <= q < |sel| && sel[q] == k;
      assert forall j | 0 <= j < i :: sel[j] in sel[..i];
      assert q >= i;
    }
  }

  /** One of `a`'s first `i + 1` keys is missing from `b`'s first `i`; it ranks no lower than
      `a[i]`, and `b[i]` ranks no lower than it. */
  lemma TopSelectionNotBetter<K>(a: seq<K>, b: seq<K>, ranks: map<K, Rank>, limit: nat, i: nat)
    requires IsTopSelection(a, ranks, limit) && IsTopSelection(b, ranks, limit) && i < |a|
    ensures !Outranks(ranks[a[i]], ranks[b[i]])
  {
    var firsts, bests := ToSet(a[..i + 1]), ToSet(b[..i]);
    DistinctCount(a[..i + 1]);
    DistinctCount(b[..i]);
    MoreElements(firsts, bests);
    var k :| k in firsts && k !in bests;
    EarlierRanksNoLower(a, ranks, limit, i, k);
    LaterRanksNoHigher(b, ranks, limit, i, k);
  }

  /** Any two answers rank alike position by position: ties are the only freedom. */
  lemma TopSelectionsAgree<K>(a: seq<K>, b: seq<K>, ranks: map<K, Rank>, limit: nat)
    requires IsTopSelection(a, ranks, limit) && IsTopSelection(b, ranks, limit)
    ensures |a| == |b| && forall i | 0 <= i < |a| :: ranks[a[i]] == ranks[b[i]]
  {
    forall i | 0 <= i < |a| ensures ranks[a[i]] == ranks[b[i]] {
      TopSelectionNotBetter(a, b, ranks, limit, i);
      TopSelectionNotBetter(b, a, ranks, limit, i);
    }
  }

  // ---- Stable sort, best first ----------------------------------------------------------

  function InsertRanked<K>(x: Ranked<K>, s: seq<Ranked<K>>): seq<Ranked<K>> {
    if s == [] || !Outranks(s[0].rank, x.rank) then [x] + s else [s[0]] + InsertRanked(x, s[1..])
  }

  /** `sort_by` with descending rank. */
  function SortRanked<K>(s: seq<Ranked<K>>): seq<Ranked<K>> {
    if s == [] then [] else InsertRanked(s[0], SortRanked(s[1..]))
  }

  predicate BestFirst<K>(s: seq<Ranked<K>>) {
    forall i, j | 0 <= i < j < |s| :: !Outranks(s[j].rank, s[i].rank)
  }

  lemma {:induction false} InsertRankedMultiset<K>(x: Ranked<K>, s: seq<Ranked<K>>)
    ensures multiset(InsertRanked(x, s)) == multiset(s) + multiset{x}
  {
    if s != [] && Outranks(s[0].rank, x.rank) {
      InsertRankedMultiset(x, s[1..]);
      assert s == [s[0]] + s[1..];
    }
  }

  lemma {:induction false} InsertRankedSorted<K>(x: Ranked<K>, s: seq<Ranked<K>>)
    requires BestFirst(s)
    ensures BestFirst(InsertRanked(x, s))
  {
    if s != [] && Outranks(s[0].rank, x.rank) {
      var rest := InsertRanked(x, s[1..]);
      InsertRankedSorted(x, s[1..]);
      InsertRankedMultiset(x, s[1..]);
      forall j | 0 <= j < |rest| ensures !Outranks(rest[j].rank, s[0].rank) {
        assert rest[j] in multiset(rest);
        assert rest[j] == x || rest[j] in s[1..];
      }
    }
  }

  lemma {:induction false} SortRankedSorted<K>(s: seq<Ranked<K>>)
    ensures BestFirst(SortRanked(s)) && multiset(SortRanked(s)) == multiset(s)
  {
    if s != [] {
      SortRankedSorted(s[1..]);
      InsertRankedSorted(s[0], SortRanked(s[1..]));
      InsertRankedMultiset(s[0], SortRanked(s[1..]));
      assert s == [s[0]] + s[1..];
    }
  }

  /** `all` lists every key of `ranks` once, with its rank. */
  ghost predicate Lists<K>(all: seq<Ranked<K>>, ranks: map<K, Rank>) {
    && (forall i, j | 0 <= i < j < |all| :: all[i].key != all[j].key)
    && (forall i | 0 <= i < |all| :: all[i].key in ranks && ranks[all[i].key] == all[i].rank)
    && (forall k | k in ranks :: Ranked(k, ranks[k]) in all)
  }

  function KeysOf<K>(s: seq<Ranked<K>>): (r: seq<K>)
    ensures |r| == |s| && forall i | 0 <= i < |s| :: r[i] == s[i].key
  {
    seq(|s|, i requires 0 <= i < |s| => s[i].key)
  }

  lemma {:induction false} MultisetRepeat<T>(s: seq<T>, i: nat, j: nat)
    requires i < j < |s| && s[i] == s[j]
    ensures multiset(s)[s[i]] >= 2
  {
    var x := s[i];
    var a, b := s[..j], s[j..];
    assert s == a + b;
    assert a[i] == x && b[0] == x;
    assert x in a && x in b;
    assert multiset(s) == multiset(a) + multiset(b);
  }

  lemma {:induction false} DistinctMultiplicity<T>(s: seq<T>, x: T)
    requires Distinct(s)
    ensures multiset(s)[x] <= 1
  {
    if s != [] {
      var init := s[..|s| - 1];
      DistinctMultiplicity(init, x);
      assert s == init + [s[|s| - 1]];
      if s[|s| - 1] == x {
        assert x !in init;
      }
    }
  }

  lemma ListsPermuted<K>(all: seq<Ranked<K>>, sorted: seq<Ranked<K>>, ranks: map<K, Rank>)
    requires Lists(all, ranks) && multiset(sorted) == multiset(all)
    ensures Lists(sorted, ranks) && |sorted| == |ranks|
  {
    assert |sorted| == |multiset(sorted)| == |multiset(all)| == |all|;
    forall i | 0 <= i < |sorted| ensures sorted[i] in all {
      assert sorted[i] in multiset(sorted);
    }
    forall i, j | 0 <= i < j < |sorted| ensures sorted[i].key != sorted[j].key {
      if sorted[i].key == sorted[j].key {
        assert sorted[i] in all && sorted[j] in all;
        assert sorted[i] == sorted[j];
        MultisetRepeat(sorted, i, j);
        DistinctMultiplicity(all, sorted[i]);
      }
    }
    forall k | k in ranks ensures Ranked(k, ranks[k]) in sorted {
      assert Ranked(k, ranks[k]) in multiset(all);
    }
    DistinctCount(KeysOf(all));
    assert ToSet(KeysOf(all)) == ranks.Keys by {
      forall k | k in ranks ensures k in KeysOf(all) {
        var i :| 0 <= i < |all| && all[i] == Ranked(k, ranks[k]);
        assert KeysOf(all)[i] == k;
      }
    }
    assert |ranks.Keys| == |ranks|;
  }

  function Take<T>(s: seq<T>, limit: nat): (r: seq<T>)
    ensures |r| == (if limit < |s| then limit else |s|) && r == s[..|r|]
  {
    if limit < |s| then s[..limit] else s
  }

  lemma OmittedDoNotOutrank<K>(sorted: seq<Ranked<K>>, ranks: map<K, Rank>, n: nat, k: K, i: nat)
    requires BestFirst(sorted) && Lists(sorted, ranks) && i < n <= |sorted|
    requires k in ranks && k !in KeysOf(sorted[..n])
    ensures !Outranks(ranks[k], sorted[i].rank)
  {
    var kept := KeysOf(sorted[..n]);
    assert forall q | 0 <= q < n :: kept[q] == sorted[q].key && kept[q] in kept;
    var p :| 0 <= p < |sorted| && sorted[p] == Ranked(k, ranks[k]);
    assert p >= n;
  }

  lemma PrefixIsTopSelection<K>(sorted: seq<Ranked<K>>, ranks: map<K, Rank>, limit: nat, sel: seq<K>)
    requires BestFirst(sorted) && Lists(sorted, ranks) && |sorted| == |ranks|
    requires |sel| == (if limit < |sorted| then limit else |sorted|)
    requires sel == KeysOf(sorted[..|sel|])
    ensures IsTopSelection(sel, ranks, limit)
  {
    assert forall i | 0 <= i < |sel| :: sel[i] == sorted[i].key && ranks[sel[i]] == sorted[i].rank;
    forall k, i | k in ranks && k !in sel && 0 <= i < |sel| ensures !Outranks(ranks[k], ranks[sel[i]]) {
      OmittedDoNotOutrank(sorted, ranks, |sel|, k, i);
    }
  }

  /** Sorting a complete list and keeping the first `limit` entries is a top selection. */
  lemma SortAndTruncate<K>(all: seq<Ranked<K>>, ranks: map<K, Rank>, limit: nat)
    requires Lists(all, ranks)
    ensures IsTopSelection(KeysOf(Take(SortRanked(all), limit)), ranks, limit)
  {
    SortRankedSorted(all);
    var sorted := SortRanked(all);
    ListsPermuted(all, sorted, ranks);
    PrefixIsTopSelection(sorted, ranks, limit, KeysOf(Take(sorted, limit)));
  }

  /** Sorting a complete list ranks every key. */
  lemma SortAll<K>(all: seq<Ranked<K>>, ranks: map<K, Rank>)
    requires Lists(all, ranks)
    ensures IsTopSelection(KeysOf(SortRanked(all)), ranks, |ranks|)
    ensures forall i | 0 <= i < |SortRanked(all)| :: SortRanked(all)[i].key in ranks
  {
    SortAndTruncate(all, ranks, |ranks|);
    SortRankedSorted(all);
    ListsPermuted(all, SortRanked(all), ranks);
  }

  /** Renaming the keys one-to-one keeps a top selection. */
  lemma Relabel<K, L>(sel: seq<K>, ranks: map<K, Rank>, limit: nat, rename: map<K, L>, renamed: map<L, Rank>,
                      out: seq<L>)
    requires IsTopSelection(sel, ranks, limit) && rename.Keys == ranks.Keys
    requires |out| == |sel| && forall i | 0 <= i < |sel| :: sel[i] in rename && out[i] == rename[sel[i]]
    requires forall a, b | a in rename && b in rename && a != b :: rename[a] != rename[b]
    requires forall k | k in rename :: rename[k] in renamed && renamed[rename[k]] == ranks[k]
    requires forall l | l in renamed :: exists k :: k in rename && rename[k] == l
    ensures IsTopSelection(out, renamed, limit)
  {
    SameSize(rename, ranks, renamed);
    forall l, i | l in renamed && l !in out && 0 <= i < |out| ensures !Outranks(renamed[l], renamed[out[i]]) {
      var k :| k in rename && rename[k] == l;
      assert forall j | 0 <= j < |sel| :: out[j] in out;
      assert k !in sel;
    }
  }

  function Image<K, L>(keys: set<K>, rename: map<K, L>): set<L>
    requires keys <= rename.Keys
  {
    set k | k in keys :: rename[k]
  }

  lemma {:induction false} ImageSize<K, L>(keys: set<K>, rename: map<K, L>)
    requires keys <= rename.Keys
    requires forall a, b | a in rename && b in rename && a != b :: rename[a] != rename[b]
    ensures |Image(keys, rename)| == |keys|
  {
    if keys != {} {
      var k :| k in keys;
      var rest := keys - {k};
      ImageSize(rest, rename);
      assert Image(keys, rename) == Image(rest, rename) + {rename[k]};
      assert rename[k] !in Image(rest, rename);
    }
  }

  lemma SameSize<K, L>(rename: map<K, L>, ranks: map<K, Rank>, renamed: map<L, Rank>)
    requires rename.Keys == ranks.Keys
    requires forall a, b | a in rename && b in rename && a != b :: rename[a] != rename[b]
    requires forall k | k in rename :: rename[k] in renamed
    requires forall l | l in renamed :: exists k :: k in rename && rename[k] == l
    ensures |renamed| == |ranks|
  {
    ImageSize(ranks.Keys, rename);
    assert renamed.Keys == Image(ranks.Keys, rename);
    assert |renamed.Keys| == |renamed| && |ranks.Keys| == |ranks|;
  }
}
