/** Ordered sets of document ids: iteration order and the in-place sort-merge intersection. */
module DocIds {

  predicate Ascending(s: seq<nat>) {
    forall i, j | 0 <= i < j < |s| :: s[i] < s[j]
  }

  predicate IsLeast(m: nat, s: set<nat>) {
    m in s && forall x | x in s :: m <= x
  }

  lemma {:induction false} LeastExists(s: set<nat>)
    requires s != {}
    ensures exists m :: IsLeast(m, s)
  {
    var y :| y in s;
    if s == {y} {
      assert IsLeast(y, s);
    } else {
      var rest := s - {y};
      assert s == rest + {y};
      LeastExists(rest);
      var m :| IsLeast(m, rest);
      assert IsLeast(if m <= y then m else y, s);
    }
  }

  function Least(s: set<nat>): (m: nat)
    requires s != {}
    ensures IsLeast(m, s)
  {
    LeastExists(s);
    var m :| IsLeast(m, s);
    m
  }

  /** The order in which a `BTreeSet` iterates. */
  function InOrder(s: set<nat>): seq<nat> {
    if s == {} then [] else [Least(s)] + InOrder(s - {Least(s)})
  }

  lemma {:induction false} InOrderMembers(s: set<nat>)
    ensures |InOrder(s)| == |s|
    ensures forall x :: x in InOrder(s) <==> x in s
  {
    if s != {} {
      InOrderMembers(s - {Least(s)});
    }
  }

  lemma {:induction false} InOrderAscending(s: set<nat>)
    ensures Ascending(InOrder(s))
  {
    if s != {} {
      var rest := InOrder(s - {Least(s)});
      InOrderAscending(s - {Least(s)});
      InOrderMembers(s - {Least(s)});
      assert forall i | 0 <= i < |rest| :: rest[i] in s - {Least(s)};
    }
  }

  /** The members of `s` that `other` has too, in the order of `s`. */
  function Common(s: seq<nat>, other: seq<nat>): seq<nat> {
    if s == [] then []
    else Common(s[..|s| - 1], other) + if s[|s| - 1] in other then [s[|s| - 1]] else []
  }

  lemma {:induction false} CommonMember(s: seq<nat>, other: seq<nat>, x: nat)
    ensures x in Common(s, other) <==> x in s && x in other
  {
    if s != [] {
      CommonMember(s[..|s| - 1], other, x);
      assert s == s[..|s| - 1] + [s[|s| - 1]];
    }
  }

  lemma {:induction false} CommonAscending(s: seq<nat>, other: seq<nat>)
    requires Ascending(s)
    ensures Ascending(Common(s, other))
  {
    if s != [] {
      var init := s[..|s| - 1];
      CommonAscending(init, other);
      forall i | 0 <= i < |Common(init, other)| ensures Common(init, other)[i] < s[|s| - 1] {
        CommonMember(init, other, Common(init, other)[i]);
      }
    }
  }

  /** In an ascending sequence everything before `pos` is below everything from `pos` on. */
  lemma NotConsumed(other: seq<nat>, pos: nat, target: nat)
    requires Ascending(other) && pos <= |other|
    requires pos > 0 ==> other[pos - 1] < target
    requires pos < |other| ==> target <= other[pos]
    ensures target in other <==> pos < |other| && other[pos] == target
  {
    if target in other {
      var q :| 0 <= q < |other| && other[q] == target;
      assert q >= pos;
    }
  }

  lemma CommonStep(s: seq<nat>, other: seq<nat>, n: nat)
    requires n < |s|
    ensures Common(s[..n + 1], other) == Common(s[..n], other) + if s[n] in other then [s[n]] else []
  {
    assert s[..n + 1][..n] == s[..n];
  }

  /** Advance past everything strictly below `target`. */
  method SkipBelow(other: seq<nat>, start: nat, target: nat) returns (pos: nat)
    requires Ascending(other) && start <= |other| && (start > 0 ==> other[start - 1] < target)
    ensures start <= pos <= |other| && (pos > 0 ==> other[pos - 1] < target)
    ensures target in other <==> pos < |other| && other[pos] == target
  {
    pos := start;
    while pos < |other| && other[pos] < target
      invariant pos <= |other| && (pos > 0 ==> other[pos - 1] < target)
    {
      pos := pos + 1;
    }
    NotConsumed(other, pos, target);
  }

  /** Two-pointer intersection: rewrites the live prefix of `acc` in place and returns its new
      length (the host truncates the vector to it). */
  method IntersectSortedWithBtreeset(acc: array<nat>, len: nat, other: seq<nat>) returns (write: nat)
    requires len <= acc.Length && Ascending(acc[..len]) && Ascending(other)
    modifies acc
    ensures write <= len && acc[..write] == Common(old(acc[..len]), other)
  {
    ghost var before := acc[..len];
    var pos: nat := 0;
    write := 0;
    for read := 0 to len
      invariant write <= read && pos <= |other|
      invariant forall k | read <= k < len :: acc[k] == before[k]
      invariant acc[..write] == Common(before[..read], other)
      invariant pos > 0 && read < len ==> other[pos - 1] < before[read]
    {
      var target := acc[read];
      pos := SkipBelow(other, pos, target);
      CommonStep(before, other, read);
      if pos < |other| && other[pos] == target {
        acc[write] := target;
        write := write + 1;
        pos := pos + 1;
      }
    }
    assert before[..len] == before;
  }
}
