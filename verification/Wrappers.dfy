/** Optional values and fallible results, shared by every module. */
module Wrappers {
  datatype Option<+T> = None | Some(value: T)

  datatype Result<+T, +E> = Ok(value: T) | Err(error: E)

  /** The values that are there, in order. */
  function Somes<T>(s: seq<Option<T>>): seq<T> {
    if s == [] then []
    else Somes(s[..|s| - 1]) + match s[|s| - 1] case Some(x) => [x] case None => []
  }

  predicate Increasing(at: seq<nat>) {
    forall k, l | 0 <= k < l < |at| :: at[k] < at[l]
  }

  predicate EachFrom<T(==)>(items: seq<T>, s: seq<Option<T>>, from: seq<nat>)
    requires |from| == |items|
  {
    forall k | 0 <= k < |from| :: from[k] < |s| && s[from[k]] == Some(items[k])
  }

  predicate IsFrom(from: seq<nat>, n: nat) {
    n in from
  }

  predicate NoneSkipped<T>(s: seq<Option<T>>, from: seq<nat>) {
    forall n: nat {:trigger IsFrom(from, n)} | n < |s| && s[n].Some? :: IsFrom(from, n)
  }

  /** `items` are the values that are there, in order; `from` says where. */
  predicate ComeFrom<T(==)>(items: seq<T>, s: seq<Option<T>>, from: seq<nat>) {
    |from| == |items| && Increasing(from) && EachFrom(items, s, from) && NoneSkipped(s, from)
  }

  lemma NoneSkippedStep<T>(s: seq<Option<T>>, x: Option<T>, from: seq<nat>)
    requires NoneSkipped(s, from)
    ensures NoneSkipped(s + [x], if x.Some? then from + [|s|] else from)
  {
    var from' := if x.Some? then from + [|s|] else from;
    forall n: nat | n < |s| + 1 && (s + [x])[n].Some? ensures IsFrom(from', n) {
      if n < |s| {
        assert IsFrom(from, n);
      } else {
        assert from'[|from|] == n;
      }
    }
  }

  lemma {:induction false} SomesComeFrom<T>(s: seq<Option<T>>) returns (from: seq<nat>)
    ensures ComeFrom(Somes(s), s, from)
  {
    from := [];
    if s != [] {
      var init, last := s[..|s| - 1], s[|s| - 1];
      from := SomesComeFrom(init);
      NoneSkippedStep(init, last, from);
      assert s == init + [last];
      if last.Some? {
        from := from + [|init|];
      }
    }
  }
}
