/** Backfill when documents fail: what a pass still files, when passes stall, and which documents
    are filed in the end. */
module BackfillStall {
  import opened Backfill

  /** No one else writes, and no failure means a corrupt store. Anything else may fail. */
  predicate Undisturbed(items: seq<Item>) {
    forall i | i in items && i.Listed? ::
      var env := i.document.env;
      && env.others == {}
      && (env.probe.ProbeFails? ==> !env.probe.failure.corrupt)
      && (env.ingest.IngestFails? ==> !env.ingest.failure.corrupt)
  }

  /** Not filed yet, and reading and filing it would work. */
  predicate Fileable(item: Item, tree: set<Identity>) {
    !Free(item, tree) && item.document.env.read.Found? && item.document.env.ingest.Works?
  }

  /** How many of the first `i` items would be charged. */
  function ChargedBefore(items: seq<Item>, tree: set<Identity>, i: nat): nat
    requires i <= |items|
  {
    if i == 0 then 0 else (if Free(items[0], tree) then 0 else 1) + ChargedBefore(items[1..], tree, i - 1)
  }

  /** A fileable item that the pass reaches before `budget` charges are used up. */
  predicate Reachable(items: seq<Item>, tree: set<Identity>, budget: nat, i: nat) {
    i < |items| && Fileable(items[i], tree) && ChargedBefore(items, tree, i) < budget
  }

  ghost predicate AnyReachable(items: seq<Item>, tree: set<Identity>, budget: nat) {
    exists i: nat :: Reachable(items, tree, budget, i)
  }

  lemma ReachableStep(items: seq<Item>, tree: set<Identity>, budget: nat)
    requires items != [] && !Fileable(items[0], tree)
    ensures var cost := if Free(items[0], tree) then 0 else 1;
            AnyReachable(items, tree, budget)
            <==> cost <= budget && AnyReachable(items[1..], tree, budget - cost)
  {
    var cost := if Free(items[0], tree) then 0 else 1;
    if AnyReachable(items, tree, budget) {
      var i: nat :| Reachable(items, tree, budget, i);
      assert Reachable(items[1..], tree, budget - cost, i - 1);
    }
    if cost <= budget && AnyReachable(items[1..], tree, budget - cost) {
      var j: nat :| Reachable(items[1..], tree, budget - cost, j);
      assert items[1..][j] == items[j + 1];
      assert ChargedBefore(items, tree, j + 1) == cost + ChargedBefore(items[1..], tree, j);
      assert Reachable(items, tree, budget, j + 1);
    }
  }

  lemma {:induction false} TreeGrows(p: Pass, items: seq<Item>, limit: nat)
    ensures p.tree <= Run(p, items, limit, false).tree
    decreases items
  {
    if items != [] && p.halt.Running? {
      TreeGrows(Visit(p, items[0], limit, false), items[1..], limit);
    }
  }

  /** One document that is not filed: what its visit costs. */
  lemma UnfiledVisit(p: Pass, item: Item, limit: nat)
    requires Undisturbed([item]) && p.halt.Running? && p.report.scanned <= limit <= U64_MAX
    requires !Fileable(item, p.tree)
    ensures var q := Visit(p, item, limit, false);
            && q.tree == p.tree
            && (Free(item, p.tree) ==> q.halt.Running? && q.report.scanned == p.report.scanned)
            && (!Free(item, p.tree) ==>
                  if p.report.scanned < limit then q.halt.Running? && q.report.scanned == p.report.scanned + 1
                  else q.halt.AtLimit?)
  {
    assert item in [item];
    assert p.tree + {} == p.tree;
  }

  lemma FiledVisit(p: Pass, item: Item, limit: nat)
    requires p.halt.Running? && p.report.scanned < limit && Fileable(item, p.tree) && Undisturbed([item])
    ensures IdOf(item) in Visit(p, item, limit, false).tree && IdOf(item) !in p.tree
  {
    assert item in [item];
  }

  /** A pass changes the tree exactly if some fileable document has fewer charged documents
      before it than there is budget left. */
  lemma {:induction false} PassFilesIff(p: Pass, items: seq<Item>, limit: nat)
    requires Undisturbed(items) && p.halt.Running? && p.report.scanned <= limit <= U64_MAX
    ensures Run(p, items, limit, false).tree != p.tree <==> AnyReachable(items, p.tree, limit - p.report.scanned)
    decreases items
  {
    var budget := limit - p.report.scanned;
    if items != [] {
      var q, rest := Visit(p, items[0], limit, false), items[1..];
      if Fileable(items[0], p.tree) {
        if budget > 0 {
          FiledVisit(p, items[0], limit);
          TreeGrows(q, rest, limit);
          assert Reachable(items, p.tree, budget, 0);
        }
      } else {
        UnfiledVisit(p, items[0], limit);
        ReachableStep(items, p.tree, budget);
        if q.halt.Running? {
          PassFilesIff(q, rest, limit);
        }
      }
    }
  }

  /** Once a pass files nothing, no later pass does: passes stall exactly when no fileable
      document is within the limit, and then for good. */
  lemma {:induction false} StallIsPermanent(trees: seq<set<Identity>>, items: seq<Item>, limit: nat, k: nat, m: nat)
    requires Undisturbed(items) && limit <= U64_MAX && ArePasses(trees, items, limit)
    requires k + 1 < |trees| && k <= m < |trees|
    ensures trees[k + 1] == trees[k] <==> !AnyReachable(items, trees[k], limit)
    ensures trees[k + 1] == trees[k] ==> trees[m] == trees[k]
  {
    PassFilesIff(Start(trees[k]), items, limit);
    if m > k {
      StallIsPermanent(trees, items, limit, k, m - 1);
    }
  }

  /** A fileable document behind `limit` charged ones that can never be filed starves: no pass
      ever files anything, and each reports more pending. */
  lemma UnreadableStall(trees: seq<set<Identity>>, items: seq<Item>, limit: nat, m: nat, i: nat)
    requires Undisturbed(items) && limit <= U64_MAX && ArePasses(trees, items, limit) && m < |trees|
    requires i < |items| && Fileable(items[i], trees[0]) && !AnyReachable(items, trees[0], limit)
    ensures trees[m] == trees[0] && IdOf(items[i]) !in trees[m]
    ensures Run(Start(trees[m]), items, limit, false).report.morePending
  {
    if m > 0 {
      StallIsPermanent(trees, items, limit, 0, m);
    }
    StalledAtLimit(Start(trees[0]), items, limit, i);
  }

  lemma {:induction false} StalledAtLimit(p: Pass, items: seq<Item>, limit: nat, i: nat)
    requires Undisturbed(items) && p.halt.Running? && p.report.scanned <= limit <= U64_MAX
    requires i < |items| && Fileable(items[i], p.tree) && !AnyReachable(items, p.tree, limit - p.report.scanned)
    ensures Run(p, items, limit, false).report.morePending
    decreases items
  {
    var budget := limit - p.report.scanned;
    if Fileable(items[0], p.tree) {
      assert Reachable(items, p.tree, budget, 0) <==> budget > 0;
    } else {
      UnfiledVisit(p, items[0], limit);
      ReachableStep(items, p.tree, budget);
      var q := Visit(p, items[0], limit, false);
      if q.halt.Running? {
        StalledAtLimit(q, items[1..], limit, i - 1);
      }
    }
  }

  // ---- Which documents are filed in the end -----------------------------------------------------

  /** Its probe answers. */
  predicate Addressable(item: Item) {
    item.Listed? && item.document.key.Some? && item.document.env.probe.Answers?
  }

  predicate CanBeFiled(item: Item) {
    Addressable(item) && item.document.env.read.Found? && item.document.env.ingest.Works?
  }

  /** Listings of one document all work or all fail. */
  predicate SameFate(items: seq<Item>) {
    forall i, j | i in items && j in items && Addressable(i) && Addressable(j) && IdOf(i) == IdOf(j) ::
      CanBeFiled(i) == CanBeFiled(j)
  }

  /** Charged in every pass and never filed. */
  predicate Blocking(item: Item, tree: set<Identity>) {
    Addressable(item) && !CanBeFiled(item) && IdOf(item) !in tree
  }

  function BlockingBefore(items: seq<Item>, tree: set<Identity>, i: nat): nat
    requires i <= |items|
  {
    if i == 0 then 0 else (if Blocking(items[0], tree) then 1 else 0) + BlockingBefore(items[1..], tree, i - 1)
  }

  lemma {:induction false} BlockingGrows(items: seq<Item>, tree: set<Identity>, i: nat, j: nat)
    requires i <= j <= |items|
    ensures BlockingBefore(items, tree, i) <= BlockingBefore(items, tree, j)
  {
    if i > 0 {
      BlockingGrows(items[1..], tree, i - 1, j - 1);
    }
  }

  /** From `a` to `b` only documents that can be filed were filed. */
  predicate FiledOnlyWorking(items: seq<Item>, a: set<Identity>, b: set<Identity>) {
    a <= b && forall i | i in items && Addressable(i) && IdOf(i) in b - a :: CanBeFiled(i)
  }

  lemma {:induction false} BlockingStays(items: seq<Item>, a: set<Identity>, b: set<Identity>, i: nat)
    requires FiledOnlyWorking(items, a, b) && i <= |items|
    ensures BlockingBefore(items, a, i) == BlockingBefore(items, b, i)
  {
    if i > 0 {
      assert items[0] in items;
      assert Blocking(items[0], a) == Blocking(items[0], b);
      assert forall j | j in items[1..] :: j in items;
      BlockingStays(items[1..], a, b, i - 1);
    }
  }

  /** Up to the first fileable document, the charged ones are the blocking ones. */
  lemma {:induction false} ChargedAreBlocking(items: seq<Item>, tree: set<Identity>, i: nat)
    requires i <= |items| && forall j | 0 <= j < i :: !Fileable(items[j], tree)
    ensures ChargedBefore(items, tree, i) == BlockingBefore(items, tree, i)
  {
    if i > 0 {
      assert forall j | 0 <= j < i - 1 :: items[1..][j] == items[j + 1];
      ChargedAreBlocking(items[1..], tree, i - 1);
    }
  }

  lemma {:induction false} FirstFileable(items: seq<Item>, tree: set<Identity>, i: nat) returns (m: nat)
    requires i < |items| && Fileable(items[i], tree)
    ensures m <= i && Fileable(items[m], tree) && forall j | 0 <= j < m :: !Fileable(items[j], tree)
  {
    if j: nat :| j < i && Fileable(items[j], tree) {
      m := FirstFileable(items, tree, j);
    } else {
      m := i;
    }
  }

  /** What one visit files. */
  lemma VisitFilesOnlyIt(p: Pass, item: Item, limit: nat)
    requires Undisturbed([item])
    ensures var q := Visit(p, item, limit, false);
            q.tree == p.tree || (CanBeFiled(item) && q.tree == p.tree + {IdOf(item)})
  {
    assert item in [item];
    assert p.tree + {} == p.tree;
  }

  lemma {:induction false} PassFilesOnlyWorking(p: Pass, items: seq<Item>, all: seq<Item>, limit: nat)
    requires Undisturbed(items) && SameFate(all) && forall i | i in items :: i in all
    ensures FiledOnlyWorking(all, p.tree, Run(p, items, limit, false).tree)
    decreases items
  {
    if items != [] && p.halt.Running? {
      var q, rest := Visit(p, items[0], limit, false), items[1..];
      assert items[0] in items && forall i | i in rest :: i in items;
      VisitFilesOnlyIt(p, items[0], limit);
      PassFilesOnlyWorking(q, rest, all, limit);
      TreeGrows(q, rest, limit);
    }
  }

  /** Every listing of `x` comes at `i` or later. */
  predicate ListedFrom(items: seq<Item>, x: Identity, i: nat) {
    forall j | 0 <= j < |items| && j < i && Addressable(items[j]) :: IdOf(items[j]) != x
  }

  lemma VisitCharges(p: Pass, item: Item, limit: nat)
    requires Undisturbed([item]) && p.halt.Running? && p.report.scanned <= limit <= U64_MAX
    ensures var q := Visit(p, item, limit, false);
            && (q.halt.Running? ==>
                  q.report.scanned == p.report.scanned + (if Free(item, p.tree) then 0 else 1) <= limit)
            && (p.report.scanned == limit ==> q.tree == p.tree)
  {
    assert item in [item];
    assert p.tree + {} == p.tree;
  }

  /** A document behind as many blocking ones as there is budget is not filed by the pass. */
  lemma {:induction false} BlockedIsNotFiled(p: Pass, items: seq<Item>, limit: nat, x: Identity, i: nat)
    requires Undisturbed(items) && SameFate(items) && p.halt.Running? && p.report.scanned <= limit <= U64_MAX
    requires x !in p.tree && i <= |items| && ListedFrom(items, x, i)
    requires p.report.scanned + BlockingBefore(items, p.tree, i) >= limit
    ensures x !in Run(p, items, limit, false).tree
    decreases items
  {
    if items != [] {
      var q, rest := Visit(p, items[0], limit, false), items[1..];
      assert items[0] in items && forall j | j in rest :: j in items;
      assert forall j | 0 <= j < |rest| :: rest[j] == items[j + 1];
      VisitFilesOnlyIt(p, items[0], limit);
      VisitCharges(p, items[0], limit);
      if q.halt.Running? {
        if i > 0 {
          BlockingStays(rest, p.tree, q.tree, i - 1);
          BlockedIsNotFiled(q, rest, limit, x, i - 1);
        } else {
          BlockedIsNotFiled(q, rest, limit, x, 0);
        }
      }
    }
  }

  /** All passes together file only what can be filed. */
  lemma {:induction false} PassesFileOnlyWorking(trees: seq<set<Identity>>, items: seq<Item>, limit: nat, k: nat)
    requires Undisturbed(items) && SameFate(items) && ArePasses(trees, items, limit) && k < |trees|
    ensures FiledOnlyWorking(items, trees[0], trees[k])
  {
    if k > 0 {
      PassesFileOnlyWorking(trees, items, limit, k - 1);
      PassFilesOnlyWorking(Start(trees[k - 1]), items, items, limit);
    }
  }

  lemma {:induction false} BlockedStaysUnfiled(trees: seq<set<Identity>>, items: seq<Item>, limit: nat, k: nat,
                                               x: Identity, i: nat)
    requires Undisturbed(items) && SameFate(items) && limit <= U64_MAX && ArePasses(trees, items, limit) && k < |trees|
    requires x !in trees[0] && i <= |items| && ListedFrom(items, x, i) && BlockingBefore(items, trees[0], i) >= limit
    ensures x !in trees[k]
  {
    if k > 0 {
      BlockedStaysUnfiled(trees, items, limit, k - 1, x, i);
      PassesFileOnlyWorking(trees, items, limit, k - 1);
      BlockingStays(items, trees[0], trees[k - 1], i);
      BlockedIsNotFiled(Start(trees[k - 1]), items, limit, x, i);
    }
  }

  // ---- How many passes are enough ---------------------------------------------------------------

  /** The identities of the items that can be filed. */
  function WorkingIds(items: seq<Item>): set<Identity> {
    set i | i in items && CanBeFiled(i) :: IdOf(i)
  }

  lemma {:induction false} FewWorkingIds(items: seq<Item>)
    ensures |WorkingIds(items)| <= |items|
  {
    if items != [] {
      FewWorkingIds(items[1..]);
      assert items == [items[0]] + items[1..];
      if CanBeFiled(items[0]) {
        assert WorkingIds(items) == WorkingIds(items[1..]) + {IdOf(items[0])};
      } else {
        assert WorkingIds(items) == WorkingIds(items[1..]);
      }
    }
  }

  /** What a pass adds can be filed. */
  lemma {:induction false} AddedAreWorking(p: Pass, items: seq<Item>, all: seq<Item>, limit: nat)
    requires Undisturbed(items) && forall i | i in items :: i in all
    ensures Run(p, items, limit, false).tree <= p.tree + WorkingIds(all)
    decreases items
  {
    if items != [] && p.halt.Running? {
      assert items[0] in items && forall i | i in items[1..] :: i in items;
      VisitFilesOnlyIt(p, items[0], limit);
      AddedAreWorking(Visit(p, items[0], limit, false), items[1..], all, limit);
    }
  }

  lemma FewerLeft<T>(working: set<T>, before: set<T>, after: set<T>)
    requires before <= after <= before + working && before != after
    ensures |working - after| < |working - before|
  {
    var x :| x in after && x !in before;
    SubsetSize(working - after, working - before - {x});
  }

  /** A pass that does not stall leaves fewer fileable identities. */
  lemma PassUsesUp(items: seq<Item>, tree: set<Identity>, limit: nat)
    requires Undisturbed(items) && limit <= U64_MAX
    ensures if AnyReachable(items, tree, limit)
            then |WorkingIds(items) - PassTree(items, tree, limit)| < |WorkingIds(items) - tree|
            else PassTree(items, tree, limit) == tree
  {
    PassFilesIff(Start(tree), items, limit);
    if AnyReachable(items, tree, limit) {
      TreeGrows(Start(tree), items, limit);
      AddedAreWorking(Start(tree), items, items, limit);
      FewerLeft(WorkingIds(items), tree, PassTree(items, tree, limit));
    }
  }

  lemma {:induction false} PassesUseUp(trees: seq<set<Identity>>, items: seq<Item>, limit: nat, k: nat)
    requires Undisturbed(items) && limit <= U64_MAX && ArePasses(trees, items, limit) && k < |trees|
    ensures !AnyReachable(items, trees[k], limit) || |WorkingIds(items) - trees[k]| + k <= |items|
  {
    if k == 0 {
      FewWorkingIds(items);
      SubsetSize(WorkingIds(items) - trees[0], WorkingIds(items));
    } else {
      PassesUseUp(trees, items, limit, k - 1);
      PassUsesUp(items, trees[k - 1], limit);
      assert trees[k] == PassTree(items, trees[k - 1], limit);
    }
  }

  lemma ReachableIsWorking(items: seq<Item>, tree: set<Identity>, limit: nat)
    ensures AnyReachable(items, tree, limit) ==> |WorkingIds(items) - tree| > 0
  {
    if i: nat :| Reachable(items, tree, limit, i) {
      assert items[i] in items && IdOf(items[i]) in WorkingIds(items) - tree;
    }
  }

  lemma SubsetSize<T>(a: set<T>, b: set<T>)
    requires a <= b
    ensures |a| <= |b|
  {
    assert b == a + (b - a);
  }

  /** After as many passes as there are documents nothing more is reachable. */
  lemma PassesSettle(trees: seq<set<Identity>>, items: seq<Item>, limit: nat)
    requires Undisturbed(items) && limit <= U64_MAX && ArePasses(trees, items, limit) && |trees| > |items|
    ensures !AnyReachable(items, trees[|items|], limit)
  {
    PassesUseUp(trees, items, limit, |items|);
    ReachableIsWorking(items, trees[|items|], limit);
  }

  /** Passes converge, failures or not, and exactly how far: after as many passes as there are
      documents, a document that can be filed is filed if and only if fewer than `limit` blocking
      ones are listed before it. */
  lemma FiledInTheEndIff(trees: seq<set<Identity>>, items: seq<Item>, limit: nat, i: nat)
    requires Undisturbed(items) && SameFate(items) && limit <= U64_MAX
    requires ArePasses(trees, items, limit) && |trees| > |items|
    requires i < |items| && Fileable(items[i], trees[0]) && ListedFrom(items, IdOf(items[i]), i)
    ensures IdOf(items[i]) in trees[|items|] <==> BlockingBefore(items, trees[0], i) < limit
  {
    var end, x := trees[|items|], IdOf(items[i]);
    if BlockingBefore(items, trees[0], i) >= limit {
      BlockedStaysUnfiled(trees, items, limit, |items|, x, i);
    } else if x !in end {
      PassesSettle(trees, items, limit);
      PassesFileOnlyWorking(trees, items, limit, |items|);
      BlockingStays(items, trees[0], end, i);
      var m := FirstFileable(items, end, i);
      ChargedAreBlocking(items, end, m);
      BlockingGrows(items, end, m, i);
      assert Reachable(items, end, limit, m);
    }
  }

  // ---- Previews -----------------------------------------------------------------------------

  /** What a real pass without limit is charged for: listings of an identity it has filed are free. */
  function ChargedByPass(items: seq<Item>, tree: set<Identity>): nat {
    if items == [] then 0
    else if Free(items[0], tree) then ChargedByPass(items[1..], tree)
    else 1 + ChargedByPass(items[1..], if CanBeFiled(items[0]) then tree + {IdOf(items[0])} else tree)
  }

  /** No identity that a pass could file is listed again later. */
  predicate NoFiledRepeats(items: seq<Item>, tree: set<Identity>) {
    forall i, j | 0 <= i < j < |items| && CanBeFiled(items[i]) && Addressable(items[j]) && IdOf(items[i]) !in tree ::
      IdOf(items[i]) != IdOf(items[j])
  }

  predicate ListsAgain(items: seq<Item>, id: Identity) {
    exists i :: i in items && Addressable(i) && IdOf(i) == id
  }

  lemma ChargedVisit(p: Pass, item: Item, limit: nat)
    requires Undisturbed([item]) && p.halt.Running? && p.report.scanned < U64_MAX
    ensures var q := Visit(p, item, limit, false);
            if Free(item, p.tree) then q.halt.Running? && q.tree == p.tree && q.report.scanned == p.report.scanned
            else if p.report.scanned >= limit then q.halt.AtLimit? && q.report.scanned == p.report.scanned
            else q.halt.Running? && q.report.scanned == p.report.scanned + 1
                 && q.tree == if CanBeFiled(item) then p.tree + {IdOf(item)} else p.tree
  {
    assert item in [item];
    assert p.tree + {} == p.tree;
  }

  lemma {:induction false} PassScans(p: Pass, items: seq<Item>, limit: nat)
    requires Undisturbed(items) && p.halt.Running? && p.report.scanned <= limit
    requires p.report.scanned + |items| <= U64_MAX
    ensures Run(p, items, limit, false).report.scanned
         == Min(limit, p.report.scanned + ChargedByPass(items, p.tree))
    decreases items
  {
    if items != [] {
      ChargedVisit(p, items[0], limit);
      var q := Visit(p, items[0], limit, false);
      if q.halt.Running? {
        PassScans(q, items[1..], limit);
      }
    }
  }

  lemma {:induction false} PreviewScans(p: Pass, items: seq<Item>, limit: nat)
    requires Undisturbed(items) && p.halt.Running? && p.report.scanned <= limit
    requires p.report.scanned + |items| <= U64_MAX
    ensures Run(p, items, limit, true).report.scanned
         == Min(limit, p.report.scanned + ChargedBefore(items, p.tree, |items|))
    decreases items
  {
    if items != [] {
      assert items[0] in items;
      var q := Visit(p, items[0], limit, true);
      if q.halt.Running? {
        PreviewScans(q, items[1..], limit);
      }
    }
  }

  /** Filing one identity makes its later listings free. */
  lemma {:induction false} FilingSaves(items: seq<Item>, tree: set<Identity>, id: Identity)
    requires id !in tree
    ensures ChargedBefore(items, tree + {id}, |items|) <= ChargedBefore(items, tree, |items|)
    ensures ChargedBefore(items, tree + {id}, |items|) == ChargedBefore(items, tree, |items|) <==> !ListsAgain(items, id)
  {
    if items != [] {
      FilingSaves(items[1..], tree, id);
      assert items == [items[0]] + items[1..];
      assert ListsAgain(items, id)
        <==> (Addressable(items[0]) && IdOf(items[0]) == id) || ListsAgain(items[1..], id);
    }
  }

  lemma RepeatsStep(items: seq<Item>, tree: set<Identity>)
    requires items != []
    ensures var rest := items[1..];
            NoFiledRepeats(items, tree)
            <==> if CanBeFiled(items[0]) && IdOf(items[0]) !in tree
                 then !ListsAgain(rest, IdOf(items[0])) && NoFiledRepeats(rest, tree + {IdOf(items[0])})
                 else NoFiledRepeats(rest, tree)
  {
    var rest := items[1..];
    assert forall j | 0 <= j < |rest| :: rest[j] == items[j + 1];
  }

  /** The real pass is never charged for more, and for as much exactly without filed repeats. */
  lemma {:induction false} RepeatsCount(items: seq<Item>, tree: set<Identity>)
    ensures ChargedByPass(items, tree) <= ChargedBefore(items, tree, |items|)
    ensures ChargedByPass(items, tree) == ChargedBefore(items, tree, |items|) <==> NoFiledRepeats(items, tree)
  {
    if items != [] {
      RepeatsStep(items, tree);
      if CanBeFiled(items[0]) && IdOf(items[0]) !in tree {
        FilingSaves(items[1..], tree, IdOf(items[0]));
        RepeatsCount(items[1..], tree + {IdOf(items[0])});
      } else {
        RepeatsCount(items[1..], tree);
      }
    }
  }

  /** A preview scans what the real pass scans exactly when no identity that could be filed is
      listed again or the charges of the real pass use up the limit. */
  lemma PreviewExactIff(items: seq<Item>, tree: set<Identity>, limit: nat)
    requires Undisturbed(items) && |items| <= U64_MAX
    ensures Run(Start(tree), items, limit, true).report.scanned == Run(Start(tree), items, limit, false).report.scanned
       <==> NoFiledRepeats(items, tree) || ChargedByPass(items, tree) >= limit
  {
    PreviewScans(Start(tree), items, limit);
    PassScans(Start(tree), items, limit);
    RepeatsCount(items, tree);
  }
}
