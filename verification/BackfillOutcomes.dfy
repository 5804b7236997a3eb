/** Which documents a backfill pass counts as skipped, as already present and as ingested. */
module BackfillOutcomes {
  import opened Wrappers
  import opened Backfill

  // ---- One document, against the tree it meets --------------------------------------------------

  /** It has a key. */
  ghost predicate Keyed(item: Item) {
    item.Listed? && item.document.key.Some?
  }

  /** It is read or, in a dry run, counted as to be read: the tree does not have it. */
  ghost predicate IsCharged(item: Item, tree: set<Identity>) {
    Keyed(item) && item.document.env.probe.Answers? && IdOf(item) !in tree
  }

  /** The pass ends here because the store is corrupt. */
  ghost predicate Aborts(item: Item, tree: set<Identity>, dryRun: bool) {
    Keyed(item) &&
    var env := item.document.env;
    || (env.probe.ProbeFails? && env.probe.failure.corrupt)
    || (IsCharged(item, tree) && !dryRun && env.read.Found? && env.ingest.IngestFails? && env.ingest.failure.corrupt)
  }

  datatype Outcome = Skipped | Present | Ingested | Charged

  /** How the document counts. A charged one is also skipped, present or ingested, except in a dry
      run. */
  ghost predicate CountsAs(o: Outcome, item: Item, tree: set<Identity>, dryRun: bool) {
    match o
    case Charged => IsCharged(item, tree)
    case Ingested =>
      // filed, and by no one else meanwhile
      && IsCharged(item, tree) && !dryRun && item.document.env.read.Found? && item.document.env.ingest.Works?
      && IdOf(item) !in item.document.env.others
    case Present =>
      // there before, or filed by someone else meanwhile
      || (Keyed(item) && item.document.env.probe.Answers? && IdOf(item) in tree)
      || (IsCharged(item, tree) && !dryRun && item.document.env.read.Found? && item.document.env.ingest.Works?
          && IdOf(item) in item.document.env.others)
    case Skipped =>
      item.Listed? && !Aborts(item, tree, dryRun) &&
      // no key, a probe without answer, nothing to read, or no filing
      (|| !Keyed(item) || !item.document.env.probe.Answers?
       || (IsCharged(item, tree) && !dryRun
           && (!item.document.env.read.Found? || !item.document.env.ingest.Works?)))
  }

  /** The tree behind the document: what it and other writers filed meanwhile is in. */
  ghost function TreeBehind(item: Item, tree: set<Identity>, dryRun: bool): set<Identity> {
    if !IsCharged(item, tree) || dryRun then tree
    else tree + item.document.env.others + if CountsAs(Ingested, item, tree, dryRun) then {IdOf(item)} else {}
  }

  lemma VisitCounts(p: Pass, item: Item, limit: nat, dryRun: bool)
    requires Roomy(p, [item]) && p.halt.Running? && p.report.scanned <= limit
    ensures var q := Visit(p, item, limit, dryRun);
            && q.halt == (if IsCharged(item, p.tree) && p.report.scanned >= limit then AtLimit
                          else if Aborts(item, p.tree, dryRun) then Corrupt else Running)
            && (q.halt.Running? ==>
                  && q.report.skipped == p.report.skipped + Once(Skipped, item, p.tree, dryRun)
                  && q.report.alreadyPresent == p.report.alreadyPresent + Once(Present, item, p.tree, dryRun)
                  && q.report.ingested == p.report.ingested + Once(Ingested, item, p.tree, dryRun)
                  && q.report.scanned == p.report.scanned + Once(Charged, item, p.tree, dryRun) <= limit)
            && q.tree == (if q.halt.AtLimit? then p.tree else TreeBehind(item, p.tree, dryRun))
            && (q.halt.AtLimit? ==> q.report.(morePending := p.report.morePending) == p.report)
            && (q.halt.Corrupt? ==>
                  q.report == p.report.(scanned := p.report.scanned + Once(Charged, item, p.tree, dryRun)))
  {
  }

  ghost function Once(o: Outcome, item: Item, tree: set<Identity>, dryRun: bool): nat {
    if CountsAs(o, item, tree, dryRun) then 1 else 0
  }

  // ---- A whole pass -----------------------------------------------------------------------------

  /** The trees before the first document, between documents and behind the last one got through. */
  ghost predicate AreTrees(trees: seq<set<Identity>>, items: seq<Item>, tree: set<Identity>, dryRun: bool) {
    && 0 < |trees| <= |items| + 1 && trees[0] == tree
    && forall n | 0 <= n < |trees| - 1 :: trees[n + 1] == TreeBehind(items[n], trees[n], dryRun)
  }

  /** How many of the documents got through count so. */
  ghost function HowMany(o: Outcome, items: seq<Item>, trees: seq<set<Identity>>, dryRun: bool): nat
    requires |trees| <= |items| + 1
  {
    if |trees| <= 1 then 0 else Once(o, items[0], trees[0], dryRun) + HowMany(o, items[1..], trees[1..], dryRun)
  }

  lemma OneMoreTree(trees: seq<set<Identity>>, items: seq<Item>, tree: set<Identity>, dryRun: bool)
    requires items != [] && AreTrees(trees, items[1..], TreeBehind(items[0], tree, dryRun), dryRun)
    ensures AreTrees([tree] + trees, items, tree, dryRun)
    ensures forall o :: HowMany(o, items, [tree] + trees, dryRun)
                     == Once(o, items[0], tree, dryRun) + HowMany(o, items[1..], trees, dryRun)
  {
    var all := [tree] + trees;
    assert all[1..] == trees;
    forall n | 0 <= n < |all| - 1 ensures all[n + 1] == TreeBehind(items[n], all[n], dryRun) {
      if n > 0 {
        assert items[1..][n - 1] == items[n];
      }
    }
  }

  /** Why the pass got through `n` items and no further. */
  ghost predicate EndsAt(q: Pass, items: seq<Item>, trees: seq<set<Identity>>, limit: nat, dryRun: bool)
    requires 0 < |trees| <= |items| + 1
  {
    var n := |trees| - 1;
    match q.halt
    case Running => n == |items| && q.tree == trees[n]
    case AtLimit => n < |items| && IsCharged(items[n], trees[n]) && q.report.scanned == limit && q.tree == trees[n]
    case Corrupt =>
      n < |items| && Aborts(items[n], trees[n], dryRun) && q.tree == TreeBehind(items[n], trees[n], dryRun)
  }

  /** From `p` to `q`, document by document. */
  ghost predicate Accounts(p: Pass, q: Pass, items: seq<Item>, trees: seq<set<Identity>>, limit: nat, dryRun: bool) {
    && AreTrees(trees, items, p.tree, dryRun) && EndsAt(q, items, trees, limit, dryRun)
    && q.report.skipped == p.report.skipped + HowMany(Skipped, items, trees, dryRun)
    && q.report.alreadyPresent == p.report.alreadyPresent + HowMany(Present, items, trees, dryRun)
    && q.report.ingested == p.report.ingested + HowMany(Ingested, items, trees, dryRun)
    && q.report.scanned == p.report.scanned + HowMany(Charged, items, trees, dryRun)
                           + (if q.halt.Corrupt? then Once(Charged, items[|trees| - 1], trees[|trees| - 1], dryRun) else 0)
  }

  // ---- Reasons ----------------------------------------------------------------------------------

  /** The reason the pass has to report about an item it gets through, if any. */
  ghost function ReasonOf(item: Item, tree: set<Identity>, dryRun: bool): Option<Note> {
    if item.Unlistable? then Some(Note(item.namespace, item.reason))
    else if !Keyed(item) then Some(Note(item.namespace, "a document row carries no key"))
    else
      var env := item.document.env;
      if env.probe.ProbeFails? then Some(Note(item.namespace, env.probe.failure.reason))
      else if !IsCharged(item, tree) || dryRun then None
      else if env.read.ReadFails? then Some(Note(item.namespace, env.read.reason))
      else if env.read.Found? && env.ingest.IngestFails? then Some(Note(item.namespace, env.ingest.failure.reason))
      else None
  }

  ghost predicate Reported(items: seq<Item>, trees: seq<set<Identity>>, dryRun: bool, note: Note)
    requires |trees| <= |items| + 1
  {
    exists n :: 0 <= n < |trees| - 1 && ReasonOf(items[n], trees[n], dryRun) == Some(note)
  }

  /** Every note is a reason of some item got through; below the bound every reason is noted. */
  ghost predicate NotesTell(was: seq<Note>, now: seq<Note>, items: seq<Item>, trees: seq<set<Identity>>, dryRun: bool)
    requires |trees| <= |items| + 1
  {
    && was <= now
    && (forall note | note in now :: note in was || Reported(items, trees, dryRun, note))
    && (|now| < 20 ==> forall note | Reported(items, trees, dryRun, note) :: note in now)
  }

  lemma VisitNotesIs(p: Pass, item: Item, limit: nat, dryRun: bool)
    requires p.halt.Running?
    ensures var q, reason := Visit(p, item, limit, dryRun), ReasonOf(item, p.tree, dryRun);
            q.report.notes == if q.halt.Running? && reason.Some? then WithNote(p.report.notes, reason.value)
                              else p.report.notes
  {
  }

  lemma VisitReason(p: Pass, item: Item, limit: nat, dryRun: bool)
    requires p.halt.Running?
    ensures var q, reason := Visit(p, item, limit, dryRun), ReasonOf(item, p.tree, dryRun);
            var was, now := p.report.notes, q.report.notes;
            && was <= now && (forall note | note in now :: note in was || reason == Some(note))
            && (q.halt.Running? && reason.Some? && |now| < 20 ==> reason.value in now)
  {
    VisitNotesIs(p, item, limit, dryRun);
  }

  lemma ReportedOneMore(items: seq<Item>, trees: seq<set<Identity>>, tree: set<Identity>, dryRun: bool, note: Note)
    requires items != [] && 0 < |trees| <= |items|
    ensures Reported(items, [tree] + trees, dryRun, note)
       <==> ReasonOf(items[0], tree, dryRun) == Some(note) || Reported(items[1..], trees, dryRun, note)
  {
    var all := [tree] + trees;
    if ReasonOf(items[0], tree, dryRun) == Some(note) {
      assert ReasonOf(items[0], all[0], dryRun) == Some(note);
    }
    if n :| 0 <= n < |trees| - 1 && ReasonOf(items[1..][n], trees[n], dryRun) == Some(note) {
      assert ReasonOf(items[n + 1], all[n + 1], dryRun) == Some(note);
    }
    if n :| 0 <= n < |all| - 1 && ReasonOf(items[n], all[n], dryRun) == Some(note) {
      if n > 0 {
        assert ReasonOf(items[1..][n - 1], trees[n - 1], dryRun) == Some(note);
      }
    }
  }

  lemma NotesGoOn(p: Pass, mid: Pass, now: seq<Note>, items: seq<Item>, trees: seq<set<Identity>>, limit: nat,
                  dryRun: bool)
    requires items != [] && 0 < |trees| <= |items| && p.halt.Running?
    requires mid == Visit(p, items[0], limit, dryRun) && mid.halt.Running?
    requires NotesTell(mid.report.notes, now, items[1..], trees, dryRun)
    ensures NotesTell(p.report.notes, now, items, [p.tree] + trees, dryRun)
  {
    VisitReason(p, items[0], limit, dryRun);
    forall note ensures Reported(items, [p.tree] + trees, dryRun, note)
      <==> ReasonOf(items[0], p.tree, dryRun) == Some(note) || Reported(items[1..], trees, dryRun, note)
    {
      ReportedOneMore(items, trees, p.tree, dryRun, note);
    }
  }

  lemma PassEnds(p: Pass, items: seq<Item>, limit: nat, dryRun: bool)
    requires items != [] && Roomy(p, items) && p.halt.Running? && p.report.scanned <= limit
    requires !Visit(p, items[0], limit, dryRun).halt.Running?
    ensures Accounts(p, Visit(p, items[0], limit, dryRun), items, [p.tree], limit, dryRun)
    ensures NotesTell(p.report.notes, Visit(p, items[0], limit, dryRun).report.notes, items, [p.tree], dryRun)
  {
    VisitCounts(p, items[0], limit, dryRun);
  }

  lemma PassGoesOn(p: Pass, mid: Pass, q: Pass, items: seq<Item>, trees: seq<set<Identity>>, limit: nat, dryRun: bool)
    requires items != [] && Roomy(p, items) && p.halt.Running? && p.report.scanned <= limit
    requires mid == Visit(p, items[0], limit, dryRun) && mid.halt.Running?
    requires Accounts(mid, q, items[1..], trees, limit, dryRun)
    ensures Accounts(p, q, items, [p.tree] + trees, limit, dryRun)
  {
    VisitCounts(p, items[0], limit, dryRun);
    OneMoreTree(trees, items, p.tree, dryRun);
    var all := [p.tree] + trees;
    assert all[|all| - 1] == trees[|trees| - 1];
    assert |trees| <= |items| - 1 ==> items[|all| - 1] == items[1..][|trees| - 1];
  }

  /** Every pass accounts for every document it gets through, and says why it got no further. */
  lemma {:induction false} PassAccounts(p: Pass, items: seq<Item>, limit: nat, dryRun: bool)
    returns (trees: seq<set<Identity>>)
    requires Roomy(p, items) && p.halt.Running? && p.report.scanned <= limit
    ensures Accounts(p, Run(p, items, limit, dryRun), items, trees, limit, dryRun)
    ensures NotesTell(p.report.notes, Run(p, items, limit, dryRun).report.notes, items, trees, dryRun)
    decreases items
  {
    trees := [p.tree];
    if items != [] {
      var mid := Visit(p, items[0], limit, dryRun);
      if mid.halt.Running? {
        VisitCounts(p, items[0], limit, dryRun);
        VisitRoom(p, items, limit, dryRun);
        var rest := PassAccounts(mid, items[1..], limit, dryRun);
        PassGoesOn(p, mid, Run(mid, items[1..], limit, dryRun), items, rest, limit, dryRun);
        NotesGoOn(p, mid, Run(mid, items[1..], limit, dryRun).report.notes, items, rest, limit, dryRun);
        trees := [p.tree] + rest;
      } else {
        PassEnds(p, items, limit, dryRun);
      }
    }
  }
}
