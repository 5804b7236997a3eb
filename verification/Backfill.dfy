/**
 Filing stored connector documents into the memory tree, a bounded number per pass.

 What the engine answers for each document is an input: `Env` says what its probe, read and
 ingest give when the pass gets to it, and what other writers file meanwhile.
 */
module Backfill {
  import opened Wrappers

  const U64_MAX: nat := 0xFFFF_FFFF_FFFF_FFFF
  const DEFAULT_LIMIT: nat := 500
  const MAX_NOTES: nat := 20

  datatype Scope = Scope(toolkit: string, connection: string)
  datatype Identity = Identity(scope: Scope, key: string)

  datatype Failure = Failure(corrupt: bool, reason: string)

  datatype Probe = Answers | ProbeRefused | ProbeFails(failure: Failure)
  datatype Read = Found | Missing | ReadFails(reason: string)
  datatype Ingest = Works | IngestRefused | IngestFails(failure: Failure)

  datatype Env = Env(probe: Probe, read: Read, ingest: Ingest, others: set<Identity>)

  datatype Document = Document(key: Option<string>, env: Env)

  datatype Target = Target(namespace: string, scope: Scope, listed: Result<seq<Document>, string>)

  datatype Note = Note(namespace: string, reason: string)

  datatype Report = Report(
    scanned: nat,
    ingested: nat,
    alreadyPresent: nat,
    skipped: nat,
    morePending: bool,
    notes: seq<Note>)

  const EMPTY_REPORT := Report(0, 0, 0, 0, false, [])

  function SaturatingInc(n: nat): nat {
    if n >= U64_MAX then U64_MAX else n + 1
  }

  function WithNote(notes: seq<Note>, n: Note): seq<Note> {
    if |notes| < MAX_NOTES && n !in notes then notes + [n] else notes
  }

  // ---- A pass as a fold over everything listed ----------------------------------------------

  datatype Item = Unlistable(namespace: string, reason: string)
                | Listed(namespace: string, scope: Scope, document: Document)

  datatype Halt = Running | AtLimit | Corrupt

  datatype Pass = Pass(report: Report, tree: set<Identity>, halt: Halt)

  function Start(tree: set<Identity>): Pass {
    Pass(EMPTY_REPORT, tree, Running)
  }

  function Noted(p: Pass, n: Note): Pass {
    p.(report := p.report.(notes := WithNote(p.report.notes, n)))
  }

  function SkipOne(p: Pass): Pass {
    p.(report := p.report.(skipped := SaturatingInc(p.report.skipped)))
  }

  function Present(p: Pass): Pass {
    p.(report := p.report.(alreadyPresent := SaturatingInc(p.report.alreadyPresent)))
  }

  function Fail(p: Pass, namespace: string, f: Failure): Pass {
    if f.corrupt then p.(halt := Corrupt) else Noted(SkipOne(p), Note(namespace, f.reason))
  }

  function File(p: Pass, namespace: string, id: Identity, env: Env): Pass {
    match env.read
    case Missing => SkipOne(p)
    case ReadFails(reason) => Noted(SkipOne(p), Note(namespace, reason))
    case Found =>
      match env.ingest
      case IngestRefused => SkipOne(p)
      case IngestFails(f) => Fail(p, namespace, f)
      case Works =>
        if id in p.tree then Present(p)
        else p.(report := p.report.(ingested := SaturatingInc(p.report.ingested)), tree := p.tree + {id})
  }

  function Charge(p: Pass, env: Env, dryRun: bool): Pass {
    p.(report := p.report.(scanned := SaturatingInc(p.report.scanned)),
       tree := if dryRun then p.tree else p.tree + env.others)
  }

  function Visit(p: Pass, item: Item, limit: nat, dryRun: bool): Pass {
    match item
    case Unlistable(namespace, reason) => Noted(p, Note(namespace, reason))
    case Listed(namespace, scope, Document(key, env)) =>
      if key.None? then Noted(SkipOne(p), Note(namespace, "a document row carries no key"))
      else
        match env.probe
        case ProbeRefused => SkipOne(p)
        case ProbeFails(f) => Fail(p, namespace, f)
        case Answers =>
          var id := Identity(scope, key.value);
          if id in p.tree then Present(p)
          else if p.report.scanned >= limit then p.(report := p.report.(morePending := true), halt := AtLimit)
          else if dryRun then Charge(p, env, true)
          else File(Charge(p, env, false), namespace, id, env)
  }

  function Run(p: Pass, items: seq<Item>, limit: nat, dryRun: bool): Pass
    decreases items
  {
    if items == [] || !p.halt.Running? then p else Run(Visit(p, items[0], limit, dryRun), items[1..], limit, dryRun)
  }

  function DocumentItems(t: Target, documents: seq<Document>): (r: seq<Item>)
    ensures |r| == |documents|
  {
    seq(|documents|, i requires 0 <= i < |documents| => Listed(t.namespace, t.scope, documents[i]))
  }

  function ItemsOf(t: Target): seq<Item> {
    match t.listed
    case Err(reason) => [Unlistable(t.namespace, reason)]
    case Ok(documents) => DocumentItems(t, documents)
  }

  function Items(targets: seq<Target>): seq<Item> {
    if targets == [] then [] else ItemsOf(targets[0]) + Items(targets[1..])
  }

  lemma RunStep(p: Pass, item: Item, rest: seq<Item>, limit: nat, dryRun: bool)
    requires p.halt.Running?
    ensures Run(p, [item] + rest, limit, dryRun) == Run(Visit(p, item, limit, dryRun), rest, limit, dryRun)
  {
    assert ([item] + rest)[1..] == rest;
  }

  lemma RunDocument(p: Pass, t: Target, documents: seq<Document>, j: nat, later: seq<Item>, limit: nat, dryRun: bool)
    requires p.halt.Running? && j < |documents|
    ensures Run(p, DocumentItems(t, documents[j..]) + later, limit, dryRun)
         == Run(Visit(p, Listed(t.namespace, t.scope, documents[j]), limit, dryRun),
                DocumentItems(t, documents[j + 1..]) + later, limit, dryRun)
  {
    var rest := DocumentItems(t, documents[j + 1..]) + later;
    assert DocumentItems(t, documents[j..]) + later == [Listed(t.namespace, t.scope, documents[j])] + rest;
    RunStep(p, Listed(t.namespace, t.scope, documents[j]), rest, limit, dryRun);
  }

  lemma RunTarget(p: Pass, targets: seq<Target>, i: nat, limit: nat, dryRun: bool)
    requires p.halt.Running? && i < |targets|
    ensures var t, later := targets[i], Items(targets[i + 1..]);
            Run(p, Items(targets[i..]), limit, dryRun)
            == match t.listed
               case Err(reason) => Run(Noted(p, Note(t.namespace, reason)), later, limit, dryRun)
               case Ok(documents) => Run(p, DocumentItems(t, documents[0..]) + later, limit, dryRun)
  {
    var t, later := targets[i], Items(targets[i + 1..]);
    assert targets[i..][0] == t && targets[i..][1..] == targets[i + 1..];
    match t.listed
    case Err(reason) => RunStep(p, Unlistable(t.namespace, reason), later, limit, dryRun);
    case Ok(documents) => assert documents[0..] == documents;
  }

  lemma AllDocumentsVisited(t: Target, documents: seq<Document>, later: seq<Item>)
    ensures DocumentItems(t, documents[|documents|..]) + later == later
  {
  }

  // ---- The pass as the code runs it ---------------------------------------------------------

  class BackfillPass {
    var scanned: nat
    var ingested: nat
    var alreadyPresent: nat
    var skipped: nat
    var morePending: bool
    var notes: seq<Note>
    /** The identities filed in the memory tree. */
    var tree: set<Identity>

    function Abs(halt: Halt): Pass
      reads this
    {
      Pass(Report(scanned, ingested, alreadyPresent, skipped, morePending, notes), tree, halt)
    }

    constructor (tree: set<Identity>)
      ensures Abs(Running) == Start(tree)
    {
      scanned, ingested, alreadyPresent, skipped, morePending, notes := 0, 0, 0, 0, false, [];
      this.tree := tree;
    }

    method AddNote(n: Note)
      modifies this`notes
      ensures notes == WithNote(old(notes), n)
    {
      if |notes| < MAX_NOTES && n !in notes {
        notes := notes + [n];
      }
    }

    /** Read and file one charged document; true when the store turns out corrupt. */
    method FileDocument(namespace: string, id: Identity, env: Env) returns (corrupt: bool)
      modifies this
      ensures Abs(if corrupt then Corrupt else Running) == File(old(Abs(Running)), namespace, id, env)
    {
      match env.read
      case Missing =>
        skipped := SaturatingInc(skipped);
        return false;
      case ReadFails(reason) =>
        skipped := SaturatingInc(skipped);
        AddNote(Note(namespace, reason));
        return false;
      case Found =>
      match env.ingest
      case Works =>
        if id in tree {
          alreadyPresent := SaturatingInc(alreadyPresent);
        } else {
          ingested := SaturatingInc(ingested);
          tree := tree + {id};
        }
        return false;
      case IngestRefused =>
        skipped := SaturatingInc(skipped);
        return false;
      case IngestFails(f) =>
        if f.corrupt {
          return true;
        }
        skipped := SaturatingInc(skipped);
        AddNote(Note(namespace, f.reason));
        return false;
    }

    /** One listed document, up to and including its filing. */
    method VisitDocument(t: Target, d: Document, limit: nat, dryRun: bool) returns (halt: Halt)
      modifies this
      ensures Abs(halt) == Visit(old(Abs(Running)), Listed(t.namespace, t.scope, d), limit, dryRun)
    {
      if d.key.None? {
        skipped := SaturatingInc(skipped);
        AddNote(Note(t.namespace, "a document row carries no key"));
        return Running;
      }
      var id := Identity(t.scope, d.key.value);
      match d.env.probe {
        case ProbeRefused =>
          skipped := SaturatingInc(skipped);
          return Running;
        case ProbeFails(f) =>
          if f.corrupt {
            return Corrupt;
          }
          skipped := SaturatingInc(skipped);
          AddNote(Note(t.namespace, f.reason));
          return Running;
        case Answers =>
          if id in tree {
            alreadyPresent := SaturatingInc(alreadyPresent);
            return Running;
          }
      }
      if scanned >= limit {
        morePending := true;
        return AtLimit;
      }
      scanned := SaturatingInc(scanned);
      if dryRun {
        return Running;
      }
      tree := tree + d.env.others;
      var corrupt := FileDocument(t.namespace, id, d.env);
      return if corrupt then Corrupt else Running;
    }

    /** `backfill_connector_trees`: target by target, document by document, until the limit
        stops it or a corrupt store aborts it. */
    method Backfill(targets: seq<Target>, limit: Option<nat>, dryRun: bool) returns (halt: Halt)
      modifies this
      ensures Abs(halt) == Run(old(Abs(Running)), Items(targets),
                               if limit.Some? then limit.value else DEFAULT_LIMIT, dryRun)
    {
      var bound := if limit.Some? then limit.value else DEFAULT_LIMIT;
      ghost var all := Run(Abs(Running), Items(targets), bound, dryRun);
      halt := Running;
      label targetsLoop: for i := 0 to |targets|
        invariant halt.Running?
        invariant all == Run(Abs(Running), Items(targets[i..]), bound, dryRun)
      {
        var target := targets[i];
        ghost var later := Items(targets[i + 1..]);
        RunTarget(Abs(Running), targets, i, bound, dryRun);
        if target.listed.Err? {
          AddNote(Note(target.namespace, target.listed.error));
          continue;
        }
        var documents := target.listed.value;
        for j := 0 to |documents|
          invariant halt.Running?
          invariant all == Run(Abs(Running), DocumentItems(target, documents[j..]) + later, bound, dryRun)
        {
          RunDocument(Abs(Running), target, documents, j, later, bound, dryRun);
          halt := VisitDocument(target, documents[j], bound, dryRun);
          if !halt.Running? {
            break targetsLoop;
          }
        }
        AllDocumentsVisited(target, documents, later);
      }
    }
  }

  // ---- Every pass, failing or not -----------------------------------------------------------

  /** The tree holds it, or its probe gave no answer, or it has no key: costs nothing. */
  predicate Free(item: Item, tree: set<Identity>) {
    || item.Unlistable?
    || item.document.key.None?
    || !item.document.env.probe.Answers?
    || Identity(item.scope, item.document.key.value) in tree
  }

  /** How many documents a pass gets through, and how many of them it is charged for. */
  function Visited(p: Pass, items: seq<Item>, limit: nat, dryRun: bool): nat
    decreases items
  {
    if items == [] || !p.halt.Running? then 0
    else
      var q := Visit(p, items[0], limit, dryRun);
      (if items[0].Listed? && q.halt.Running? then 1 else 0) + Visited(q, items[1..], limit, dryRun)
  }

  function Charged(p: Pass, items: seq<Item>, limit: nat, dryRun: bool): nat
    decreases items
  {
    if items == [] || !p.halt.Running? then 0
    else
      var q := Visit(p, items[0], limit, dryRun);
      (if !Free(items[0], p.tree) && !q.halt.AtLimit? then 1 else 0) + Charged(q, items[1..], limit, dryRun)
  }

  function Outcomes(r: Report, dryRun: bool): nat {
    r.alreadyPresent + r.skipped + if dryRun then r.scanned else r.ingested
  }

  predicate Roomy(p: Pass, items: seq<Item>) {
    && p.report.scanned + |items| <= U64_MAX && p.report.ingested + |items| <= U64_MAX
    && p.report.alreadyPresent + |items| <= U64_MAX && p.report.skipped + |items| <= U64_MAX
  }

  lemma VisitOutcome(p: Pass, item: Item, limit: nat, dryRun: bool)
    requires p.report.scanned <= limit && Roomy(p, [item]) && p.halt.Running?
    ensures var q := Visit(p, item, limit, dryRun);
            && (q.halt.Running? ==>
                  Outcomes(q.report, dryRun) == Outcomes(p.report, dryRun) + if item.Listed? then 1 else 0)
            && (q.halt.AtLimit? ==> Outcomes(q.report, dryRun) == Outcomes(p.report, dryRun))
  {
  }

  lemma VisitCharge(p: Pass, item: Item, limit: nat, dryRun: bool)
    requires p.report.scanned <= limit && Roomy(p, [item]) && p.halt.Running?
    ensures var q := Visit(p, item, limit, dryRun);
            && q.report.scanned == p.report.scanned + (if !Free(item, p.tree) && !q.halt.AtLimit? then 1 else 0)
            && q.report.scanned <= limit
            && (q.halt.AtLimit? ==> q.report.scanned == limit && q.tree == p.tree && !Free(item, p.tree))
            && (q.report.morePending <==> p.report.morePending || q.halt.AtLimit?)
  {
  }

  lemma VisitRoom(p: Pass, items: seq<Item>, limit: nat, dryRun: bool)
    requires items != [] && Roomy(p, items)
    ensures Roomy(Visit(p, items[0], limit, dryRun), items[1..])
  {
  }

  lemma {:induction false} RunAccounting(p: Pass, items: seq<Item>, limit: nat, dryRun: bool)
    requires p.report.scanned <= limit && Roomy(p, items) && p.halt.Running? && !p.report.morePending
    ensures var q := Run(p, items, limit, dryRun);
            && q.report.scanned == p.report.scanned + Charged(p, items, limit, dryRun) <= limit
            && (!q.halt.Corrupt? ==>
                  Outcomes(q.report, dryRun) == Outcomes(p.report, dryRun) + Visited(p, items, limit, dryRun))
            && (q.halt.AtLimit? <==> q.report.morePending)
            && (q.halt.AtLimit? ==> q.report.scanned == limit && exists i :: i in items && !Free(i, q.tree))
    decreases items
  {
    if items != [] {
      var q := Visit(p, items[0], limit, dryRun);
      VisitOutcome(p, items[0], limit, dryRun);
      VisitCharge(p, items[0], limit, dryRun);
      VisitRoom(p, items, limit, dryRun);
      if q.halt.Running? {
        RunAccounting(q, items[1..], limit, dryRun);
      }
    }
  }

  predicate NotesOk(notes: seq<Note>) {
    |notes| <= MAX_NOTES && forall i, j | 0 <= i < j < |notes| :: notes[i] != notes[j]
  }

  lemma NotedNotes(p: Pass, n: Note)
    requires NotesOk(p.report.notes)
    ensures NotesOk(Noted(p, n).report.notes)
  {
  }

  lemma FileNotes(p: Pass, namespace: string, id: Identity, env: Env)
    requires NotesOk(p.report.notes)
    ensures NotesOk(File(p, namespace, id, env).report.notes)
  {
    if env.read.ReadFails? {
      NotedNotes(SkipOne(p), Note(namespace, env.read.reason));
    } else if env.ingest.IngestFails? {
      NotedNotes(SkipOne(p), Note(namespace, env.ingest.failure.reason));
    }
  }

  lemma VisitNotes(p: Pass, item: Item, limit: nat, dryRun: bool)
    requires NotesOk(p.report.notes)
    ensures NotesOk(Visit(p, item, limit, dryRun).report.notes)
    ensures dryRun ==> Visit(p, item, limit, dryRun).tree == p.tree
  {
    match item
    case Unlistable(namespace, reason) => NotedNotes(p, Note(namespace, reason));
    case Listed(namespace, scope, Document(key, env)) =>
      if key.None? {
        NotedNotes(SkipOne(p), Note(namespace, "a document row carries no key"));
      } else if env.probe.ProbeFails? {
        NotedNotes(SkipOne(p), Note(namespace, env.probe.failure.reason));
      } else {
        FileNotes(Charge(p, env, false), namespace, Identity(scope, key.value), env);
      }
  }

  /** The notes stay bounded and never repeat themselves; a dry run files nothing. */
  lemma {:induction false} RunNotes(p: Pass, items: seq<Item>, limit: nat, dryRun: bool)
    requires NotesOk(p.report.notes)
    ensures NotesOk(Run(p, items, limit, dryRun).report.notes)
    ensures dryRun ==> Run(p, items, limit, dryRun).tree == p.tree
    decreases items
  {
    if items != [] && p.halt.Running? {
      VisitNotes(p, items[0], limit, dryRun);
      RunNotes(Visit(p, items[0], limit, dryRun), items[1..], limit, dryRun);
    }
  }

  // ---- Passes in which nothing fails and no one else writes ---------------------------------

  predicate Ideal(items: seq<Item>) {
    forall i | i in items :: i.Listed? && i.document.key.Some? && i.document.env == Env(Answers, Found, Works, {})
  }

  function IdOf(item: Item): Identity
    requires item.Listed? && item.document.key.Some?
  {
    Identity(item.scope, item.document.key.value)
  }

  /** The identities listed and not yet in the tree. */
  function Unfiled(items: seq<Item>, tree: set<Identity>): set<Identity>
    requires Ideal(items)
  {
    set i | i in items && IdOf(i) !in tree :: IdOf(i)
  }

  function Min(a: nat, b: nat): nat {
    if a < b then a else b
  }

  lemma UnfiledStep(items: seq<Item>, tree: set<Identity>)
    requires Ideal(items) && items != []
    ensures var id, rest := IdOf(items[0]), items[1..];
            && Ideal(rest)
            && (id in tree ==> Unfiled(items, tree) == Unfiled(rest, tree))
            && (id !in tree ==> Unfiled(items, tree) == {id} + Unfiled(rest, tree + {id})
                                && |Unfiled(items, tree)| == 1 + |Unfiled(rest, tree + {id})|)
  {
    var id, rest := IdOf(items[0]), items[1..];
    assert items == [items[0]] + rest;
    if id !in tree {
      assert Unfiled(items, tree) == {id} + Unfiled(rest, tree + {id});
    }
  }

  lemma IdealVisit(p: Pass, item: Item, limit: nat)
    requires Ideal([item]) && p.halt.Running? && p.report.scanned <= limit && Roomy(p, [item])
    ensures var q, r := Visit(p, item, limit, false), p.report;
            if IdOf(item) in p.tree then q == p.(report := r.(alreadyPresent := r.alreadyPresent + 1))
            else if r.scanned < limit then
              q == Pass(r.(scanned := r.scanned + 1, ingested := r.ingested + 1), p.tree + {IdOf(item)}, Running)
            else q == p.(report := r.(morePending := true), halt := AtLimit)
  {
    assert item in [item];
    assert p.tree + {} == p.tree;
  }

  /** From `p` to `q`: as many of the unfiled identities filed as the limit allows. */
  predicate FiledUpTo(p: Pass, unfiled: set<Identity>, q: Pass, limit: nat)
    requires p.report.scanned <= limit
  {
    var files := Min(limit - p.report.scanned, |unfiled|);
    && q.report.scanned == p.report.scanned + files
    && q.report.ingested == p.report.ingested + files
    && q.report.skipped == p.report.skipped
    && p.tree <= q.tree <= p.tree + unfiled
    && |q.tree - p.tree| == files
    && (q.halt == if |unfiled| > limit - p.report.scanned then AtLimit else Running)
  }

  lemma FiledOneMore(p: Pass, id: Identity, unfiled: set<Identity>, mid: Pass, q: Pass, limit: nat)
    requires p.report.scanned < limit && id !in p.tree && id !in unfiled
    requires mid.tree == p.tree + {id} && mid.report.scanned == p.report.scanned + 1
    requires mid.report.ingested == p.report.ingested + 1 && mid.report.skipped == p.report.skipped
    requires FiledUpTo(mid, unfiled, q, limit)
    ensures FiledUpTo(p, {id} + unfiled, q, limit)
  {
    assert q.tree - p.tree == {id} + (q.tree - mid.tree);
  }

  lemma NothingToFile(p: Pass, q: Pass, limit: nat)
    requires p.report.scanned <= limit && p.halt.Running?
    requires q == p.(report := p.report.(alreadyPresent := q.report.alreadyPresent))
    ensures FiledUpTo(p, {}, q, limit)
  {
  }

  lemma FiledFrom(p: Pass, unfiled: set<Identity>, mid: Pass, q: Pass, limit: nat)
    requires p.report.scanned <= limit && mid.report.scanned == p.report.scanned
    requires mid.report.ingested == p.report.ingested && mid.report.skipped == p.report.skipped && mid.tree == p.tree
    requires FiledUpTo(mid, unfiled, q, limit)
    ensures FiledUpTo(p, unfiled, q, limit)
  {
  }

  lemma StoppedAtLimit(p: Pass, unfiled: set<Identity>, limit: nat)
    requires p.report.scanned == limit && |unfiled| > 0
    ensures FiledUpTo(p, unfiled, p.(report := p.report.(morePending := true), halt := AtLimit), limit)
  {
    assert p.tree - p.tree == {};
  }

  lemma {:induction false} IdealRun(p: Pass, items: seq<Item>, limit: nat)
    requires Ideal(items) && p.halt.Running? && p.report.scanned <= limit && Roomy(p, items)
    ensures FiledUpTo(p, Unfiled(items, p.tree), Run(p, items, limit, false), limit)
    decreases items
  {
    if items == [] {
      NothingToFile(p, p, limit);
      return;
    }
    UnfiledStep(items, p.tree);
    IdealVisit(p, items[0], limit);
    VisitRoom(p, items, limit, false);
    var q, rest := Visit(p, items[0], limit, false), items[1..];
    var end, unfiled := Run(q, rest, limit, false), Unfiled(rest, q.tree);
    if !q.halt.Running? {
      StoppedAtLimit(p, Unfiled(items, p.tree), limit);
    } else {
      IdealRun(q, rest, limit);
      if IdOf(items[0]) in p.tree {
        FiledFrom(p, unfiled, q, end, limit);
      } else {
        FiledOneMore(p, IdOf(items[0]), unfiled, q, end, limit);
      }
    }
  }

  function PassTree(items: seq<Item>, tree: set<Identity>, limit: nat): set<Identity> {
    Run(Start(tree), items, limit, false).tree
  }

  /** One real pass files `min(limit, unfiled)` new identities and reports exactly whether any
      remain. */
  lemma IdealPass(items: seq<Item>, tree: set<Identity>, limit: nat)
    requires Ideal(items) && |items| <= U64_MAX
    ensures var q := Run(Start(tree), items, limit, false);
            var left := Unfiled(items, q.tree);
            && q.report.ingested == q.report.scanned == Min(limit, |Unfiled(items, tree)|)
            && q.report.skipped == 0 && !q.halt.Corrupt?
            && tree <= q.tree
            && |left| == |Unfiled(items, tree)| - q.report.ingested
            && (q.report.morePending <==> left != {})
  {
    var q := Run(Start(tree), items, limit, false);
    var unfiled := Unfiled(items, tree);
    IdealRun(Start(tree), items, limit);
    RunAccounting(Start(tree), items, limit, false);
    assert q.tree - tree <= unfiled;
    assert Unfiled(items, q.tree) == unfiled - (q.tree - tree);
  }

  /** The tree before, between and after consecutive real passes. */
  predicate ArePasses(trees: seq<set<Identity>>, items: seq<Item>, limit: nat) {
    forall k | 0 < k < |trees| :: trees[k] == PassTree(items, trees[k - 1], limit)
  }

  lemma NextPass(items: seq<Item>, tree: set<Identity>, limit: nat)
    requires Ideal(items) && |items| <= U64_MAX
    ensures |Unfiled(items, PassTree(items, tree, limit))|
         == |Unfiled(items, tree)| - Min(limit, |Unfiled(items, tree)|)
  {
    IdealPass(items, tree, limit);
  }

  /** `k` passes leave exactly `unfiled - min(k * limit, unfiled)`. */
  lemma {:induction false} PassesConverge(trees: seq<set<Identity>>, items: seq<Item>, limit: nat, k: nat)
    requires Ideal(items) && |items| <= U64_MAX && ArePasses(trees, items, limit) && k < |trees|
    ensures |Unfiled(items, trees[k])| == |Unfiled(items, trees[0])| - Min(k * limit, |Unfiled(items, trees[0])|)
  {
    if k > 0 {
      PassesConverge(trees, items, limit, k - 1);
      NextPass(items, trees[k - 1], limit);
      assert k * limit == (k - 1) * limit + limit;
    }
  }

  lemma CeilingCovers(n: nat, d: nat)
    requires d > 0
    ensures (n + d - 1) / d * d >= n
  {
    assert (n + d - 1) / d * d + (n + d - 1) % d == n + d - 1;
  }

  /** `ceil(unfiled / limit)` passes file everything. */
  lemma EnoughPassesFinish(trees: seq<set<Identity>>, items: seq<Item>, limit: nat, k: nat)
    requires Ideal(items) && |items| <= U64_MAX && limit >= 1 && ArePasses(trees, items, limit) && k < |trees|
    requires k == (|Unfiled(items, trees[0])| + limit - 1) / limit
    ensures Unfiled(items, trees[k]) == {}
  {
    PassesConverge(trees, items, limit, k);
    CeilingCovers(|Unfiled(items, trees[0])|, limit);
  }

  /** Once everything is filed, a pass changes nothing and charges nothing. */
  lemma FinishedPassIsIdle(items: seq<Item>, tree: set<Identity>, limit: nat)
    requires Ideal(items) && |items| <= U64_MAX && Unfiled(items, tree) == {}
    ensures var q := Run(Start(tree), items, limit, false);
            q.tree == tree && q.report.ingested == q.report.scanned == 0 && q.halt.Running?
  {
    IdealRun(Start(tree), items, limit);
  }
}
