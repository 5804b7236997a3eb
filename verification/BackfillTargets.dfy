/** Which namespaces a backfill sweeps, and whose account their documents are filed under. */
module BackfillTargets {
  import opened Wrappers
  import opened Text
  import opened Backfill
  import opened Ranking

  /** A row of the source registry. */
  datatype Source = Source(composio: bool, toolkit: Option<string>, connection: Option<string>)

  function AsciiLower(s: string): (r: string)
    ensures |r| == |s|
  {
    seq(|s|, i requires 0 <= i < |s| => if 'A' <= s[i] <= 'Z' then (s[i] as int + 32) as char else s[i])
  }

  /** The tree scope of a usable row. */
  function ScopeOf(s: Source): Option<Scope> {
    if !s.composio || s.toolkit.None? || s.connection.None? then None
    else
      var toolkit, connection := AsciiLower(Trim(s.toolkit.value)), Trim(s.connection.value);
      if toolkit == "" || connection == "" then None else Some(Scope(toolkit, connection))
  }

  /** `lowered` is `s` with the capitals A to Z made small. */
  predicate IsLowered(s: string, lowered: string) {
    |lowered| == |s| && forall i | 0 <= i < |s| ::
      lowered[i] == if 'A' <= s[i] <= 'Z' then (s[i] as int - 'A' as int + 'a' as int) as char else s[i]
  }

  /** A row is usable exactly if it is a connector's and neither name is missing or blank; its
      names are read without the white space around them, the toolkit in small letters. */
  lemma ScopeOfMeans(s: Source)
    ensures ScopeOf(s).Some? <==> s.composio && s.toolkit.Some? && s.connection.Some?
                                  && !AllWhitespace(s.toolkit.value) && !AllWhitespace(s.connection.value)
    ensures ScopeOf(s).Some? ==>
              && (exists l, k, r :: IsPadded(s.toolkit.value, l, k, r) && Trimmed(k)
                                    && IsLowered(k, ScopeOf(s).value.toolkit))
              && (exists l, r :: IsPadded(s.connection.value, l, ScopeOf(s).value.connection, r))
              && Trimmed(ScopeOf(s).value.connection)
  {
    if s.composio && s.toolkit.Some? && s.connection.Some? {
      BlankTrims(s.toolkit.value);
      BlankTrims(s.connection.value);
      var l, r := TrimDrops(s.toolkit.value);
      assert IsLowered(Trim(s.toolkit.value), AsciiLower(Trim(s.toolkit.value)));
      var l', r' := TrimDrops(s.connection.value);
    }
  }

  lemma BlankTrims(s: string)
    ensures Trim(s) == "" <==> AllWhitespace(s)
  {
    if AllWhitespace(s) {
      TrimAllWhitespace(s);
    }
    var l, r := TrimDrops(s);
  }

  function Scopes(sources: seq<Source>): seq<Scope> {
    if sources == [] then []
    else
      Scopes(sources[..|sources| - 1]) +
      match ScopeOf(sources[|sources| - 1]) case Some(scope) => [scope] case None => []
  }

  lemma ScopesStep(sources: seq<Source>, i: nat)
    requires i < |sources|
    ensures var before, after := Scopes(sources[..i]), Scopes(sources[..i + 1]);
            after == if ScopeOf(sources[i]).None? then before else before + [ScopeOf(sources[i]).value]
  {
    assert sources[..i + 1][..i] == sources[..i];
  }

  /** The connections registered for a toolkit, in order. */
  function ConnectionsOf(scopes: seq<Scope>, toolkit: string): seq<string> {
    if scopes == [] then []
    else
      var last := scopes[|scopes| - 1];
      ConnectionsOf(scopes[..|scopes| - 1], toolkit) + if last.toolkit == toolkit then [last.connection] else []
  }

  function SourceNamespace(s: Scope): string {
    "source:" + (s.toolkit + ":" + s.connection)
  }

  function LegacyNamespace(toolkit: string): string {
    "skill-" + toolkit
  }

  /** A namespace and the scope its documents are filed under. */
  datatype Sweep = Sweep(namespace: string, scope: Scope)

  /** Each usable row's own namespace, in registry order. */
  predicate SweepsSources(sweeps: seq<Sweep>, scopes: seq<Scope>) {
    |sweeps| == |scopes| && forall i | 0 <= i < |scopes| :: sweeps[i] == Sweep(SourceNamespace(scopes[i]), scopes[i])
  }

  /** The only connection registered for the toolkit of this scope. */
  predicate OnlyConnection(scopes: seq<Scope>, s: Scope) {
    ConnectionsOf(scopes, s.toolkit) == [s.connection]
  }

  /** Among `toolkits`, each with exactly one connection has its legacy namespace swept once,
      for that connection; no other legacy namespace is swept. */
  ghost predicate SweepsLegacy(sweeps: seq<Sweep>, scopes: seq<Scope>, toolkits: set<string>) {
    && (forall i | 0 <= i < |sweeps| ::
          && sweeps[i].namespace == LegacyNamespace(sweeps[i].scope.toolkit)
          && sweeps[i].scope.toolkit in toolkits && OnlyConnection(scopes, sweeps[i].scope))
    && (forall i, j | 0 <= i < j < |sweeps| :: sweeps[i].scope.toolkit != sweeps[j].scope.toolkit)
    && (forall s: Scope | s.toolkit in toolkits && OnlyConnection(scopes, s) ::
          Sweep(LegacyNamespace(s.toolkit), s) in sweeps)
  }

  lemma ConnectionsStep(scopes: seq<Scope>, s: Scope, toolkit: string)
    ensures ConnectionsOf(scopes + [s], toolkit)
         == ConnectionsOf(scopes, toolkit) + if s.toolkit == toolkit then [s.connection] else []
  {
    assert (scopes + [s])[..|scopes|] == scopes;
  }

  /** The rows, grouped by toolkit. */
  predicate Grouped(byToolkit: map<string, seq<string>>, scopes: seq<Scope>) {
    && (forall t | t in byToolkit :: byToolkit[t] == ConnectionsOf(scopes, t) && byToolkit[t] != [])
    && (forall i | 0 <= i < |scopes| :: scopes[i].toolkit in byToolkit)
  }

  lemma {:induction false} UnlistedToolkit(scopes: seq<Scope>, toolkit: string)
    requires forall i | 0 <= i < |scopes| :: scopes[i].toolkit != toolkit
    ensures ConnectionsOf(scopes, toolkit) == []
  {
    if scopes != [] {
      UnlistedToolkit(scopes[..|scopes| - 1], toolkit);
    }
  }

  function WithConnection(byToolkit: map<string, seq<string>>, s: Scope): map<string, seq<string>> {
    byToolkit[s.toolkit := (if s.toolkit in byToolkit then byToolkit[s.toolkit] else []) + [s.connection]]
  }

  lemma GroupOne(byToolkit: map<string, seq<string>>, scopes: seq<Scope>, s: Scope)
    requires Grouped(byToolkit, scopes)
    ensures Grouped(WithConnection(byToolkit, s), scopes + [s])
  {
    if s.toolkit !in byToolkit {
      UnlistedToolkit(scopes, s.toolkit);
    }
    forall t ensures ConnectionsOf(scopes + [s], t)
                  == ConnectionsOf(scopes, t) + if s.toolkit == t then [s.connection] else [] {
      ConnectionsStep(scopes, s, t);
    }
  }

  /** One more usable row. */
  method AddScope(s: Scope, sweeps: seq<Sweep>, byToolkit: map<string, seq<string>>, ghost scopes: seq<Scope>)
    returns (sweeps': seq<Sweep>, byToolkit': map<string, seq<string>>)
    requires SweepsSources(sweeps, scopes) && Grouped(byToolkit, scopes)
    ensures SweepsSources(sweeps', scopes + [s]) && Grouped(byToolkit', scopes + [s])
  {
    GroupOne(byToolkit, scopes, s);
    sweeps' := sweeps + [Sweep(SourceNamespace(s), s)];
    byToolkit' := WithConnection(byToolkit, s);
  }

  /** The sources' own namespaces, with the connections of each toolkit. */
  method SourceSweeps(sources: seq<Source>) returns (sweeps: seq<Sweep>, byToolkit: map<string, seq<string>>)
    ensures SweepsSources(sweeps, Scopes(sources)) && Grouped(byToolkit, Scopes(sources))
  {
    sweeps, byToolkit := [], map[];
    for i := 0 to |sources|
      invariant SweepsSources(sweeps, Scopes(sources[..i])) && Grouped(byToolkit, Scopes(sources[..i]))
    {
      ScopesStep(sources, i);
      var scope := ScopeOf(sources[i]);
      if scope.None? {
        continue;
      }
      sweeps, byToolkit := AddScope(scope.value, sweeps, byToolkit, Scopes(sources[..i]));
    }
    assert sources[..|sources|] == sources;
  }

  lemma LegacyStep(legacy: seq<Sweep>, scopes: seq<Scope>, toolkits: set<string>, t: string)
    requires SweepsLegacy(legacy, scopes, toolkits) && t !in toolkits
    ensures var connections := ConnectionsOf(scopes, t);
            if |connections| == 1 then
              SweepsLegacy(legacy + [Sweep(LegacyNamespace(t), Scope(t, connections[0]))], scopes, toolkits + {t})
            else SweepsLegacy(legacy, scopes, toolkits + {t})
  {
    var connections := ConnectionsOf(scopes, t);
    if |connections| == 1 {
      var legacy' := legacy + [Sweep(LegacyNamespace(t), Scope(t, connections[0]))];
      assert connections == [connections[0]];
      forall s: Scope | s.toolkit in toolkits + {t} && OnlyConnection(scopes, s)
        ensures Sweep(LegacyNamespace(s.toolkit), s) in legacy'
      {
        if s.toolkit == t {
          assert legacy'[|legacy|] == Sweep(LegacyNamespace(t), s);
        }
      }
    }
  }

  // ---- Toolkits in order ------------------------------------------------------------------------

  /** Strictly before, character by character: the order of the host's sorted map. */
  predicate Before(a: string, b: string) {
    b != "" && (a == "" || a[0] < b[0] || (a[0] == b[0] && Before(a[1..], b[1..])))
  }

  /** `a` is a shorter start of `b`, or smaller at the first place `k` where they differ. */
  predicate DiffersAt(a: string, b: string, k: nat) {
    && k <= |a| && k < |b| && a[..k] == b[..k]
    && (k == |a| || a[k] < b[k])
  }

  lemma {:induction false} BeforeIsDiffersAt(a: string, b: string) returns (k: nat)
    requires Before(a, b)
    ensures DiffersAt(a, b, k)
  {
    k := 0;
    if a != "" && a[0] == b[0] {
      var j := BeforeIsDiffersAt(a[1..], b[1..]);
      k := j + 1;
      assert a == [a[0]] + a[1..] && b == [b[0]] + b[1..];
      assert a[..k] == [a[0]] + a[1..][..j] && b[..k] == [b[0]] + b[1..][..j];
    }
  }

  lemma {:induction false} DiffersAtIsBefore(a: string, b: string, k: nat)
    requires DiffersAt(a, b, k)
    ensures Before(a, b)
  {
    if k > 0 {
      assert a[0] == a[..k][0] && b[0] == b[..k][0];
      assert a[1..][..k - 1] == a[..k][1..] && b[1..][..k - 1] == b[..k][1..];
      DiffersAtIsBefore(a[1..], b[1..], k - 1);
    }
  }

  /** The order is the lexicographic one. */
  lemma BeforeIff(a: string, b: string)
    ensures Before(a, b) <==> exists k :: DiffersAt(a, b, k)
  {
    if Before(a, b) {
      var k := BeforeIsDiffersAt(a, b);
    }
    if k :| DiffersAt(a, b, k) {
      DiffersAtIsBefore(a, b, k);
    }
  }

  lemma {:induction false} BeforeTotal(a: string, b: string)
    ensures a == b || Before(a, b) || Before(b, a)
    ensures !(Before(a, b) && Before(b, a))
  {
    if a != "" && b != "" && a[0] == b[0] {
      BeforeTotal(a[1..], b[1..]);
      assert a == [a[0]] + a[1..] && b == [b[0]] + b[1..];
    }
  }

  lemma {:induction false} BeforeTransitive(a: string, b: string, c: string)
    requires Before(a, b) && Before(b, c)
    ensures Before(a, c)
  {
    if a != "" && a[0] == b[0] && b[0] == c[0] {
      BeforeTransitive(a[1..], b[1..], c[1..]);
    }
  }

  predicate IsFirst(x: string, s: set<string>) {
    x in s && forall y | y in s && y != x :: Before(x, y)
  }

  lemma {:induction false} FirstExists(s: set<string>)
    requires s != {}
    ensures exists x :: IsFirst(x, s)
  {
    var x :| x in s;
    if s == {x} {
      assert IsFirst(x, s);
    } else {
      FirstExists(s - {x});
      var y :| IsFirst(y, s - {x});
      BeforeTotal(x, y);
      if Before(x, y) {
        forall z | z in s && z != x && z != y ensures Before(x, z) {
          BeforeTransitive(x, y, z);
        }
        assert IsFirst(x, s);
      } else {
        assert IsFirst(y, s);
      }
    }
  }

  predicate InOrder(s: seq<string>) {
    forall i, j | 0 <= i < j < |s| :: Before(s[i], s[j])
  }

  /** A set of strings, in order. */
  method Sorted(s: set<string>) returns (r: seq<string>)
    ensures InOrder(r) && forall x :: x in r <==> x in s
  {
    r := [];
    var remaining := s;
    while remaining != {}
      invariant remaining <= s && InOrder(r)
      invariant forall x :: x in r <==> x in s && x !in remaining
      invariant forall i, x | 0 <= i < |r| && x in remaining :: Before(r[i], x)
      decreases |remaining|
    {
      FirstExists(remaining);
      var t :| IsFirst(t, remaining);
      r := r + [t];
      remaining := remaining - {t};
    }
  }

  function ToolkitsIn(sweeps: seq<Sweep>): (r: seq<string>)
    ensures |r| == |sweeps|
  {
    seq(|sweeps|, i requires 0 <= i < |sweeps| => sweeps[i].scope.toolkit)
  }

  // ---- Legacy namespaces ------------------------------------------------------------------------

  const SEVERAL_CONNECTIONS: string := "skipped: several connections are registered for this toolkit"

  /** The first reasons, one per ambiguous toolkit. */
  predicate NotesAmbiguous(notes: seq<Note>, toolkits: seq<string>) {
    && |notes| == (if |toolkits| < MAX_NOTES then |toolkits| else MAX_NOTES)
    && forall i | 0 <= i < |notes| :: notes[i] == Note(LegacyNamespace(toolkits[i]), SEVERAL_CONNECTIONS)
  }

  lemma NoteOneMore(notes: seq<Note>, toolkits: seq<string>, t: string)
    requires NotesAmbiguous(notes, toolkits) && t !in toolkits
    ensures NotesAmbiguous(WithNote(notes, Note(LegacyNamespace(t), SEVERAL_CONNECTIONS)), toolkits + [t])
  {
    forall i | 0 <= i < |notes| ensures notes[i].namespace != LegacyNamespace(t) {
      assert LegacyNamespace(toolkits[i])[6..] == toolkits[i] && LegacyNamespace(t)[6..] == t;
    }
  }

  /** What the toolkits in `done` give: the legacy sweeps, the other toolkits and their reasons. */
  ghost predicate Resolved(legacy: seq<Sweep>, ambiguous: seq<string>, notes: seq<Note>, scopes: seq<Scope>,
                           done: seq<string>)
  {
    && SweepsLegacy(legacy, scopes, ToSet(done)) && InOrder(ToolkitsIn(legacy))
    && InOrder(ambiguous) && NotesAmbiguous(notes, ambiguous)
    && forall t :: t in ambiguous <==> t in done && |ConnectionsOf(scopes, t)| > 1
  }

  /** `t` comes after everything in `done`. */
  predicate ComesNext(done: seq<string>, t: string) {
    t !in done && forall u | u in done :: Before(u, t)
  }

  lemma SweepOneMore(legacy: seq<Sweep>, ambiguous: seq<string>, notes: seq<Note>, scopes: seq<Scope>, done: seq<string>,
                     t: string)
    requires Resolved(legacy, ambiguous, notes, scopes, done) && ComesNext(done, t) && |ConnectionsOf(scopes, t)| == 1
    ensures Resolved(legacy + [Sweep(LegacyNamespace(t), Scope(t, ConnectionsOf(scopes, t)[0]))], ambiguous, notes,
                     scopes, done + [t])
  {
    var sweep := Sweep(LegacyNamespace(t), Scope(t, ConnectionsOf(scopes, t)[0]));
    LegacyStep(legacy, scopes, ToSet(done), t);
    assert ToSet(done + [t]) == ToSet(done) + {t};
    assert ToolkitsIn(legacy + [sweep]) == ToolkitsIn(legacy) + [t];
    assert forall i | 0 <= i < |legacy| :: legacy[i].scope.toolkit in ToSet(done);
  }

  lemma ReportOneMore(legacy: seq<Sweep>, ambiguous: seq<string>, notes: seq<Note>, scopes: seq<Scope>, done: seq<string>,
                      t: string)
    requires Resolved(legacy, ambiguous, notes, scopes, done) && ComesNext(done, t) && |ConnectionsOf(scopes, t)| > 1
    ensures Resolved(legacy, ambiguous + [t], WithNote(notes, Note(LegacyNamespace(t), SEVERAL_CONNECTIONS)),
                     scopes, done + [t])
  {
    LegacyStep(legacy, scopes, ToSet(done), t);
    assert ToSet(done + [t]) == ToSet(done) + {t};
    NoteOneMore(notes, ambiguous, t);
    assert forall i | 0 <= i < |ambiguous| :: ambiguous[i] in ambiguous;
  }

  /** The legacy namespaces of the toolkits with one connection, and the other toolkits, both in
      order, with the reasons reported. */
  method LegacySweeps(byToolkit: map<string, seq<string>>, ghost scopes: seq<Scope>)
    returns (legacy: seq<Sweep>, ambiguous: seq<string>, notes: seq<Note>, ghost toolkits: seq<string>)
    requires Grouped(byToolkit, scopes)
    ensures ToSet(toolkits) == byToolkit.Keys
    ensures Resolved(legacy, ambiguous, notes, scopes, toolkits)
  {
    legacy, ambiguous, notes := [], [], [];
    var inOrder := Sorted(byToolkit.Keys);
    for n := 0 to |inOrder|
      invariant Resolved(legacy, ambiguous, notes, scopes, inOrder[..n])
    {
      var t := inOrder[n];
      NextInOrder(inOrder, n);
      assert t in byToolkit && byToolkit[t] == ConnectionsOf(scopes, t);
      if |byToolkit[t]| == 1 {
        SweepOneMore(legacy, ambiguous, notes, scopes, inOrder[..n], t);
        legacy := legacy + [Sweep(LegacyNamespace(t), Scope(t, byToolkit[t][0]))];
      } else {
        ReportOneMore(legacy, ambiguous, notes, scopes, inOrder[..n], t);
        notes := WithNote(notes, Note(LegacyNamespace(t), SEVERAL_CONNECTIONS));
        ambiguous := ambiguous + [t];
      }
    }
    assert inOrder[..|inOrder|] == inOrder && ToSet(inOrder) == byToolkit.Keys;
    toolkits := inOrder;
  }

  /** The next toolkit comes after all earlier ones. */
  lemma NextInOrder(toolkits: seq<string>, n: nat)
    requires InOrder(toolkits) && n < |toolkits|
    ensures toolkits[..n + 1] == toolkits[..n] + [toolkits[n]] && ComesNext(toolkits[..n], toolkits[n])
  {
    BeforeTotal(toolkits[n], toolkits[n]);
  }

  function ToolkitsOf(scopes: seq<Scope>): set<string> {
    set s | s in scopes :: s.toolkit
  }

  /** `resolve_targets`: every usable row's namespace, then, in order, the legacy namespaces that
      belong to one connection beyond doubt; the other toolkits are reported. */
  method ResolveTargets(sources: seq<Source>)
    returns (sweeps: seq<Sweep>, legacy: seq<Sweep>, ambiguous: seq<string>, notes: seq<Note>)
    ensures SweepsSources(sweeps, Scopes(sources))
    ensures forall i | 0 <= i < |sweeps| ::
              sweeps[i].namespace == "source:" + (sweeps[i].scope.toolkit + ":" + sweeps[i].scope.connection)
    ensures forall i | 0 <= i < |legacy| :: legacy[i].namespace == "skill-" + legacy[i].scope.toolkit
    ensures exists toolkits :: ToSet(toolkits) == ToolkitsOf(Scopes(sources))
                               && Resolved(legacy, ambiguous, notes, Scopes(sources), toolkits)
  {
    var byToolkit;
    ghost var toolkits;
    sweeps, byToolkit := SourceSweeps(sources);
    legacy, ambiguous, notes, toolkits := LegacySweeps(byToolkit, Scopes(sources));
    GroupedKeys(byToolkit, Scopes(sources));
  }

  lemma GroupedKeys(byToolkit: map<string, seq<string>>, scopes: seq<Scope>)
    requires Grouped(byToolkit, scopes)
    ensures byToolkit.Keys == ToolkitsOf(scopes)
  {
    forall t | t in byToolkit ensures exists s :: s in scopes && s.toolkit == t {
      if forall i | 0 <= i < |scopes| :: scopes[i].toolkit != t {
        UnlistedToolkit(scopes, t);
      }
    }
  }

  // ---- One namespace, one account -----------------------------------------------------------

  /** Toolkits without a colon: a source namespace belongs to one scope, and no source namespace
      is a legacy one. */
  lemma NamespaceDeterminesScope(s: Scope, t: Scope)
    requires ':' !in s.toolkit && ':' !in t.toolkit
    ensures SourceNamespace(s) == SourceNamespace(t) ==> s == t
    ensures SourceNamespace(s) != LegacyNamespace(t.toolkit)
  {
    assert SourceNamespace(s)[7..] == s.toolkit + ":" + s.connection;
    assert SourceNamespace(t)[7..] == t.toolkit + ":" + t.connection;
    if SourceNamespace(s) == SourceNamespace(t) {
      SplitAtFirst(s.toolkit, s.connection, t.toolkit, t.connection, ':');
    }
    assert SourceNamespace(s)[1] == 'o' && LegacyNamespace(t.toolkit)[1] == 'k';
  }

  lemma ColonsCollide(a: string, b: string, c: string)
    ensures SourceNamespace(Scope(a + ":" + b, c)) == SourceNamespace(Scope(a, b + ":" + c))
    ensures Scope(a + ":" + b, c) != Scope(a, b + ":" + c)
  {
    assert (a + ":" + b) + ":" + c == a + ":" + (b + ":" + c);
    assert |a + ":" + b| != |a|;
  }

  /** `l` is `k`, a colon, and a rest that a trimmed connection can start with. */
  predicate Extends(k: string, l: string) {
    k + ":" <= l && (|l| == |k| + 1 || !IsWhitespace(l[|k| + 1]))
  }

  /** Rows of two accounts, with these toolkits, whose documents lie in one namespace. */
  predicate ShareNamespace(s: Source, t: Source, k: string, l: string) {
    && ScopeOf(s).Some? && ScopeOf(t).Some? && ScopeOf(s) != ScopeOf(t)
    && ScopeOf(s).value.toolkit == k && ScopeOf(t).value.toolkit == l
    && SourceNamespace(ScopeOf(s).value) == SourceNamespace(ScopeOf(t).value)
  }

  /** A toolkit name as the registry reads it: trimmed, lower-case, not empty. */
  predicate ToolkitName(k: string) {
    k != "" && Trimmed(k) && AsciiLower(k) == k
  }

  /** A row with these names as they are. */
  function RowFor(toolkit: string, connection: string): Source {
    Source(true, Some(toolkit), Some(connection))
  }

  lemma RowScope(toolkit: string, connection: string)
    requires ToolkitName(toolkit) && connection != "" && Trimmed(connection)
    ensures ScopeOf(RowFor(toolkit, connection)) == Some(Scope(toolkit, connection))
  {
    TrimFixesTrimmed(toolkit);
    TrimFixesTrimmed(connection);
  }

  /** The connection `c` such that `l`'s account and `k`'s account `c` share a namespace. */
  lemma ExtensionsCollide(k: string, l: string)
    requires ToolkitName(k) && ToolkitName(l) && Extends(k, l)
    ensures exists s, t :: ShareNamespace(s, t, k, l)
  {
    var rest := l[|k| + 1..];
    var c := rest + ":x";
    assert k + ":" + rest == l && c == rest + ":" + "x";
    assert c[0] == (if rest == "" then ':' else rest[0]) && c[|c| - 1] == 'x';
    RowScope(k, c);
    RowScope(l, "x");
    ColonsCollide(k, rest, "x");
    assert ShareNamespace(RowFor(k, c), RowFor(l, "x"), k, l);
  }

  lemma SameLengthSameScope(s: Scope, t: Scope)
    requires SourceNamespace(s) == SourceNamespace(t) && |s.toolkit| == |t.toolkit|
    ensures s == t
  {
    var n := SourceNamespace(s);
    assert n[7..7 + |s.toolkit|] == s.toolkit && n[7..7 + |s.toolkit|] == t.toolkit;
    assert n[8 + |s.toolkit|..] == s.connection && n[8 + |s.toolkit|..] == t.connection;
  }

  /** Scopes whose namespaces agree and whose first toolkit is no longer than the second. */
  lemma SharedMeansExtends(s: Scope, t: Scope)
    requires SourceNamespace(s) == SourceNamespace(t) && s != t && |s.toolkit| <= |t.toolkit|
    requires s.connection != "" && Trimmed(s.connection)
    ensures Extends(s.toolkit, t.toolkit)
  {
    var x, y := s.toolkit + ":" + s.connection, t.toolkit + ":" + t.connection;
    assert SourceNamespace(s)[7..] == x && SourceNamespace(t)[7..] == y;
    var k, l := s.toolkit, t.toolkit;
    assert x[..|k|] == k && y[..|k|] == l[..|k|];
    assert x[|k| + 1..] == s.connection;
    if |k| == |l| {
      SameLengthSameScope(s, t);
    } else {
      assert l[|k|] == y[|k|] == x[|k|] == ':';
      assert k + ":" == l[..|k| + 1];
      assert |l| > |k| + 1 ==> l[|k| + 1] == y[|k| + 1] == x[|k| + 1] == s.connection[0];
    }
  }

  /** What the registry reads: every toolkit is a toolkit name, every connection trimmed. */
  lemma UsableScope(s: Source)
    requires ScopeOf(s).Some?
    ensures ToolkitName(ScopeOf(s).value.toolkit)
    ensures ScopeOf(s).value.connection != "" && Trimmed(ScopeOf(s).value.connection)
  {
    TrimIsTrimmed(s.toolkit.value);
    TrimIsTrimmed(s.connection.value);
    var trimmed := Trim(s.toolkit.value);
    var k := AsciiLower(trimmed);
    assert forall i | 0 <= i < |k| :: IsWhitespace(k[i]) == IsWhitespace(trimmed[i]);
    assert AsciiLower(k) == k;
  }

  /** Two accounts with toolkits `k` and `l` can share a namespace, so that documents of one are
      filed under the other, if and only if one toolkit extends the other by a colon and more. */
  lemma AccountsCollideIff(k: string, l: string)
    requires ToolkitName(k) && ToolkitName(l)
    ensures (exists s, t :: ShareNamespace(s, t, k, l)) <==> Extends(k, l) || Extends(l, k)
  {
    if s, t :| ShareNamespace(s, t, k, l) {
      UsableScope(s);
      UsableScope(t);
      if |k| <= |l| {
        SharedMeansExtends(ScopeOf(s).value, ScopeOf(t).value);
      } else {
        SharedMeansExtends(ScopeOf(t).value, ScopeOf(s).value);
      }
    }
    if Extends(k, l) {
      ExtensionsCollide(k, l);
    }
    if Extends(l, k) {
      ExtensionsCollide(l, k);
      var t, s :| ShareNamespace(t, s, l, k);
      assert ShareNamespace(s, t, k, l);
    }
  }

  lemma ExtensionShares(k: string, l: string) returns (c: string, d: string)
    requires k + ":" <= l
    ensures SourceNamespace(Scope(k, c)) == SourceNamespace(Scope(l, d))
  {
    var rest := l[|k| + 1..];
    assert k + ":" + rest == l;
    c, d := rest + ":", "";
    ColonsCollide(k, rest, "");
    assert rest + ":" + "" == c;
  }

  /** The same of bare toolkit strings and connections. */
  lemma ToolkitsShareIff(k: string, l: string)
    ensures (exists c, d :: SourceNamespace(Scope(k, c)) == SourceNamespace(Scope(l, d)))
       <==> k == l || k + ":" <= l || l + ":" <= k
  {
    if c, d :| SourceNamespace(Scope(k, c)) == SourceNamespace(Scope(l, d)) {
      assert SourceNamespace(Scope(k, c))[7..] == k + ":" + c && SourceNamespace(Scope(l, d))[7..] == l + ":" + d;
      CommonPrefix(k, c, l, d);
    }
    if k == l {
      assert SourceNamespace(Scope(k, "")) == SourceNamespace(Scope(l, ""));
    }
    if k + ":" <= l {
      var c, d := ExtensionShares(k, l);
    }
    if l + ":" <= k {
      var d, c := ExtensionShares(l, k);
    }
  }

  lemma CommonPrefix(k: string, c: string, l: string, d: string)
    requires k + ":" + c == l + ":" + d
    ensures k == l || k + ":" <= l || l + ":" <= k
  {
    var x := k + ":" + c;
    assert x[..|k|] == k && x[..|l|] == l && x[|k|] == ':' && x[|l|] == ':';
    assert |k| < |l| ==> k + ":" == l[..|k| + 1];
    assert |l| < |k| ==> l + ":" == k[..|l| + 1];
  }
}
