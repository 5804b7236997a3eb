/**
 One published client per workspace: the global slot, the per-workspace cache, and every
 interleaving of `init`, `bind` and `client_for_workspace`. One step per lock section.
 */
module GlobalClient {
  import opened Wrappers

  type Workspace = string
  /** Identity of a client object. */
  type Client = nat
  type Pid = nat

  datatype Bound = Bound(workspace: Workspace, client: Client)

  /** The global slot and the per-workspace cache. */
  datatype Clients = Clients(slot: Option<Bound>, cache: map<Workspace, Client>)

  /** `cache_client`: the first client cached for a workspace wins. */
  function Cached(cache: map<Workspace, Client>, w: Workspace, c: Client): map<Workspace, Client> {
    if w in cache then cache else cache[w := c]
  }

  predicate BoundTo(g: Clients, w: Workspace) {
    g.slot.Some? && g.slot.value.workspace == w
  }

  // ---- Lock sections ------------------------------------------------------------------------

  function Rebound(g: Clients, w: Workspace, c: Client): Clients {
    g.(slot := Some(Bound(w, c)))
  }

  /** A failed construction clears a slot that is bound elsewhere. */
  function ConstructionFailed(g: Clients, w: Workspace): Clients {
    if g.slot.Some? && g.slot.value.workspace != w then g.(slot := None) else g
  }

  /** `init` with a client it built, and the client it returns. */
  function InitPublish(g: Clients, w: Workspace, c: Client): (Clients, Client) {
    if BoundTo(g, w) then
      (g.(cache := Cached(g.cache, w, g.slot.value.client)), g.slot.value.client)
    else
      var cache := Cached(g.cache, w, c);
      (Clients(Some(Bound(w, cache[w])), cache), cache[w])
  }

  /** `client_for_workspace` publishing into the cache alone. */
  function CachePublish(g: Clients, w: Workspace, c: Client): (Clients, Client) {
    var cache := Cached(g.cache, w, c);
    (g.(cache := cache), cache[w])
  }

  datatype Bind = Published(client: Client) | RefusedByCache | RefusedBySlot

  function BindClient(g: Clients, w: Workspace, c: Client): (Clients, Bind) {
    var cache := Cached(g.cache, w, c);
    var published := cache[w];
    if published != c then (g.(cache := cache), RefusedByCache)
    else if BoundTo(g, w) then
      (g.(cache := cache), if g.slot.value.client == published then Published(published) else RefusedBySlot)
    else (Clients(Some(Bound(w, published)), cache), Published(published))
  }

  // ---- Interleavings ------------------------------------------------------------------------

  datatype Pc =
    | Idle
    | InitLookup(w: Workspace)
    | InitRebind(w: Workspace, c: Client)
    | InitBuild(w: Workspace)
    | InitFailed(w: Workspace)
    | InitBuilt(w: Workspace, c: Client)
    | ForLookup(w: Workspace)
    | ForBuild(w: Workspace)
    | ForBuilt(w: Workspace, c: Client)

  datatype Action =
    | Init(w: Workspace)
    | ClientFor(w: Workspace)
    | BindTo(w: Workspace, c: Client)
    | Construct(built: Option<Client>)
    | Advance

  /** `returned`: every client a call has returned, with the workspace it was asked for.
      `refusals`: what each refused `bind` was refused by. */
  datatype State = State(
    g: Clients,
    procs: map<Pid, Pc>,
    returned: set<(Workspace, Client)>,
    refusals: set<Bind>)

  function PcOf(s: State, p: Pid): Pc {
    if p in s.procs then s.procs[p] else Idle
  }

  function Goto(s: State, p: Pid, pc: Pc): State {
    s.(procs := s.procs[p := pc])
  }

  function Return(s: State, p: Pid, g: Clients, w: Workspace, c: Client): State {
    State(g, s.procs[p := Idle], s.returned + {(w, c)}, s.refusals)
  }

  function StartInit(s: State, p: Pid, w: Workspace): State {
    if BoundTo(s.g, w) then Return(s, p, s.g, w, s.g.slot.value.client) else Goto(s, p, InitLookup(w))
  }

  function StartClientFor(s: State, p: Pid, w: Workspace): State {
    if BoundTo(s.g, w) then
      var (g, c) := CachePublish(s.g, w, s.g.slot.value.client);
      Return(s, p, g, w, c)
    else Goto(s, p, ForLookup(w))
  }

  function DoBind(s: State, p: Pid, w: Workspace, c: Client): State {
    var (g, r) := BindClient(s.g, w, c);
    if r.Published? then Return(s, p, g, w, r.client) else s.(g := g, refusals := s.refusals + {r})
  }

  function Continue(s: State, p: Pid): Option<State> {
    match PcOf(s, p)
    case InitLookup(w) =>
      Some(Goto(s, p, if w in s.g.cache then InitRebind(w, s.g.cache[w]) else InitBuild(w)))
    case InitRebind(w, c) => Some(Return(s, p, Rebound(s.g, w, c), w, c))
    case InitFailed(w) => Some(Goto(s, p, Idle).(g := ConstructionFailed(s.g, w)))
    case InitBuilt(w, c) =>
      var (g, published) := InitPublish(s.g, w, c);
      Some(Return(s, p, g, w, published))
    case ForLookup(w) =>
      Some(if w in s.g.cache then Return(s, p, s.g, w, s.g.cache[w]) else Goto(s, p, ForBuild(w)))
    case ForBuilt(w, c) =>
      var (g, published) := CachePublish(s.g, w, c);
      Some(Return(s, p, g, w, published))
    case _ => None
  }

  function Next(s: State, p: Pid, a: Action): Option<State> {
    var pc := PcOf(s, p);
    match a
    case Init(w) => if pc.Idle? then Some(StartInit(s, p, w)) else None
    case ClientFor(w) => if pc.Idle? then Some(StartClientFor(s, p, w)) else None
    case BindTo(w, c) => if pc.Idle? then Some(DoBind(s, p, w, c)) else None
    case Construct(built) =>
      if pc.InitBuild? then
        Some(Goto(s, p, if built.Some? then InitBuilt(pc.w, built.value) else InitFailed(pc.w)))
      else if pc.ForBuild? then
        Some(Goto(s, p, if built.Some? then ForBuilt(pc.w, built.value) else Idle))
      else None
    case Advance => Continue(s, p)
  }

  // ---- Safety -------------------------------------------------------------------------------

  predicate Publishes(cache: map<Workspace, Client>, w: Workspace, c: Client) {
    w in cache && cache[w] == c
  }

  /** The slot's client is the cached client of its workspace. */
  predicate SlotOk(g: Clients) {
    g.slot.Some? ==> Publishes(g.cache, g.slot.value.workspace, g.slot.value.client)
  }

  /** Cache entries never change. */
  predicate Grows(a: map<Workspace, Client>, b: map<Workspace, Client>) {
    forall w | w in a :: Publishes(b, w, a[w])
  }

  ghost predicate Inv(s: State) {
    && SlotOk(s.g)
    && (forall p | p in s.procs :: s.procs[p].InitRebind? ==> Publishes(s.g.cache, s.procs[p].w, s.procs[p].c))
    && (forall w, c | (w, c) in s.returned :: Publishes(s.g.cache, w, c))
    && RefusedBySlot !in s.refusals
  }

  /** A refused `bind` changes neither slot nor cache, and only a cached rival refuses it. */
  lemma RefusalChangesNothing(g: Clients, w: Workspace, c: Client)
    requires SlotOk(g)
    ensures var (g', r) := BindClient(g, w, c);
            && r != RefusedBySlot
            && (r == RefusedByCache <==> w in g.cache && g.cache[w] != c)
            && (r == RefusedByCache ==> g' == g)
            && (r != RefusedByCache ==> r == Published(c) && g'.slot == Some(Bound(w, c)) && SlotOk(g'))
  {
  }

  lemma ContinueKeepsInv(s: State, p: Pid, s': State)
    requires Inv(s) && Continue(s, p) == Some(s')
    ensures Inv(s') && Grows(s.g.cache, s'.g.cache)
  {
    if p in s.procs && s.procs[p].InitRebind? {
      assert Publishes(s.g.cache, s.procs[p].w, s.procs[p].c);
    }
  }

  lemma StepKeepsInv(s: State, p: Pid, a: Action, s': State)
    requires Inv(s) && Next(s, p, a) == Some(s')
    ensures Inv(s') && Grows(s.g.cache, s'.g.cache)
  {
    match a
    case BindTo(w, c) => RefusalChangesNothing(s.g, w, c);
    case Advance => ContinueKeepsInv(s, p, s');
    case _ =>
  }

  type Schedule = seq<(Pid, Action)>

  ghost predicate IsRun(run: seq<State>, schedule: Schedule) {
    && |run| == |schedule| + 1
    && run[0] == State(Clients(None, map[]), map[], {}, {})
    && forall i | 0 <= i < |schedule| :: Next(run[i], schedule[i].0, schedule[i].1) == Some(run[i + 1])
  }

  lemma {:induction false} RunKeepsInv(run: seq<State>, schedule: Schedule, i: nat)
    requires IsRun(run, schedule) && i < |run|
    ensures Inv(run[i])
  {
    if i > 0 {
      RunKeepsInv(run, schedule, i - 1);
      StepKeepsInv(run[i - 1], schedule[i - 1].0, schedule[i - 1].1, run[i]);
    }
  }

  lemma {:induction false} CacheGrows(run: seq<State>, schedule: Schedule, i: nat, j: nat)
    requires IsRun(run, schedule) && i <= j < |run|
    ensures Grows(run[i].g.cache, run[j].g.cache)
  {
    if i < j {
      CacheGrows(run, schedule, i, j - 1);
      RunKeepsInv(run, schedule, j - 1);
      StepKeepsInv(run[j - 1], schedule[j - 1].0, schedule[j - 1].1, run[j]);
    }
  }

  /** In a whole run, whatever races: all successful calls for one workspace return one client,
      at any time the slot holds that client or another workspace's, and `bind` is never
      refused by the slot. */
  lemma OneClientPerWorkspace(run: seq<State>, schedule: Schedule, i: nat, j: nat, w: Workspace, c: Client, d: Client)
    requires IsRun(run, schedule) && i <= j < |run|
    requires (w, c) in run[i].returned && (w, d) in run[j].returned
    ensures c == d
    ensures BoundTo(run[j].g, w) ==> run[j].g.slot.value.client == c
    ensures RefusedBySlot !in run[j].refusals
  {
    RunKeepsInv(run, schedule, i);
    RunKeepsInv(run, schedule, j);
    CacheGrows(run, schedule, i, j);
    assert Publishes(run[i].g.cache, w, c) && Publishes(run[j].g.cache, w, d);
  }

  /** An `init` that returns from its last section leaves the slot on its workspace and the
      client it returned. */
  lemma InitBindsSlot(s: State, p: Pid, s': State, w: Workspace)
    requires Inv(s) && Next(s, p, Advance) == Some(s')
    requires (PcOf(s, p).InitRebind? || PcOf(s, p).InitBuilt?) && PcOf(s, p).w == w
    ensures PcOf(s', p).Idle? && BoundTo(s'.g, w) && (w, s'.g.slot.value.client) in s'.returned
  {
  }

  // ---- The calls themselves, one at a time --------------------------------------------------

  class ClientRegistry {
    var slot: Option<Bound>
    var cache: map<Workspace, Client>

    function Abs(): Clients
      reads this
    {
      Clients(slot, cache)
    }

    predicate Valid()
      reads this
    {
      SlotOk(Abs())
    }

    constructor ()
      ensures Valid() && Abs() == Clients(None, map[])
    {
      slot, cache := None, map[];
    }

    method CachedClient(w: Workspace) returns (r: Option<Client>)
      ensures r == if w in cache then Some(cache[w]) else None
    {
      r := if w in cache then Some(cache[w]) else None;
    }

    /** Publish `c` for `w` unless another client got there first; return the winner. */
    method CacheClient(w: Workspace, c: Client) returns (winner: Client)
      modifies this`cache
      ensures cache == Cached(old(cache), w, c) && Publishes(cache, w, winner)
    {
      if w !in cache {
        cache := cache[w := c];
      }
      winner := cache[w];
    }

    /** `init`'s last section: publish the client it built, unless the slot was bound to `w`
        meanwhile. */
    method PublishBuilt(w: Workspace, c: Client) returns (client: Client)
      requires Valid()
      modifies this
      ensures Valid() && (Abs(), client) == InitPublish(old(Abs()), w, c)
      ensures slot == Some(Bound(w, client)) && Publishes(cache, w, client) && Grows(old(cache), cache)
    {
      if slot.Some? && slot.value.workspace == w {
        client := slot.value.client;
        var _ := CacheClient(w, client);
        return;
      }
      client := CacheClient(w, c);
      slot := Some(Bound(w, client));
    }

    /** `built` is what constructing a client would give. */
    method Init(w: Workspace, built: Option<Client>) returns (r: Option<Client>)
      requires Valid()
      modifies this
      ensures Valid() && Grows(old(cache), cache)
      ensures r == if w in old(cache) then Some(old(cache)[w]) else built
      ensures r.Some? ==> slot == Some(Bound(w, r.value)) && cache == Cached(old(cache), w, r.value)
      ensures r.None? ==> slot.None? && cache == old(cache)
    {
      if slot.Some? && slot.value.workspace == w {
        return Some(slot.value.client);
      }
      var cached := CachedClient(w);
      if cached.Some? {
        slot := Some(Bound(w, cached.value));
        return cached;
      }
      if built.None? {
        if slot.Some? && slot.value.workspace != w {
          slot := None;
        }
        return None;
      }
      var client := PublishBuilt(w, built.value);
      return Some(client);
    }

    method ClientForWorkspace(w: Workspace, built: Option<Client>) returns (r: Option<Client>)
      requires Valid()
      modifies this`cache
      ensures Valid() && Grows(old(cache), cache)
      ensures r == if w in old(cache) then Some(old(cache)[w]) else built
      ensures cache == if r.Some? then Cached(old(cache), w, r.value) else old(cache)
    {
      if slot.Some? && slot.value.workspace == w {
        var client := CacheClient(w, slot.value.client);
        return Some(client);
      }
      var existing := CachedClient(w);
      if existing.Some? {
        return existing;
      }
      if built.None? {
        return None;
      }
      var client := CacheClient(w, built.value);
      return Some(client);
    }

    /** Publish a client the caller built; refused when another one is published for `w`. */
    method BindInSlot(w: Workspace, c: Client) returns (bound: bool)
      requires Valid()
      modifies this
      ensures Valid() && Grows(old(cache), cache)
      ensures bound <==> !(w in old(cache) && old(cache)[w] != c)
      ensures bound ==> slot == Some(Bound(w, c)) && cache == old(cache)[w := c]
      ensures !bound ==> Abs() == old(Abs())
      ensures (Abs(), if bound then Published(c) else RefusedByCache) == BindClient(old(Abs()), w, c)
    {
      var published := CacheClient(w, c);
      if published != c {
        return false;
      }
      if slot.Some? && slot.value.workspace == w {
        return slot.value.client == published;
      }
      slot := Some(Bound(w, published));
      return true;
    }
  }
}
