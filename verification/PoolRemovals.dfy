/** Security-group removals with the lists they read. `remove_sg_from_pools` lists the groups of a pool
    before its first I/O call and goes through that list with I/O in between, so by the time it
    deletes a group, another removal or a pool deletion may have deleted it and a population or a
    return pass made a new one under the same key. */
module PoolRemovals {
  import opened Basics
  import opened PortIndex
  import opened PoolProtocol
  import opened PoolConservation
  import opened PoolRuns

  /** A group as read. While `gone` is `None` the group of that key is still the one that was read;
      once it has been deleted, `gone` are the ports its list had then. */
  datatype Entry = Entry(key: SgKey, gone: Option<seq<PortId>>)

  /** A removal of `sg` with the groups of `pool` it has still to go through. */
  datatype Removal = Removal(sg: SgId, pool: PoolKey, entries: seq<Entry>)

  /** The driver, the removals under way and the pools that were forgotten, with their groups. */
  datatype World = World(base: State, removals: map<nat, Removal>, forgotten: seq<(PoolKey, seq<Entry>)>)

  datatype Move =
    | Base(step: Step)                          // any other step of the driver
    | Visit(t: nat, sg: SgId, k: PoolKey)       // the groups of a pool are read
    | VisitForgotten(t: nat, sg: SgId, j: nat)  // those of a pool that is no longer there
    | Skip(t: nat)                              // a group without `sg`, or one that is gone
    | Raise(t: nat)                             // a group filed under None
    | Delete(t: nat)                            // the group of that key is deleted

  function Read(gs: Groups): seq<Entry> {
    seq(|gs|, i requires 0 <= i < |gs| => Entry(gs[i].key, None))
  }

  /** The groups of a forgotten pool: all gone. */
  function ReadGone(gs: Groups): seq<Entry> {
    seq(|gs|, i requires 0 <= i < |gs| => Entry(gs[i].key, Some(gs[i].ports)))
  }

  predicate Present(s: State, k: PoolKey, key: SgKey) {
    Find(Pool(s, k), key) < |Pool(s, k)|
  }

  /** The group that `e` was read from has just been deleted with pool `k`, or alone. */
  function Frozen(e: Entry, s: State, k: PoolKey, pool: PoolKey, only: Option<SgKey>): Entry {
    if pool == k && e.gone.None? && (only.None? || only.value == e.key) && Present(s, k, e.key) then
      e.(gone := Some(Pool(s, k)[Find(Pool(s, k), e.key)].ports))
    else e
  }

  function Freeze(removals: map<nat, Removal>, s: State, k: PoolKey, only: Option<SgKey>): map<nat, Removal> {
    map t | t in removals ::
      var r := removals[t];
      r.(entries := seq(|r.entries|, i requires 0 <= i < |r.entries| => Frozen(r.entries[i], s, k, r.pool, only)))
  }

  /** The removal can go on: it is not in the middle of a group. */
  predicate Between(w: World, t: nat) {
    t in w.removals && t !in w.base.drains && w.removals[t].entries != []
  }

  predicate CanVisit(w: World, t: nat, sg: SgId) {
    t !in w.base.drains && (t in w.removals ==> w.removals[t].entries == [] && w.removals[t].sg == sg)
  }

  ghost predicate CanMove(c: Config, w: World, m: Move) {
    match m
    case Base(step) => !step.BeginDrain? && Enabled(c, w.base, step)
    case Visit(t, sg, k) => CanVisit(w, t, sg)
    case VisitForgotten(t, sg, j) => CanVisit(w, t, sg) && j < |w.forgotten|
    case Skip(t) =>
      Between(w, t) &&
      var r := w.removals[t];
      r.entries[0].key.Sgs? && !(Hit(r.entries[0].key, r.sg) && Present(w.base, r.pool, r.entries[0].key))
    case Raise(t) => Between(w, t) && w.removals[t].entries[0].key == Unknown
    case Delete(t) =>
      Between(w, t) &&
      var r := w.removals[t]; Hit(r.entries[0].key, r.sg) && Present(w.base, r.pool, r.entries[0].key)
  }

  /** The list that is drained is the one that was read. */
  function ListRead(w: World, t: nat): seq<PortId>
    requires Between(w, t)
  {
    var r := w.removals[t];
    var e, gs := r.entries[0], Pool(w.base, r.pool);
    if e.gone.Some? then e.gone.value else if Present(w.base, r.pool, e.key) then gs[Find(gs, e.key)].ports else []
  }

  /** The driver after removal `t` has deleted the group at `i` and holds `ports`. */
  function Taken(s: State, t: nat, k: PoolKey, i: nat, ports: seq<PortId>): State
    requires i < |Pool(s, k)|
  {
    s.(pools := s.pools[k := Without(Pool(s, k), i)], drains := s.drains[t := Drain(k, ports)])
  }

  function Next(w: World, t: nat): Removal
    requires Between(w, t)
  {
    w.removals[t].(entries := w.removals[t].entries[1..])
  }

  ghost function MoveTo(c: Config, w: World, m: Move): World
    requires CanMove(c, w, m)
  {
    match m
    case Base(step) =>
      World(Apply(c, w.base, step),
            if step.ForgetPool? then Freeze(w.removals, w.base, step.k, None)
            else if step.EndDrain? && !step.ok then w.removals - {step.t} else w.removals,
            if step.ForgetPool? then w.forgotten + [(step.k, ReadGone(Pool(w.base, step.k)))] else w.forgotten)
    case Visit(t, sg, k) => w.(removals := w.removals[t := Removal(sg, k, Read(Pool(w.base, k)))])
    case VisitForgotten(t, sg, j) => w.(removals := w.removals[t := Removal(sg, w.forgotten[j].0, w.forgotten[j].1)])
    case Skip(t) => w.(removals := w.removals[t := Next(w, t)])
    case Raise(t) => w.(removals := w.removals - {t})
    case Delete(t) =>
      var r := w.removals[t];
      var i := Find(Pool(w.base, r.pool), r.entries[0].key);
      World(Taken(w.base, t, r.pool, i, ListRead(w, t)),
            Freeze(w.removals[t := Next(w, t)], w.base, r.pool, Some(r.entries[0].key)), w.forgotten)
  }

  ghost predicate Moves(c: Config, worlds: seq<World>, moves: seq<Move>, i: nat)
    requires i < |moves| < |worlds|
  {
    CanMove(c, worlds[i], moves[i]) && worlds[i + 1] == MoveTo(c, worlds[i], moves[i])
  }

  ghost predicate WorldRun(c: Config, worlds: seq<World>, moves: seq<Move>) {
    |worlds| == |moves| + 1 && forall i :: 0 <= i < |moves| ==> Moves(c, worlds, moves, i)
  }

  // ---- removals that delete the list they read ----

  /** A deletion finds the group that was read. */
  ghost predicate Live(w: World, m: Move) {
    m.Delete? && Between(w, m.t) ==> w.removals[m.t].entries[0].gone.None?
  }

  ghost predicate AllLive(worlds: seq<World>, moves: seq<Move>) {
    |moves| < |worlds| && forall i :: 0 <= i < |moves| ==> Live(worlds[i], moves[i])
  }

  /** The step of the driver that a move is when it is live: a deletion is a removal's own, and the
      rest of a removal leaves the driver as it is. */
  function DriverStep(w: World, m: Move): Step {
    match m
    case Base(step) => step
    case Delete(t) =>
      if !Between(w, t) then Elsewhere else
        var r := w.removals[t];
        BeginDrain(t, r.pool, r.sg, Find(Pool(w.base, r.pool), r.entries[0].key))
    case _ => Elsewhere
  }

  lemma {:induction false} LiveMoveIsStep(c: Config, w: World, m: Move)
    requires CanMove(c, w, m) && Live(w, m)
    ensures Enabled(c, w.base, DriverStep(w, m)) && MoveTo(c, w, m).base == Apply(c, w.base, DriverStep(w, m))
  { }

  ghost function Bases(worlds: seq<World>): seq<State> {
    seq(|worlds|, i requires 0 <= i < |worlds| => worlds[i].base)
  }

  ghost function DriverSteps(worlds: seq<World>, moves: seq<Move>): seq<Step>
    requires |moves| <= |worlds|
  {
    seq(|moves|, i requires 0 <= i < |moves| => DriverStep(worlds[i], moves[i]))
  }

  /** A run in which each removal deletes the list it read is a run of the driver. */
  lemma {:induction false} LiveRunIsRun(c: Config, worlds: seq<World>, moves: seq<Move>)
    requires WorldRun(c, worlds, moves) && AllLive(worlds, moves)
    ensures Run(c, Bases(worlds), DriverSteps(worlds, moves))
  {
    var trace, steps := Bases(worlds), DriverSteps(worlds, moves);
    forall i | 0 <= i < |steps| ensures Follows(c, trace, steps, i) {
      assert Moves(c, worlds, moves, i) && Live(worlds[i], moves[i]);
      LiveMoveIsStep(c, worlds[i], moves[i]);
    }
  }

  /** In every run in which each removal deletes the list it read, any number of them under way. */
  lemma {:induction false} WorldIsSound(c: Config, worlds: seq<World>, moves: seq<Move>, n: nat)
    requires WorldRun(c, worlds, moves) && AllLive(worlds, moves) && Sound(worlds[0].base) && n <= |moves|
    ensures Sound(worlds[n].base)
  {
    LiveRunIsRun(c, worlds, moves);
    RunIsSound(c, Bases(worlds), DriverSteps(worlds, moves), n);
  }

  /** Single owner: a port is at no more than one place, and there once. */
  lemma {:induction false} NoPortIsGivenTwice(
    c: Config, worlds: seq<World>, moves: seq<Move>, n: nat, a: Place, b: Place, p: PortId)
    requires WorldRun(c, worlds, moves) && AllLive(worlds, moves) && Sound(worlds[0].base) && n <= |moves|
    requires At(worlds[n].base, a, p) && At(worlds[n].base, b, p)
    ensures a == b && (a.InPool? ==> Bag(Pool(worlds[n].base, a.k))[p] == 1)
  {
    WorldIsSound(c, worlds, moves, n);
    assert a.InPool? ==> p in Bag(Pool(worlds[n].base, a.k));
  }

  /** The index agrees with Neutron too, in all states if and only if no release is stale. */
  lemma {:induction false} WorldIsSafe(c: Config, worlds: seq<World>, moves: seq<Move>)
    requires WorldRun(c, worlds, moves) && AllLive(worlds, moves) && Safe(worlds[0].base) &&
             NothingListed(worlds[0].base)
    ensures (forall n :: 0 <= n < |worlds| ==> Safe(worlds[n].base)) <==>
            NoStaleRelease(Bases(worlds), DriverSteps(worlds, moves))
  {
    LiveRunIsRun(c, worlds, moves);
    SafeExactly(c, Bases(worlds), DriverSteps(worlds, moves));
    assert forall n :: 0 <= n < |worlds| ==> Bases(worlds)[n] == worlds[n].base;
  }

  // ---- removals that delete another list ----

  /** The driver without the group that is deleted. */
  function Cut(s: State, k: PoolKey, i: nat): State
    requires i < |Pool(s, k)|
  {
    s.(pools := s.pools[k := Without(Pool(s, k), i)])
  }

  /** Whatever list a removal drains, its deletion keeps single owners if and only if the ports of the
      list are distinct and nobody else has one of them. */
  lemma {:induction false} DeletionKeepsOwnersExactly(s: State, t: nat, k: PoolKey, i: nat, ports: seq<PortId>)
    requires Ownership(s) && i < |Pool(s, k)| && t !in s.drains && forall p :: p in ports ==> p in s.created
    ensures Ownership(Taken(s, t, k, i, ports)) <==>
            Distinct(ports) && forall p, a :: p in ports ==> !At(Cut(s, k, i), a, p)
  {
    var s', s1 := Taken(s, t, k, i, ports), Cut(s, k, i);
    CutKeepsOwnership(s, k, i);
    forall a, p | a != InDrain(t) ensures At(s', a, p) <==> At(s1, a, p) {
      assert Pool(s', k) == Pool(s1, k) && forall k' :: Pool(s', k') == Pool(s1, k');
    }
    if Ownership(s') {
      assert Distinct(s'.drains[t].ports);
      forall p, a | p in ports ensures !At(s1, a, p) {
        if At(s1, a, p) { assert At(s', InDrain(t), p); }
      }
    }
    if Distinct(ports) && forall p, a :: p in ports ==> !At(s1, a, p) {
      TakenKeepsOwnership(s1, s', t, ports);
    }
  }

  lemma {:induction false} CutKeepsOwnership(s: State, k: PoolKey, i: nat)
    requires Ownership(s) && i < |Pool(s, k)|
    ensures Ownership(Cut(s, k, i))
  {
    var gs := Pool(s, k);
    WithoutFacts(gs, i);
    forall q ensures Bag(Without(gs, i))[q] <= 1 { assert Bag(gs)[q] <= 1; }
    OnePoolChanged(s, Cut(s, k, i), k, Without(gs, i));
    forall a, q | At(Cut(s, k, i), a, q) ensures At(s, a, q) { }
  }

  lemma {:induction false} TakenKeepsOwnership(s: State, s': State, t: nat, ports: seq<PortId>)
    requires Ownership(s) && s'.pools == s.pools && s'.recyclable == s.recyclable && s'.held == s.held &&
             s'.requests == s.requests
    requires t !in s.drains && (exists k :: s'.drains == s.drains[t := Drain(k, ports)]) && s'.created == s.created
    requires Distinct(ports) && forall p, a :: p in ports ==> p in s.created && !At(s, a, p)
    ensures Ownership(s')
  {
    forall k ensures Pool(s', k) == Pool(s, k) { }
    forall a, q | At(s', a, q) ensures if a == InDrain(t) then q in ports else At(s, a, q) { }
  }

  /** A list is one that a group of a pool could have. */
  ghost predicate Plausible(s: State, e: Entry) {
    e.gone.Some? ==> Distinct(e.gone.value) && forall p :: p in e.gone.value ==> p in s.created
  }

  ghost predicate AllPlausible(s: State, es: seq<Entry>) {
    forall e :: e in es ==> Plausible(s, e)
  }

  ghost predicate ListsPlausible(w: World) {
    && (forall t :: t in w.removals ==> AllPlausible(w.base, w.removals[t].entries))
    && (forall j :: 0 <= j < |w.forgotten| ==> AllPlausible(w.base, w.forgotten[j].1))
  }

  lemma {:induction false} GroupIsPlausible(s: State, k: PoolKey, i: nat)
    requires Ownership(s) && i < |Pool(s, k)|
    ensures Plausible(s, Entry(Pool(s, k)[i].key, Some(Pool(s, k)[i].ports)))
  {
    var gs := Pool(s, k);
    var ports := gs[i].ports;
    WithoutFacts(gs, i);
    forall p | p in ports ensures p in s.created { assert At(s, InPool(k), p); }
    forall a, b | 0 <= a < b < |ports| ensures ports[a] != ports[b] {
      assert multiset(ports)[ports[a]] <= Bag(gs)[ports[a]] <= 1;
      if ports[a] == ports[b] { TwiceInList(ports, a, b); }
    }
  }

  lemma {:induction false} TwiceInList(ports: seq<PortId>, a: nat, b: nat)
    requires a < b < |ports| && ports[a] == ports[b]
    ensures multiset(ports)[ports[a]] >= 2
  {
    assert ports == ports[..b] + [ports[b]] + ports[b + 1..];
    assert ports[..b][a] == ports[a];
  }

  lemma {:induction false} FrozenIsPlausible(
    s: State, s': State, e: Entry, k: PoolKey, pool: PoolKey, only: Option<SgKey>)
    requires Ownership(s) && s.created <= s'.created && Plausible(s, e)
    ensures Plausible(s', Frozen(e, s, k, pool, only))
  {
    if Present(s, k, e.key) { GroupIsPlausible(s, k, Find(Pool(s, k), e.key)); }
  }

  lemma {:induction false} FreezePlausible(
    s: State, s': State, removals: map<nat, Removal>, k: PoolKey, only: Option<SgKey>, t: nat)
    requires Ownership(s) && s.created <= s'.created && t in removals && AllPlausible(s, removals[t].entries)
    ensures AllPlausible(s', Freeze(removals, s, k, only)[t].entries)
  {
    var es := removals[t].entries;
    forall e | e in Freeze(removals, s, k, only)[t].entries ensures Plausible(s', e) {
      var i :| 0 <= i < |es| && e == Frozen(es[i], s, k, removals[t].pool, only);
      FrozenIsPlausible(s, s', es[i], k, removals[t].pool, only);
    }
  }

  lemma {:induction false} ForgottenIsPlausible(s: State, k: PoolKey)
    requires Ownership(s)
    ensures AllPlausible(s, ReadGone(Pool(s, k)))
  {
    var gs := Pool(s, k);
    forall e | e in ReadGone(gs) ensures Plausible(s, e) {
      var i :| 0 <= i < |gs| && e == Entry(gs[i].key, Some(gs[i].ports));
      GroupIsPlausible(s, k, i);
    }
  }

  lemma {:induction false} MoveKeepsPlausible(c: Config, w: World, m: Move)
    requires Ownership(w.base) && ListsPlausible(w) && CanMove(c, w, m)
    ensures ListsPlausible(MoveTo(c, w, m))
  {
    var w' := MoveTo(c, w, m);
    if m.Base? { OnlyPopulationsMake(c, w.base, m.step); }
    assert w.base.created <= w'.base.created;
    if m.Base? && m.step.ForgetPool? { ForgottenIsPlausible(w.base, m.step.k); }
    forall t | t in w'.removals ensures AllPlausible(w'.base, w'.removals[t].entries) {
      if m.Base? && m.step.ForgetPool? {
        FreezePlausible(w.base, w'.base, w.removals, m.step.k, None, t);
      } else if m.Delete? {
        var r := w.removals[m.t];
        FreezePlausible(w.base, w'.base, w.removals[m.t := Next(w, m.t)], r.pool, Some(r.entries[0].key), t);
      }
    }
  }

  lemma {:induction false} ListsStayPlausible(c: Config, worlds: seq<World>, moves: seq<Move>, n: nat)
    requires WorldRun(c, worlds, moves) && AllLive(worlds, moves) && worlds[0] == World(EMPTY, map[], []) &&
             n <= |moves|
    ensures Sound(worlds[n].base) && ListsPlausible(worlds[n])
  {
    EmptyIsSafe();
    WorldIsSound(c, worlds, moves, n);
    if n > 0 {
      ListsStayPlausible(c, worlds, moves, n - 1);
      assert Moves(c, worlds, moves, n - 1);
      MoveKeepsPlausible(c, worlds[n - 1], moves[n - 1]);
    }
  }

  /** After a run in which each deletion was live, a removal deletes a group of which it has read another
      list. Single owners are kept if and only if each port of that list was lost before, or has come
      back into the very group that is deleted. */
  lemma {:induction false} StaleDeletionExactly(c: Config, worlds: seq<World>, moves: seq<Move>, t: nat)
    requires WorldRun(c, worlds, moves) && AllLive(worlds, moves) && worlds[0] == World(EMPTY, map[], [])
    requires var w := worlds[|moves|]; CanMove(c, w, Delete(t)) && w.removals[t].entries[0].gone.Some?
    ensures var w := worlds[|moves|];
            var r := w.removals[t];
            var group := Pool(w.base, r.pool)[Find(Pool(w.base, r.pool), r.entries[0].key)];
            Ownership(MoveTo(c, w, Delete(t)).base) <==>
            forall p :: p in r.entries[0].gone.value ==>
              p in group.ports || LostBefore(Bases(worlds), DriverSteps(worlds, moves), |moves|, p)
  {
    var w := worlds[|moves|];
    var r, s := w.removals[t], w.base;
    var i, ports := Find(Pool(s, r.pool), r.entries[0].key), r.entries[0].gone.value;
    ListsStayPlausible(c, worlds, moves, |moves|);
    assert Plausible(s, r.entries[0]);
    LiveRunIsRun(c, worlds, moves);
    DeletionKeepsOwnersExactly(s, t, r.pool, i, ports);
    assert MoveTo(c, w, Delete(t)).base == Taken(s, t, r.pool, i, ports);
    forall p | p in ports
      ensures Somewhere(Cut(s, r.pool, i), p) <==>
              !(p in Pool(s, r.pool)[i].ports || LostBefore(Bases(worlds), DriverSteps(worlds, moves), |moves|, p))
    {
      PortIsLostExactly(c, Bases(worlds), DriverSteps(worlds, moves), |moves|, p);
      CutLeaves(s, r.pool, i, p);
    }
  }

  lemma {:induction false} CutAt(s: State, k: PoolKey, i: nat, a: Place, p: PortId)
    requires DistinctKeys(Pool(s, k)) && i < |Pool(s, k)| && Bag(Pool(s, k))[p] <= 1
    ensures At(Cut(s, k, i), a, p) <==> At(s, a, p) && !(a == InPool(k) && p in Pool(s, k)[i].ports)
  {
    var gs := Pool(s, k);
    WithoutFacts(gs, i);
    assert Bag(gs)[p] == Bag(Without(gs, i))[p] + multiset(gs[i].ports)[p];
    if a.InPool? { OnePoolFollows(s, Cut(s, k, i), k, Without(gs, i), a.k, p); }
  }

  /** Without the group, exactly its own ports have lost their place. */
  lemma {:induction false} CutLeaves(s: State, k: PoolKey, i: nat, p: PortId)
    requires Ownership(s) && i < |Pool(s, k)|
    ensures Somewhere(Cut(s, k, i), p) <==> Somewhere(s, p) && p !in Pool(s, k)[i].ports
  {
    assert Bag(Pool(s, k))[p] <= 1;
    if p in Pool(s, k)[i].ports {
      InBag(Pool(s, k), i, p);
      assert At(s, InPool(k), p);
    }
    if a :| At(Cut(s, k, i), a, p) { CutAt(s, k, i, a, p); }
    if a :| At(s, a, p) { CutAt(s, k, i, a, p); }
  }

  // ---- a run that files a port twice ----

  ghost predicate Reached(c: Config, w: World) {
    exists worlds, moves :: WorldRun(c, worlds, moves) && worlds[0] == World(EMPTY, map[], []) && worlds[|moves|] == w
  }

  lemma {:induction false} ReachMove(c: Config, w: World, m: Move, w': World)
    requires Reached(c, w) && CanMove(c, w, m) && w' == MoveTo(c, w, m)
    ensures Reached(c, w')
  {
    var worlds, moves :| WorldRun(c, worlds, moves) && worlds[0] == World(EMPTY, map[], []) && worlds[|moves|] == w;
    OneMoreMove(c, worlds, moves, m, w');
  }

  lemma {:induction false} OneMoreMove(c: Config, worlds: seq<World>, moves: seq<Move>, m: Move, w': World)
    requires WorldRun(c, worlds, moves) && worlds[0] == World(EMPTY, map[], [])
    requires CanMove(c, worlds[|moves|], m) && w' == MoveTo(c, worlds[|moves|], m)
    ensures Reached(c, w')
  {
    var worlds', moves' := worlds + [w'], moves + [m];
    forall i | 0 <= i < |moves'| ensures Moves(c, worlds', moves', i) {
      if i < |moves| {
        assert Moves(c, worlds, moves, i);
        assert worlds'[i] == worlds[i] && worlds'[i + 1] == worlds[i + 1] && moves'[i] == moves[i];
      } else {
        assert worlds'[i] == worlds[|moves|] && worlds'[i + 1] == w' && moves'[i] == m;
      }
    }
    assert WorldRun(c, worlds', moves') && worlds'[0] == World(EMPTY, map[], []) && worlds'[|moves'|] == w';
  }

  /** A step of the driver that neither forgets a pool nor ends a removal. */
  lemma {:induction false} ReachBase(c: Config, w: World, step: Step, s': State)
    requires Reached(c, w) && Enabled(c, w.base, step) && s' == Apply(c, w.base, step)
    requires !step.BeginDrain? && !step.ForgetPool? && (step.EndDrain? ==> step.ok)
    ensures Reached(c, w.(base := s'))
  {
    ReachMove(c, w, Base(step), w.(base := s'));
  }

  lemma {:induction false} StartIsReached(c: Config)
    ensures Reached(c, World(EMPTY, map[], []))
  {
    assert WorldRun(c, [World(EMPTY, map[], [])], []) && [World(EMPTY, map[], [])][0] == World(EMPTY, map[], []);
  }

  /** Two removals have read the group of port `p`. */
  ghost function BothRead(k: PoolKey, p: PortId, sg: SgId): World {
    var r := Removal(sg, k, [Entry(Sgs({sg}), None)]);
    World(One(k, p, {sg}, true), map[1 := r, 2 := r], [])
  }

  lemma {:induction false} PopulatingIsReached(c: Config, k: PoolKey, sg: SgId)
    requires c.poolMin >= 1
    ensures Reached(c, World(Populating(c, k, {sg}), map[], []))
  {
    StartIsReached(c);
    ReachBase(c, World(EMPTY, map[], []), BeginPopulate(0, k, {sg}), Populating(c, k, {sg}));
  }

  lemma {:induction false} PooledIsReached(c: Config, k: PoolKey, p: PortId, sg: SgId)
    requires c.poolMin >= 1
    ensures Reached(c, World(One(k, p, {sg}, true), map[], []))
  {
    PopulatingIsReached(c, k, sg);
    PopulatedWithOne(c, k, p, {sg});
    ReachBase(c, World(Populating(c, k, {sg}), map[], []), EndPopulate(0, [p], {sg}), One(k, p, {sg}, true));
  }

  lemma {:induction false} BothReadIsReached(c: Config, k: PoolKey, p: PortId, sg: SgId)
    requires c.poolMin >= 1
    ensures Reached(c, BothRead(k, p, sg))
  {
    PooledIsReached(c, k, p, sg);
    var w := World(One(k, p, {sg}, true), map[], []);
    var r := Removal(sg, k, [Entry(Sgs({sg}), None)]);
    assert Read(Pool(w.base, k)) == r.entries;
    ReachMove(c, w, Visit(1, sg, k), w.(removals := map[1 := r]));
    ReachMove(c, w.(removals := map[1 := r]), Visit(2, sg, k), BothRead(k, p, sg));
  }

  /** The first has deleted it; for the second it is gone. */
  ghost function FirstDeleted(k: PoolKey, p: PortId, sg: SgId): World {
    World(One(k, p, {sg}, true).(pools := map[k := []], drains := map[1 := Drain(k, [p])]),
          map[1 := Removal(sg, k, []), 2 := Removal(sg, k, [Entry(Sgs({sg}), Some([p]))])], [])
  }

  lemma {:induction false} FirstDeletedIsReached(c: Config, k: PoolKey, p: PortId, sg: SgId)
    requires c.poolMin >= 1
    ensures Reached(c, FirstDeleted(k, p, sg))
  {
    BothReadIsReached(c, k, p, sg);
    var w := BothRead(k, p, sg);
    var gs := Pool(w.base, k);
    assert Find(gs, Sgs({sg})) == 0 && Without(gs, 0) == [];
    assert w.removals[1].entries[1..] == [];
    var frozen := Freeze(w.removals[1 := Next(w, 1)], w.base, k, Some(Sgs({sg})));
    assert frozen[1].entries == [];
    assert frozen[2].entries == [Entry(Sgs({sg}), Some([p]))];
    assert frozen == FirstDeleted(k, p, sg).removals;
    ReachMove(c, w, Delete(1), FirstDeleted(k, p, sg));
  }

  /** The first is done: `p` is filed under the empty tuple. */
  ghost function FirstDone(k: PoolKey, p: PortId, sg: SgId): World {
    FirstDeleted(k, p, sg).(
      base := One(k, p, {sg}, true).(pools := map[k := [Group(NO_GROUPS, [p])]], neutron := map[p := {}]))
  }

  lemma {:induction false} FirstDrained(c: Config, k: PoolKey, p: PortId, sg: SgId)
    requires c.poolMin >= 1
    ensures Reached(c, FirstDone(k, p, sg).(base := FirstDone(k, p, sg).base.(drains := map[1 := Drain(k, [])])))
  {
    FirstDeletedIsReached(c, k, p, sg);
    var s := FirstDeleted(k, p, sg).base;
    assert [p][1..] == [] && File([], NO_GROUPS, p) == [Group(NO_GROUPS, [p])];
    assert Drained(s, 1, {}) == FirstDone(k, p, sg).base.(drains := map[1 := Drain(k, [])]);
    ReachBase(c, FirstDeleted(k, p, sg), DrainPort(1, {}), Drained(s, 1, {}));
  }

  lemma {:induction false} FirstDoneIsReached(c: Config, k: PoolKey, p: PortId, sg: SgId)
    requires c.poolMin >= 1
    ensures Reached(c, FirstDone(k, p, sg))
  {
    FirstDrained(c, k, p, sg);
    var w := FirstDone(k, p, sg).(base := FirstDone(k, p, sg).base.(drains := map[1 := Drain(k, [])]));
    var gs := [Group(NO_GROUPS, [p])];
    assert Find(gs, NO_GROUPS) == 0 && Without(gs, 0) == [] && MoveToFront(gs, NO_GROUPS) == gs;
    assert DrainDone(w.base, 1, true) == FirstDone(k, p, sg).base;
    ReachBase(c, w, EndDrain(1, true), FirstDone(k, p, sg).base);
  }

  /** A port `q` is made under the same groups. */
  ghost function MadeAnew(k: PoolKey, p: PortId, q: PortId, sg: SgId): World {
    FirstDone(k, p, sg).(base := FirstDone(k, p, sg).base.(
      pools := map[k := [Group(NO_GROUPS, [p]), Group(Sgs({sg}), [q])]], existing := {p, q}, created := {p, q},
      neutron := map[p := {}, q := {sg}]))
  }

  lemma {:induction false} AnewPool(p: PortId, q: PortId, sg: SgId)
    ensures Size([Group(NO_GROUPS, [p])]) == 1
    ensures FileAll([Group(NO_GROUPS, [p])], Sgs({sg}), [q]) == [Group(NO_GROUPS, [p]), Group(Sgs({sg}), [q])]
    ensures MoveToEnd([Group(NO_GROUPS, [p]), Group(Sgs({sg}), [q])], Sgs({sg})) ==
            [Group(NO_GROUPS, [p]), Group(Sgs({sg}), [q])]
    ensures Find([Group(NO_GROUPS, [p]), Group(Sgs({sg}), [q])], Sgs({sg})) == 1
  {
    var gs, one, key := [Group(NO_GROUPS, [p])], [q], Sgs({sg});
    assert sg in key.ids && sg !in NO_GROUPS.ids;
    assert Size(gs[1..]) == 0;
    FileAllLast(gs, key, one);
    assert one[..|one| - 1] == [];
    var both := [Group(NO_GROUPS, [p]), Group(key, [q])];
    assert gs[0].key != key && both[0].key != key && both[1].key == key;
    assert gs + [Group(key, [q])] == both && Without(both, 1) == gs;
  }

  ghost function Making(c: Config, k: PoolKey, p: PortId, sg: SgId): State
    requires c.poolMin >= 2
  {
    FirstDone(k, p, sg).base.(populating := map[0 := Population(k, {sg}, Requested(c, 1))], locks := {k})
  }

  lemma {:induction false} MakingIsReached(c: Config, k: PoolKey, p: PortId, sg: SgId)
    requires c.poolMin >= 2
    ensures Reached(c, FirstDone(k, p, sg).(base := Making(c, k, p, sg)))
  {
    FirstDoneIsReached(c, k, p, sg);
    AnewPool(p, p, sg);
    ReachBase(c, FirstDone(k, p, sg), BeginPopulate(0, k, {sg}), Making(c, k, p, sg));
  }

  lemma {:induction false} MadeAnewIsReached(c: Config, k: PoolKey, p: PortId, q: PortId, sg: SgId)
    requires c.poolMin >= 2 && p != q
    ensures Reached(c, MadeAnew(k, p, q, sg))
  {
    MakingIsReached(c, k, p, sg);
    AnewState(c, k, p, q, sg, Making(c, k, p, sg));
    ReachBase(c, FirstDone(k, p, sg).(base := Making(c, k, p, sg)), EndPopulate(0, [q], {}),
              MadeAnew(k, p, q, sg).base);
  }

  lemma {:induction false} AnewState(c: Config, k: PoolKey, p: PortId, q: PortId, sg: SgId, s: State)
    requires c.poolMin >= 2 && p != q
    requires s == Making(c, k, p, sg)
    ensures Populated(s, 0, [q], {}) == MadeAnew(k, p, q, sg).base
  {
    AnewPool(p, q, sg);
    var one := [q];
    assert (set x | x in one) == {q} && (map x | x in one :: {sg}) == map[q := {sg}];
    assert {p} + {q} == {p, q} && map[p := {}] + map[q := {sg}] == map[p := {}, q := {sg}];
  }

  /** The second removal deletes the new group, loses `q`, and files `p` a second time. */
  ghost function FiledTwice(k: PoolKey, p: PortId, q: PortId, sg: SgId): State {
    MadeAnew(k, p, q, sg).base.(pools := map[k := [Group(NO_GROUPS, [p, p])]], drains := map[2 := Drain(k, [])])
  }

  lemma {:induction false} PortIsFiledTwice(c: Config, k: PoolKey, p: PortId, q: PortId, sg: SgId) returns (w: World)
    requires c.poolMin >= 2 && p != q
    ensures Reached(c, w) && Bag(Pool(w.base, k))[p] == 2 && !Ownership(w.base)
    ensures q in w.base.existing && forall a :: !At(w.base, a, q)
  {
    MadeAnewIsReached(c, k, p, q, sg);
    var w2 := SecondDeletes(c, k, p, q, sg);
    SecondDrains(k, p, q, sg, w2.base);
    ReachBase(c, w2, DrainPort(2, {}), FiledTwice(k, p, q, sg));
    w := w2.(base := FiledTwice(k, p, q, sg));
    TwoOfOne(k, p, q, sg);
  }

  lemma {:induction false} SecondDrains(k: PoolKey, p: PortId, q: PortId, sg: SgId, s: State)
    requires p != q
    requires s == MadeAnew(k, p, q, sg).base.(
               pools := map[k := [Group(NO_GROUPS, [p])]], drains := map[2 := Drain(k, [p])])
    ensures Drained(s, 2, {}) == FiledTwice(k, p, q, sg)
  {
    var gs := [Group(NO_GROUPS, [p])];
    assert Find(gs, NO_GROUPS) == 0 && gs[0].ports + [p] == [p, p];
    assert File(gs, NO_GROUPS, p) == [Group(NO_GROUPS, [p, p])];
    assert s.drains[2].ports[1..] == [];
    assert s.neutron[p := {}] == s.neutron;
  }

  lemma {:induction false} TwoOfOne(k: PoolKey, p: PortId, q: PortId, sg: SgId)
    requires p != q
    ensures var s := FiledTwice(k, p, q, sg);
            Bag(Pool(s, k))[p] == 2 && !Ownership(s) && q in s.existing && forall a :: !At(s, a, q)
  {
    var s := FiledTwice(k, p, q, sg);
    TwiceInBag(p);
    assert forall x :: Pool(s, x) == if x == k then [Group(NO_GROUPS, [p, p])] else [];
  }

  lemma {:induction false} TwiceInBag(p: PortId)
    ensures Bag([Group(NO_GROUPS, [p, p])]) == multiset{p, p} && Bag([]) == multiset{}
  {
    var gs := [Group(NO_GROUPS, [p, p])];
    assert gs[1..] == [] && Bag(gs) == multiset(gs[0].ports) + Bag(gs[1..]);
  }

  lemma {:induction false} SecondDeletes(c: Config, k: PoolKey, p: PortId, q: PortId, sg: SgId) returns (w: World)
    requires c.poolMin >= 2 && p != q && Reached(c, MadeAnew(k, p, q, sg))
    ensures Reached(c, w)
    ensures w.base == MadeAnew(k, p, q, sg).base.(
              pools := map[k := [Group(NO_GROUPS, [p])]], drains := map[2 := Drain(k, [p])])
  {
    var w1 := MadeAnew(k, p, q, sg);
    AnewPool(p, q, sg);
    assert Without(Pool(w1.base, k), 1) == [Group(NO_GROUPS, [p])];
    w := MoveTo(c, w1, Delete(2));
    ReachMove(c, w1, Delete(2), w);
  }
}
