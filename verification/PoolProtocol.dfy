/** The port pool as a state machine. A step is one stretch of code between two I/O
    calls, the only places where the green threads of the controller switch, so a run
    interleaves any number of requests, populations, releases, security-group removals
    and pool deletions with a return pass. */
module PoolProtocol {
  import opened PortIndex

  /** `poolMax == 0` disables the limit; `debug` is the `port_debug` option. */
  datatype Config = Config(poolMax: nat, poolMin: nat, batch: nat, debug: bool)

  /** A request that has popped `port`; `ready` once no group update is outstanding. */
  datatype Request = Request(port: PortId, want: set<SgId>, ready: bool)

  datatype Population = Population(pool: PoolKey, want: set<SgId>, count: nat)

  /** One `remove_sg_from_pools` working through the ports of a group it has deleted. */
  datatype Drain = Drain(pool: PoolKey, ports: seq<PortId>)

  /** I/O under way on the first item of a return pass. */
  datatype Stage = Ready | Renaming | Deleting

  /** `Listing` waits for Neutron's list of ports: `answer` is a part of it that Neutron has given and
      that is not yet read. */
  datatype Pass =
    | NoPass
    | Listing(answer: map<PortId, set<SgId>>, sgCurrent: map<PortId, set<SgId>>)
    | Passing(items: seq<(PortId, PoolKey)>, sgCurrent: map<PortId, set<SgId>>, stage: Stage)

  datatype State = State(
    pools: map<PoolKey, Groups>,
    existing: set<PortId>,
    recyclable: map<PortId, PoolKey>,
    held: set<PortId>,                    // ports returned to a pod and not yet released
    neutron: map<PortId, set<SgId>>,      // security groups of every port Neutron has
    requests: map<nat, Request>,
    populating: map<nat, Population>,
    locks: set<PoolKey>,
    drains: map<nat, Drain>,
    pass: Pass,
    created: set<PortId>,                 // every id the driver has handed out
    doomed: set<PortId>                   // ids a pool deletion has collected
  )

  datatype Step =
    | Pop(t: nat, k: PoolKey, want: set<SgId>)
    | Repair(t: nat)
    | Abort(t: nat)
    | Finish(t: nat)
    | BeginPopulate(t: nat, k: PoolKey, want: set<SgId>)
    | EndPopulate(t: nat, ports: seq<PortId>, defaults: set<SgId>)
    | Release(p: PortId, k: PoolKey)
    | UpdateHeld(p: PortId, sgs: set<SgId>)
    | BeginListing
    | Answer(page: map<PortId, set<SgId>>)
    | ReadPage
    | BeginPass(items: seq<(PortId, PoolKey)>)
    | FileItem
    | RenameItem
    | RenamedItem(ok: bool)
    | DropItem
    | DroppedItem(ok: bool)
    | EndPass
    | BeginDrain(t: nat, k: PoolKey, sg: SgId, i: nat)
    | DrainPort(t: nat, sgs: set<SgId>)
    | EndDrain(t: nat, ok: bool)
    | Collect(k: PoolKey)
    | DeleteDoomed(p: PortId)
    | ForgetPool(k: PoolKey)
    | Elsewhere                           // code that leaves the driver as it is

  function Pool(s: State, k: PoolKey): Groups {
    PoolOf(s.pools, k)
  }

  /** Whether the return pass may put another port into a pool. */
  predicate HasRoom(c: Config, s: State, k: PoolKey) {
    c.poolMax == 0 || Size(Pool(s, k)) < c.poolMax
  }

  function Requested(c: Config, size: nat): nat
    requires size < c.poolMin
  {
    if c.batch > c.poolMin - size then c.batch else c.poolMin - size
  }

  ghost predicate Distinct(ports: seq<PortId>) {
    forall i, j :: 0 <= i < j < |ports| ==> ports[i] != ports[j]
  }

  ghost predicate PassAt(s: State, stage: Stage) {
    s.pass.Passing? && s.pass.stage == stage && s.pass.items != []
  }

  // ---- steps: of a return pass, of a security-group removal, of a request, of a pool ----

  predicate IsListing(step: Step) {
    step.BeginListing? || step.Answer? || step.ReadPage?
  }

  predicate OfPass(step: Step) {
    || IsListing(step) || step.BeginPass? || step.FileItem? || step.RenameItem? || step.RenamedItem? || step.DropItem?
    || step.DroppedItem? || step.EndPass?
  }

  predicate OfDrain(step: Step) {
    step.BeginDrain? || step.DrainPort? || step.EndDrain?
  }

  predicate OfRequest(step: Step) {
    step.Pop? || step.Repair? || step.Abort? || step.Finish? || step.Release? || step.UpdateHeld?
  }

  predicate OfPool(step: Step) {
    step.BeginPopulate? || step.EndPopulate? || step.Collect? || step.DeleteDoomed? || step.ForgetPool? ||
      step.Elsewhere?
  }

  ghost predicate Enabled(c: Config, s: State, step: Step) {
    if OfPass(step) then PassEnabled(c, s, step)
    else if OfDrain(step) then DrainEnabled(s, step)
    else if OfRequest(step) then RequestEnabled(s, step)
    else PoolEnabled(c, s, step)
  }

  ghost predicate PassEnabled(c: Config, s: State, step: Step)
    requires OfPass(step)
  {
    match step
    case BeginListing => s.pass.NoPass?
    case Answer(page) =>
      s.pass.Listing? && !c.debug && forall p :: p in page ==> p in s.neutron && s.neutron[p] == page[p]
    case ReadPage => s.pass.Listing?
    case BeginPass(items) =>
      s.pass.Listing? &&
      (forall i :: 0 <= i < |items| ==> items[i].0 in s.recyclable && s.recyclable[items[i].0] == items[i].1) &&
      (forall i, j :: 0 <= i < j < |items| ==> items[i].0 != items[j].0)
    case FileItem => PassAt(s, Ready) && !c.debug && HasRoom(c, s, s.pass.items[0].1)
    case RenameItem => PassAt(s, Ready) && c.debug && HasRoom(c, s, s.pass.items[0].1)
    case RenamedItem(ok) => PassAt(s, Renaming) && (ok ==> s.pass.items[0].0 in s.neutron)
    case DropItem => PassAt(s, Ready) && !HasRoom(c, s, s.pass.items[0].1)
    case DroppedItem(ok) => PassAt(s, Deleting)
    case EndPass => s.pass.Passing? && s.pass.items == []
  }

  ghost predicate DrainEnabled(s: State, step: Step)
    requires OfDrain(step)
  {
    match step
    case BeginDrain(t, k, sg, i) =>
      t !in s.drains && i < |Pool(s, k)| && Pool(s, k)[i].key.Sgs? && sg in Pool(s, k)[i].key.ids
    case DrainPort(t, sgs) => t in s.drains && s.drains[t].ports != [] && s.drains[t].ports[0] in s.neutron
    case EndDrain(t, ok) => t in s.drains && (ok ==> s.drains[t].ports == [])
  }

  ghost predicate RequestEnabled(s: State, step: Step)
    requires OfRequest(step)
  {
    match step
    case Pop(t, k, want) => t !in s.requests && Choose(Pool(s, k), want) < |Pool(s, k)|
    case Repair(t) => t in s.requests && !s.requests[t].ready && s.requests[t].port in s.neutron
    case Abort(t) => t in s.requests
    case Finish(t) => t in s.requests && s.requests[t].ready
    case Release(p, k) => p in s.held
    case UpdateHeld(p, sgs) => p in s.held
  }

  ghost predicate PoolEnabled(c: Config, s: State, step: Step)
    requires OfPool(step)
  {
    match step
    case BeginPopulate(t, k, want) =>
      t !in s.populating && k !in s.locks && Size(Pool(s, k)) < c.poolMin
    case EndPopulate(t, ports, defaults) =>
      t in s.populating && |ports| <= s.populating[t].count && Distinct(ports) &&
      forall p :: p in ports ==> p !in s.created
    case Collect(k) => true
    case DeleteDoomed(p) => p in s.doomed
    case ForgetPool(k) => true
    case Elsewhere => true
  }

  function FileFirst(s: State): State
    requires s.pass.Passing? && s.pass.items != []
  {
    var (p, k) := s.pass.items[0];
    var key := KeyOf(s.pass.sgCurrent, p);
    s.(pools := s.pools[k := MoveToEnd(File(Pool(s, k), key, p), key)],
       recyclable := s.recyclable - {p},
       pass := s.pass.(items := s.pass.items[1..], stage := Ready))
  }

  function Popped(s: State, t: nat, k: PoolKey, want: set<SgId>): State
    requires Choose(Pool(s, k), want) < |Pool(s, k)|
  {
    var gs := Pool(s, k);
    var i := Choose(gs, want);
    var p := gs[i].ports[|gs[i].ports| - 1];
    s.(pools := s.pools[k := PopAt(gs, i)],
       requests := s.requests[t := Request(p, want, gs[i].key == Sgs(want))])
  }

  function Populated(s: State, t: nat, ports: seq<PortId>, defaults: set<SgId>): State
    requires t in s.populating
  {
    var j := s.populating[t];
    var groups := if j.want == {} then defaults else j.want;
    var filed := FileAll(Pool(s, j.pool), Sgs(j.want), ports);
    s.(pools := s.pools[j.pool := if ports == [] then filed else MoveToEnd(filed, Sgs(j.want))],
       existing := s.existing + (set p | p in ports),
       neutron := s.neutron + (map p | p in ports :: groups),
       created := s.created + (set p | p in ports),
       populating := s.populating - {t},
       locks := s.locks - {j.pool})
  }

  /** A removal has cleared its next port in Neutron and files it under the empty tuple. */
  function Drained(s: State, t: nat, sgs: set<SgId>): State
    requires t in s.drains && s.drains[t].ports != []
  {
    var d := s.drains[t];
    s.(neutron := s.neutron[d.ports[0] := sgs],
       pools := s.pools[d.pool := File(Pool(s, d.pool), NO_GROUPS, d.ports[0])],
       drains := s.drains[t := d.(ports := d.ports[1..])])
  }

  function DrainDone(s: State, t: nat, ok: bool): State
    requires t in s.drains
  {
    var k := s.drains[t].pool;
    s.(pools := if ok then s.pools[k := MoveToFront(Pool(s, k), NO_GROUPS)] else s.pools, drains := s.drains - {t})
  }

  function Dropping(s: State): State
    requires s.pass.Passing? && s.pass.items != []
  {
    var p := s.pass.items[0].0;
    var known := p in s.existing;
    s.(existing := s.existing - {p},
       recyclable := if known then s.recyclable else s.recyclable - {p},
       pass := if known then s.pass.(stage := Deleting) else s.pass.(items := s.pass.items[1..]))
  }

  function DroppedFirst(s: State, ok: bool): State
    requires s.pass.Passing? && s.pass.items != []
  {
    var p := s.pass.items[0].0;
    s.(neutron := if ok then s.neutron - {p} else s.neutron,
       recyclable := if ok then s.recyclable - {p} else s.recyclable,
       pass := if ok then s.pass.(items := s.pass.items[1..], stage := Ready) else NoPass)
  }

  ghost function Collected(s: State, k: PoolKey): State {
    var ids := set p | p in Bag(Pool(s, k));
    s.(existing := s.existing - ids, doomed := s.doomed + ids)
  }

  ghost function Apply(c: Config, s: State, step: Step): State
    requires Enabled(c, s, step)
  {
    if OfPass(step) then AfterPass(c, s, step)
    else if OfDrain(step) then AfterDrain(s, step)
    else if OfRequest(step) then AfterRequest(s, step)
    else AfterPool(c, s, step)
  }

  ghost function AfterPass(c: Config, s: State, step: Step): State
    requires OfPass(step) && PassEnabled(c, s, step)
  {
    match step
    case BeginListing =>
      s.(pass := Listing(map[], map[]))
    case Answer(page) =>
      s.(pass := s.pass.(answer := page))
    case ReadPage =>
      s.(pass := Listing(map[], s.pass.sgCurrent + map p | p in s.pass.answer && p in s.recyclable :: s.pass.answer[p]))
    case BeginPass(items) =>
      s.(pass := Passing(items, s.pass.sgCurrent, Ready))
    case FileItem => FileFirst(s)
    case RenameItem =>
      s.(pass := s.pass.(stage := Renaming))
    case RenamedItem(ok) =>
      if ok then FileFirst(s) else s.(pass := s.pass.(items := s.pass.items[1..], stage := Ready))
    case DropItem => Dropping(s)
    case DroppedItem(ok) => DroppedFirst(s, ok)
    case EndPass =>
      s.(pass := NoPass)
  }

  function AfterDrain(s: State, step: Step): State
    requires OfDrain(step) && DrainEnabled(s, step)
  {
    match step
    case BeginDrain(t, k, sg, i) =>
      s.(pools := s.pools[k := Without(Pool(s, k), i)], drains := s.drains[t := Drain(k, Pool(s, k)[i].ports)])
    case DrainPort(t, sgs) => Drained(s, t, sgs)
    case EndDrain(t, ok) => DrainDone(s, t, ok)
  }

  function AfterRequest(s: State, step: Step): State
    requires OfRequest(step) && RequestEnabled(s, step)
  {
    match step
    case Pop(t, k, want) => Popped(s, t, k, want)
    case Repair(t) =>
      s.(neutron := s.neutron[s.requests[t].port := s.requests[t].want],
         requests := s.requests[t := s.requests[t].(ready := true)])
    case Abort(t) =>
      s.(requests := s.requests - {t})
    case Finish(t) =>
      var p := s.requests[t].port;
      s.(requests := s.requests - {t}, held := if p in s.existing then s.held + {p} else s.held)
    case Release(p, k) =>
      s.(held := s.held - {p}, existing := s.existing + {p}, recyclable := s.recyclable[p := k])
    case UpdateHeld(p, sgs) =>
      s.(neutron := s.neutron[p := sgs])
  }

  ghost function AfterPool(c: Config, s: State, step: Step): State
    requires OfPool(step) && PoolEnabled(c, s, step)
  {
    match step
    case BeginPopulate(t, k, want) =>
      s.(populating := s.populating[t := Population(k, want, Requested(c, Size(Pool(s, k))))],
         locks := s.locks + {k})
    case EndPopulate(t, ports, defaults) => Populated(s, t, ports, defaults)
    case Collect(k) => Collected(s, k)
    case DeleteDoomed(p) =>
      s.(neutron := s.neutron - {p})
    case ForgetPool(k) =>
      s.(pools := s.pools - {k}, locks := s.locks - {k})
    case Elsewhere => s
  }

  // ---- ownership ----

  datatype Place = InPool(k: PoolKey) | Recycled | WithPod | WithRequest(t: nat) | InDrain(t: nat)

  ghost predicate At(s: State, a: Place, p: PortId) {
    match a
    case InPool(k) => p in Bag(Pool(s, k))
    case Recycled => p in s.recyclable
    case WithPod => p in s.held
    case WithRequest(t) => t in s.requests && s.requests[t].port == p
    case InDrain(t) => t in s.drains && p in s.drains[t].ports
  }

  /** No port is in two places. */
  ghost predicate UniquePlace(s: State) {
    forall a, b, p :: At(s, a, p) && At(s, b, p) ==> a == b
  }

  /** No port is twice in one place. */
  ghost predicate NoRepeats(s: State) {
    && (forall k, p :: Bag(Pool(s, k))[p] <= 1)
    && (forall t :: t in s.drains ==> Distinct(s.drains[t].ports))
  }

  ghost predicate SingleOwner(s: State) {
    UniquePlace(s) && NoRepeats(s)
  }

  /** Indexes are well formed and every owned port came from the driver. */
  ghost predicate Tidy(s: State) {
    && (forall k :: DistinctKeys(Pool(s, k)))
    && (forall a, p :: At(s, a, p) ==> p in s.created)
  }

  /** A return pass works through distinct ports that are still recyclable. */
  ghost predicate PassTidy(s: State) {
    && (s.pass.Listing? ==> forall p :: p in s.pass.sgCurrent ==> p in s.recyclable)
    && (s.pass.Passing? ==>
          && (forall i, j :: 0 <= i < j < |s.pass.items| ==> s.pass.items[i].0 != s.pass.items[j].0)
          && (forall i :: 0 <= i < |s.pass.items| ==> s.pass.items[i].0 in s.recyclable))
  }

  ghost predicate Ownership(s: State) {
    SingleOwner(s) && Tidy(s)
  }

  /** `s'` differs in ownership only in that `p` is now nowhere but at `to`. */
  ghost predicate Moved(s: State, s': State, p: PortId, to: Place) {
    forall a, q :: At(s', a, q) ==> (if q == p then a == to else At(s, a, q))
  }

  /** `s'` has no ownership that `s` has not. */
  ghost predicate Shrunk(s: State, s': State) {
    forall a, q :: At(s', a, q) ==> At(s, a, q)
  }

  /** Replacing the index of one pool keeps the other pools as they are. */
  lemma {:induction false} OnePoolChanged(s: State, s': State, k: PoolKey, gs: Groups)
    requires SingleOwner(s) && Tidy(s) && s'.pools == s.pools[k := gs]
    requires DistinctKeys(gs) && forall p :: Bag(gs)[p] <= 1
    requires forall t :: t in s'.drains ==> Distinct(s'.drains[t].ports)
    ensures Pool(s', k) == gs && forall k' :: k' != k ==> Pool(s', k') == Pool(s, k')
    ensures NoRepeats(s') && forall k' :: DistinctKeys(Pool(s', k'))
  {
    assert forall k' :: k' != k ==> Pool(s', k') == Pool(s, k');
    forall k', p ensures Bag(Pool(s', k'))[p] <= 1 { }
    forall k' ensures DistinctKeys(Pool(s', k')) { }
  }

  /** A state reached by moving one port, or by dropping ports, still has single owners. */
  lemma {:induction false} MoveKeepsOwners(s: State, s': State, p: PortId, to: Place)
    requires UniquePlace(s) && Moved(s, s', p, to)
    ensures UniquePlace(s')
  { }

  /** A port leaves pool `k`, which becomes `gs`, for request `t`. */
  lemma {:induction false} OutOfPool(s: State, s': State, t: nat, k: PoolKey, gs: Groups, r: Request)
    requires Ownership(s) && DistinctKeys(gs) && Bag(gs) + multiset{r.port} == Bag(Pool(s, k)) && t !in s.requests
    requires s' == s.(pools := s.pools[k := gs], requests := s.requests[t := r])
    ensures Ownership(s')
  {
    assert Bag(Pool(s, k))[r.port] <= 1 && At(s, InPool(k), r.port);
    forall q ensures Bag(gs)[q] <= 1 { assert Bag(Pool(s, k))[q] <= 1; }
    OnePoolChanged(s, s', k, gs);
    forall a, q | At(s', a, q) ensures if q == r.port then a == WithRequest(t) else At(s, a, q) {
      if a != WithRequest(t) { assert At(s, a, q); }
    }
    MoveKeepsOwners(s, s', r.port, WithRequest(t));
  }

  lemma {:induction false} PopOwnership(c: Config, s: State, t: nat, k: PoolKey, want: set<SgId>)
    requires Ownership(s) && Enabled(c, s, Pop(t, k, want))
    ensures Ownership(Apply(c, s, Pop(t, k, want)))
  {
    var gs := Pool(s, k);
    PopFacts(gs, Choose(gs, want));
    var s' := Popped(s, t, k, want);
    OutOfPool(s, s', t, k, PopAt(gs, Choose(gs, want)), s'.requests[t]);
  }

  lemma {:induction false} PopulatedOnce(s: State, k: PoolKey, gs: Groups, ports: seq<PortId>)
    requires Ownership(s) && Distinct(ports) && (forall q :: q in ports ==> !At(s, InPool(k), q))
    requires Bag(gs) == Bag(Pool(s, k)) + multiset(ports)
    ensures forall q :: Bag(gs)[q] <= 1
  {
    DistinctIsOnce(ports);
    forall q ensures Bag(gs)[q] <= 1 {
      assert Bag(Pool(s, k))[q] <= 1;
      if q in ports { assert !At(s, InPool(k), q); }
    }
  }

  lemma {:induction false} PopulatePlaces(s: State, s': State, k: PoolKey, ports: seq<PortId>)
    requires Ownership(s) && forall p :: p in ports ==> p !in s.created
    requires Bag(Pool(s', k)) == Bag(Pool(s, k)) + multiset(ports) &&
             forall k' :: k' != k ==> Pool(s', k') == Pool(s, k')
    requires s'.recyclable == s.recyclable && s'.held == s.held && s'.requests == s.requests && s'.drains == s.drains
    ensures forall a, q :: At(s', a, q) ==> if q in ports then a == InPool(k) else At(s, a, q)
  {
    forall a, q | At(s', a, q) ensures if q in ports then a == InPool(k) else At(s, a, q) {
      if q !in ports { assert At(s, a, q); }
      if a != InPool(k) { assert At(s, a, q); }
    }
  }

  lemma {:induction false} PopulateOwnership(c: Config, s: State, t: nat, ports: seq<PortId>, defaults: set<SgId>)
    requires Ownership(s) && Enabled(c, s, EndPopulate(t, ports, defaults))
    ensures Ownership(Apply(c, s, EndPopulate(t, ports, defaults)))
  {
    var s', k := Populated(s, t, ports, defaults), s.populating[t].pool;
    PopulatedPool(s, t, ports, defaults);
    IntoPoolAnew(s, s', k, s'.pools[k], ports);
  }

  lemma {:induction false} PopulatedPool(s: State, t: nat, ports: seq<PortId>, defaults: set<SgId>)
    requires t in s.populating && DistinctKeys(Pool(s, s.populating[t].pool))
    ensures var s', k := Populated(s, t, ports, defaults), s.populating[t].pool;
            && s'.pools == s.pools[k := s'.pools[k]] && DistinctKeys(s'.pools[k])
            && Bag(s'.pools[k]) == Bag(Pool(s, k)) + multiset(ports)
  {
    var k, key := s.populating[t].pool, Sgs(s.populating[t].want);
    FileAllFacts(Pool(s, k), key, ports);
    MoveFacts(FileAll(Pool(s, k), key, ports), key);
  }

  /** New ports are put into pool `k`. */
  lemma {:induction false} IntoPoolAnew(s: State, s': State, k: PoolKey, gs: Groups, ports: seq<PortId>)
    requires Ownership(s) && Distinct(ports) && (forall p :: p in ports ==> p !in s.created)
    requires DistinctKeys(gs) && Bag(gs) == Bag(Pool(s, k)) + multiset(ports) && s'.pools == s.pools[k := gs]
    requires s'.recyclable == s.recyclable && s'.held == s.held && s'.requests == s.requests && s'.drains == s.drains
    requires s'.created == s.created + (set p | p in ports)
    ensures Ownership(s')
  {
    forall q | q in ports ensures !At(s, InPool(k), q) { }
    PopulatedOnce(s, k, gs, ports);
    OnePoolChanged(s, s', k, gs);
    PopulatePlaces(s, s', k, ports);
  }

  lemma {:induction false} DistinctIsOnce(ports: seq<PortId>)
    requires Distinct(ports)
    ensures forall q :: multiset(ports)[q] == if q in ports then 1 else 0
  {
    if ports != [] {
      var most, last := ports[..|ports| - 1], ports[|ports| - 1];
      DistinctIsOnce(most);
      assert ports == most + [last];
      assert last !in most;
    }
  }

  lemma {:induction false} FiledOnce(s: State, k: PoolKey, gs: Groups, p: PortId)
    requires NoRepeats(s) && p !in Bag(Pool(s, k)) && Bag(gs) == Bag(Pool(s, k)) + multiset{p}
    ensures forall q :: Bag(gs)[q] <= 1
  {
    forall q ensures Bag(gs)[q] <= 1 { assert Bag(Pool(s, k))[q] <= 1; }
  }

  /** A port that leaves the recyclable list or a drain for a pool. */
  lemma {:induction false} IntoPool(s: State, s': State, p: PortId, k: PoolKey, gs: Groups, from: Place)
    requires Ownership(s) && At(s, from, p) && !from.InPool?
    requires DistinctKeys(gs) && Bag(gs) == Bag(Pool(s, k)) + multiset{p} && s'.pools == s.pools[k := gs]
    requires (forall q :: q in s'.recyclable ==> q in s.recyclable) && s'.held == s.held && s'.requests == s.requests
    requires forall t :: t in s'.drains ==> Distinct(s'.drains[t].ports)
    requires forall t, q :: At(s', InDrain(t), q) ==> At(s, InDrain(t), q)
    requires !At(s', from, p) && s'.created == s.created
    ensures Ownership(s')
  {
    assert !At(s, InPool(k), p);
    FiledOnce(s, k, gs, p);
    OnePoolChanged(s, s', k, gs);
    forall a, q | At(s', a, q) ensures if q == p then a == InPool(k) else At(s, a, q) {
      match a
      case InPool(k') => if k' != k { assert At(s, a, q); }
      case Recycled => assert At(s, a, q);
      case WithPod => assert At(s, a, q);
      case WithRequest(t) => assert At(s, a, q);
      case InDrain(_) => assert At(s, a, q);
    }
    MoveKeepsOwners(s, s', p, InPool(k));
  }

  lemma {:induction false} FileOwnership(s: State)
    requires Ownership(s) && PassTidy(s) && s.pass.Passing? && s.pass.items != []
    ensures Ownership(FileFirst(s))
  {
    var s' := FileFirst(s);
    var (p, k) := s.pass.items[0];
    var key := KeyOf(s.pass.sgCurrent, p);
    FileFacts(Pool(s, k), key, p);
    MoveFacts(File(Pool(s, k), key, p), key);
    IntoPool(s, s', p, k, s'.pools[k], Recycled);
  }

  lemma {:induction false} BeginDrainOwnership(c: Config, s: State, t: nat, k: PoolKey, sg: SgId, i: nat)
    requires Ownership(s) && Enabled(c, s, BeginDrain(t, k, sg, i))
    ensures Ownership(Apply(c, s, BeginDrain(t, k, sg, i)))
  {
    var gs := Pool(s, k);
    WithoutFacts(gs, i);
    IntoDrain(s, Apply(c, s, BeginDrain(t, k, sg, i)), t, k, Without(gs, i), gs[i].ports);
  }

  /** The ports `ports` leave pool `k`, which becomes `gs`, for removal `t`. */
  lemma {:induction false} IntoDrain(s: State, s': State, t: nat, k: PoolKey, gs: Groups, ports: seq<PortId>)
    requires Ownership(s) && DistinctKeys(gs) && Bag(gs) + multiset(ports) == Bag(Pool(s, k)) && t !in s.drains
    requires s' == s.(pools := s.pools[k := gs], drains := s.drains[t := Drain(k, ports)])
    ensures Ownership(s')
  {
    forall q ensures Bag(gs)[q] + multiset(ports)[q] <= 1 { assert Bag(Pool(s, k))[q] <= 1; }
    OnceIsDistinct(ports);
    OnePoolChanged(s, s', k, gs);
    forall a, q | At(s', a, q)
      ensures if q in ports then a == InDrain(t) else At(s, a, q)
    {
      if a == InDrain(t) { assert q in multiset(ports); }
      if q in ports { assert q in multiset(ports) && At(s, InPool(k), q); }
      if a != InDrain(t) { assert At(s, a, q); }
    }
    forall a, q | At(s', a, q) ensures q in s.created {
      if q in ports { assert q in multiset(ports) && At(s, InPool(k), q); } else { assert At(s, a, q); }
    }
  }

  lemma {:induction false} OnceIsDistinct(ports: seq<PortId>)
    requires forall q :: multiset(ports)[q] <= 1
    ensures Distinct(ports)
  {
    forall i, j | 0 <= i < j < |ports| ensures ports[i] != ports[j] {
      var a, b := ports[..j], ports[j..];
      assert ports == a + b && a[i] == ports[i] && b[0] == ports[j];
      assert ports[i] in multiset(a) && ports[j] in multiset(b);
      assert multiset(ports) == multiset(a) + multiset(b);
      assert multiset(ports)[ports[i]] == multiset(a)[ports[i]] + multiset(b)[ports[i]];
    }
  }

  lemma {:induction false} DrainOwnership(c: Config, s: State, t: nat, sgs: set<SgId>)
    requires Ownership(s) && Enabled(c, s, DrainPort(t, sgs))
    ensures Ownership(Apply(c, s, DrainPort(t, sgs)))
  {
    var s' := Apply(c, s, DrainPort(t, sgs));
    var k, p := s.drains[t].pool, s.drains[t].ports[0];
    FileFacts(Pool(s, k), NO_GROUPS, p);
    IntoPool(s, s', p, k, s'.pools[k], InDrain(t));
  }

  lemma {:induction false} EndDrainPools(c: Config, s: State, t: nat, ok: bool)
    requires Enabled(c, s, EndDrain(t, ok)) && DistinctKeys(Pool(s, s.drains[t].pool))
    ensures var s' := Apply(c, s, EndDrain(t, ok));
            forall k :: Pool(s', k) == Pool(s, k) || (DistinctKeys(Pool(s', k)) && Bag(Pool(s', k)) == Bag(Pool(s, k)))
  {
    var s' := Apply(c, s, EndDrain(t, ok));
    MoveFacts(Pool(s, s.drains[t].pool), NO_GROUPS);
    forall k | k != s.drains[t].pool ensures Pool(s', k) == Pool(s, k) { }
  }

  lemma {:induction false} EndDrainOwnership(c: Config, s: State, t: nat, ok: bool)
    requires Ownership(s) && Enabled(c, s, EndDrain(t, ok))
    ensures Ownership(Apply(c, s, EndDrain(t, ok)))
  {
    EndDrainPools(c, s, t, ok);
    assert Shrunk(s, Apply(c, s, EndDrain(t, ok)));
  }

  /** No place holds more than before, and pools are as they were or empty. */
  ghost predicate Shrinks(s: State, s': State) {
    && s'.drains == s.drains && s'.created == s.created
    && (forall k :: Pool(s', k) == Pool(s, k) || Pool(s', k) == [])
    && (forall p :: p in s'.recyclable ==> p in s.recyclable) && s'.held <= s.held
    && forall t :: t in s'.requests ==> t in s.requests && s'.requests[t].port == s.requests[t].port
  }

  lemma {:induction false} ShrinkKeepsOwnership(s: State, s': State)
    requires Ownership(s) && Shrinks(s, s')
    ensures Ownership(s')
  {
    forall k, p ensures Bag(Pool(s', k))[p] <= 1 { assert Bag(Pool(s, k))[p] <= 1; }
    forall a, q | At(s', a, q) ensures At(s, a, q) {
      match a
      case InPool(k') => assert Pool(s', k') == Pool(s, k');
      case _ =>
    }
  }

  lemma {:induction false} FinishOwnership(c: Config, s: State, t: nat)
    requires Ownership(s) && Enabled(c, s, Finish(t))
    ensures Ownership(Apply(c, s, Finish(t)))
  {
    var s', p := Apply(c, s, Finish(t)), s.requests[t].port;
    assert forall k :: Pool(s', k) == Pool(s, k);
    assert At(s, WithRequest(t), p);
    forall a, q | At(s', a, q) ensures if q == p then a == WithPod else At(s, a, q) {
      if a != WithPod { assert At(s, a, q); }
    }
    MoveKeepsOwners(s, s', p, WithPod);
  }

  lemma {:induction false} ReleaseOwnership(c: Config, s: State, p: PortId, k: PoolKey)
    requires Ownership(s) && Enabled(c, s, Release(p, k))
    ensures Ownership(Apply(c, s, Release(p, k)))
  {
    var s' := Apply(c, s, Release(p, k));
    assert forall k :: Pool(s', k) == Pool(s, k);
    assert At(s, WithPod, p);
    forall a, q | At(s', a, q) ensures if q == p then a == Recycled else At(s, a, q) {
      if a != Recycled { assert At(s, a, q); }
    }
    MoveKeepsOwners(s, s', p, Recycled);
  }

  predicate IsQuiet(step: Step) {
    || step.Repair? || step.Abort? || step.BeginPopulate? || step.UpdateHeld? || IsListing(step)
    || step.BeginPass? || step.RenameItem?
    || step.DropItem? || step.DroppedItem? || step.EndPass? || step.Collect? || step.DeleteDoomed? || step.ForgetPool?
  }

  predicate ChangesRequests(step: Step) {
    step.Repair? || step.Abort? || step.BeginPopulate? || step.UpdateHeld?
  }

  lemma {:induction false} RequestsShrink(c: Config, s: State, step: Step)
    requires Enabled(c, s, step) && ChangesRequests(step)
    ensures Shrinks(s, Apply(c, s, step))
  { }

  lemma {:induction false} PoolsForgotten(c: Config, s: State, step: Step)
    requires Enabled(c, s, step) && (step.Collect? || step.DeleteDoomed? || step.ForgetPool?)
    ensures Shrinks(s, Apply(c, s, step))
  { }

  lemma {:induction false} PassShrinks(c: Config, s: State, step: Step)
    requires Enabled(c, s, step) && (IsListing(step) || step.BeginPass? || step.RenameItem? || step.EndPass?)
    ensures Shrinks(s, Apply(c, s, step))
  { }

  lemma {:induction false} DropShrinks(c: Config, s: State, step: Step)
    requires Enabled(c, s, step) && (step.DropItem? || step.DroppedItem?)
    ensures Shrinks(s, Apply(c, s, step))
  { }

  lemma {:induction false} QuietShrinks(c: Config, s: State, step: Step)
    requires Enabled(c, s, step) && IsQuiet(step)
    ensures Shrinks(s, Apply(c, s, step))
  {
    if ChangesRequests(step) {
      RequestsShrink(c, s, step);
    } else if step.Collect? || step.DeleteDoomed? || step.ForgetPool? {
      PoolsForgotten(c, s, step);
    } else if step.DropItem? || step.DroppedItem? {
      DropShrinks(c, s, step);
    } else {
      PassShrinks(c, s, step);
    }
  }

  lemma {:induction false} QuietOwnership(c: Config, s: State, step: Step)
    requires Ownership(s) && Enabled(c, s, step) && IsQuiet(step)
    ensures Ownership(Apply(c, s, step))
  {
    QuietShrinks(c, s, step);
    ShrinkKeepsOwnership(s, Apply(c, s, step));
  }

  lemma {:induction false} PassOwnership(c: Config, s: State, step: Step)
    requires Ownership(s) && PassTidy(s) && Enabled(c, s, step) && (step.FileItem? || step.RenamedItem?)
    ensures Ownership(Apply(c, s, step))
  {
    if step == RenamedItem(false) { ShrinkKeepsOwnership(s, Apply(c, s, step)); } else { FileOwnership(s); }
  }

  lemma {:induction false} DrainsOwnership(c: Config, s: State, step: Step)
    requires Ownership(s) && Enabled(c, s, step) && OfDrain(step)
    ensures Ownership(Apply(c, s, step))
  {
    match step
    case BeginDrain(t, k, sg, i) => BeginDrainOwnership(c, s, t, k, sg, i);
    case DrainPort(t, sgs) => DrainOwnership(c, s, t, sgs);
    case EndDrain(t, ok) => EndDrainOwnership(c, s, t, ok);
  }

  lemma {:induction false} RequestsOwnership(c: Config, s: State, step: Step)
    requires Ownership(s) && Enabled(c, s, step) && (step.Pop? || step.Finish? || step.Release?)
    ensures Ownership(Apply(c, s, step))
  {
    match step
    case Pop(t, k, want) => PopOwnership(c, s, t, k, want);
    case Finish(t) => FinishOwnership(c, s, t);
    case Release(p, k) => ReleaseOwnership(c, s, p, k);
  }

  /** Every step keeps every port with a single owner. */
  lemma {:induction false} StepKeepsOwnership(c: Config, s: State, step: Step)
    requires Ownership(s) && PassTidy(s) && Enabled(c, s, step)
    ensures Ownership(Apply(c, s, step))
  {
    if IsQuiet(step) {
      QuietOwnership(c, s, step);
    } else if OfPass(step) {
      PassOwnership(c, s, step);
    } else if OfDrain(step) {
      DrainsOwnership(c, s, step);
    } else if OfRequest(step) {
      RequestsOwnership(c, s, step);
    } else if step.EndPopulate? {
      PopulateOwnership(c, s, step.t, step.ports, step.defaults);
    }
  }

  /** Neither the pass nor a recyclable port goes away. */
  lemma {:induction false} OthersLeavePass(c: Config, s: State, step: Step)
    requires Enabled(c, s, step) && !OfPass(step)
    ensures Apply(c, s, step).pass == s.pass && forall p :: p in s.recyclable ==> p in Apply(c, s, step).recyclable
  { }

  lemma {:induction false} ListingKeepsTidy(c: Config, s: State, step: Step)
    requires PassTidy(s) && Enabled(c, s, step) && (IsListing(step) || step.BeginPass? || step.EndPass?)
    ensures PassTidy(Apply(c, s, step))
  { }

  lemma {:induction false} FilingKeepsTidy(s: State)
    requires PassTidy(s) && s.pass.Passing? && s.pass.items != []
    ensures PassTidy(FileFirst(s)) && PassTidy(s.(pass := s.pass.(items := s.pass.items[1..], stage := Ready)))
  { }

  lemma {:induction false} DroppingKeepsTidy(s: State, ok: bool)
    requires PassTidy(s) && s.pass.Passing? && s.pass.items != []
    ensures PassTidy(Dropping(s)) && PassTidy(DroppedFirst(s, ok)) && PassTidy(s.(pass := s.pass.(stage := Renaming)))
  { }

  lemma {:induction false} PassStepKeepsTidy(c: Config, s: State, step: Step)
    requires PassTidy(s) && Enabled(c, s, step) && OfPass(step)
    ensures PassTidy(Apply(c, s, step))
  {
    if IsListing(step) || step.BeginPass? || step.EndPass? {
      ListingKeepsTidy(c, s, step);
    } else {
      FilingKeepsTidy(s);
      DroppingKeepsTidy(s, step.DroppedItem? && step.ok);
    }
  }

  lemma {:induction false} StepKeepsPassTidy(c: Config, s: State, step: Step)
    requires PassTidy(s) && Enabled(c, s, step)
    ensures PassTidy(Apply(c, s, step))
  {
    if OfPass(step) {
      PassStepKeepsTidy(c, s, step);
    } else {
      OthersLeavePass(c, s, step);
    }
  }

  // ---- the index agrees with Neutron ----

  /** A port filed under a non-empty tuple carries exactly those groups. */
  ghost predicate PoolsAgree(s: State) {
    forall k, ids, p :: ids != {} && Filed(Pool(s, k), Sgs(ids), p) && p in s.neutron ==> s.neutron[p] == ids
  }

  /** So does a port that a request is ready to return. */
  ghost predicate RequestsAgree(s: State) {
    forall t :: t in s.requests ==> RequestAgrees(s, s.requests[t])
  }

  ghost predicate RequestAgrees(s: State, r: Request) {
    r.ready && r.want != {} && r.port in s.neutron ==> s.neutron[r.port] == r.want
  }

  /** The groups read for a return pass are still those of the ports it has to file. */
  ghost predicate ListingAgrees(s: State) {
    && (s.pass.Listing? ==> forall p :: p in s.pass.sgCurrent ==> ListingHolds(s, p))
    && (s.pass.Passing? ==> forall i :: 0 <= i < |s.pass.items| ==> ListingHolds(s, s.pass.items[i].0))
  }

  ghost predicate ListingHolds(s: State, p: PortId)
    requires !s.pass.NoPass?
  {
    p in s.pass.sgCurrent && p in s.neutron ==> s.pass.sgCurrent[p] == s.neutron[p]
  }

  ghost predicate IndexAgrees(s: State) {
    PoolsAgree(s) && RequestsAgree(s) && ListingAgrees(s)
  }

  /** Neutron has, in `s'`, no other groups than in `s` for the ports that `s` has at `a`. */
  ghost predicate GroupsKeptAt(s: State, s': State, a: Place) {
    forall p :: At(s, a, p) && p in s'.neutron ==> p in s.neutron && s'.neutron[p] == s.neutron[p]
  }

  /** Changing the groups of one port leaves alone every place it is not at. */
  lemma {:induction false} GroupsChangedAt(s: State, s': State, from: Place, p: PortId)
    requires Ownership(s) && At(s, from, p)
    requires forall q :: q in s'.neutron && q != p ==> q in s.neutron && s'.neutron[q] == s.neutron[q]
    ensures forall a :: a != from ==> GroupsKeptAt(s, s', a)
  { }

  lemma {:induction false} PoolsStayAgreed(s: State, s': State)
    requires PoolsAgree(s) && forall k :: GroupsKeptAt(s, s', InPool(k))
    requires forall k, key, p :: Filed(Pool(s', k), key, p) ==> Filed(Pool(s, k), key, p) || key == NO_GROUPS
    ensures PoolsAgree(s')
  {
    forall k, ids, p | ids != {} && Filed(Pool(s', k), Sgs(ids), p) && p in s'.neutron ensures s'.neutron[p] == ids {
      FiledIsInBag(Pool(s, k), Sgs(ids), p);
      assert GroupsKeptAt(s, s', InPool(k)) && At(s, InPool(k), p);
    }
  }

  lemma {:induction false} RequestsStayAgreed(s: State, s': State, except: nat)
    requires RequestsAgree(s)
    requires forall t :: t in s'.requests && t != except ==>
               t in s.requests && s'.requests[t] == s.requests[t] && GroupsKeptAt(s, s', WithRequest(t))
    requires except in s'.requests ==> RequestAgrees(s', s'.requests[except])
    ensures RequestsAgree(s')
  {
    forall t | t in s'.requests ensures RequestAgrees(s', s'.requests[t]) {
      if t != except {
        assert RequestAgrees(s, s.requests[t]) && At(s, WithRequest(t), s.requests[t].port);
      }
    }
  }

  /** The pass ends, stands or goes on to its next item. */
  ghost predicate MovesOn(a: Pass, b: Pass) {
    b.Listing? || b.Passing? ==>
      && (b.Listing? ==> a.Listing?) && (b.Passing? ==> a.Passing?) && b.sgCurrent == a.sgCurrent
      && (b.Passing? ==> b.items == a.items || (a.items != [] && b.items == a.items[1..]))
  }

  lemma {:induction false} ListingStaysAgreed(s: State, s': State)
    requires PassTidy(s) && ListingAgrees(s) && GroupsKeptAt(s, s', Recycled) && MovesOn(s.pass, s'.pass)
    ensures ListingAgrees(s')
  {
    if s'.pass.Passing? {
      var d := |s.pass.items| - |s'.pass.items|;
      forall i | 0 <= i < |s'.pass.items| ensures ListingHolds(s', s'.pass.items[i].0) {
        assert ListingHolds(s, s.pass.items[i + d].0) && At(s, Recycled, s.pass.items[i + d].0);
      }
    } else if s'.pass.Listing? {
      forall p | p in s'.pass.sgCurrent ensures ListingHolds(s', p) {
        assert ListingHolds(s, p) && At(s, Recycled, p);
      }
    }
  }

  lemma {:induction false} PopAgrees(c: Config, s: State, t: nat, k: PoolKey, want: set<SgId>)
    requires Ownership(s) && PassTidy(s) && IndexAgrees(s) && Enabled(c, s, Pop(t, k, want))
    ensures IndexAgrees(Apply(c, s, Pop(t, k, want)))
  {
    var s' := Apply(c, s, Pop(t, k, want));
    PopFiling(Pool(s, k), Choose(Pool(s, k), want));
    assert forall k' :: k' != k ==> Pool(s', k') == Pool(s, k');
    PoolsStayAgreed(s, s');
    RequestsStayAgreed(s, s', t);
    ListingStaysAgreed(s, s');
  }

  /** Filing ports that carry the groups of the key they are filed under. */
  lemma {:induction false} FiledWithTheirGroups(
    s: State, s': State, k: PoolKey, gs: Groups, key: SgKey, ports: seq<PortId>)
    requires PoolsAgree(s) && s'.pools == s.pools[k := gs]
    requires forall k' :: GroupsKeptAt(s, s', InPool(k'))
    requires forall K, p :: Filed(gs, K, p) ==> Filed(Pool(s, k), K, p) || (K == key && p in ports)
    requires forall p :: p in ports && p in s'.neutron && key.Sgs? && key.ids != {} ==> s'.neutron[p] == key.ids
    ensures PoolsAgree(s')
  {
    forall k', ids, p | ids != {} && Filed(Pool(s', k'), Sgs(ids), p) && p in s'.neutron ensures s'.neutron[p] == ids {
      if Filed(Pool(s, k'), Sgs(ids), p) {
        FiledIsInBag(Pool(s, k'), Sgs(ids), p);
        assert At(s, InPool(k'), p) && GroupsKeptAt(s, s', InPool(k'));
      }
    }
  }

  lemma {:induction false} PopulateFiles(s: State, t: nat, ports: seq<PortId>, defaults: set<SgId>)
    requires t in s.populating && DistinctKeys(Pool(s, s.populating[t].pool))
    ensures var s', j := Populated(s, t, ports, defaults), s.populating[t];
            forall K, p :: Filed(s'.pools[j.pool], K, p) ==>
              Filed(Pool(s, j.pool), K, p) || (K == Sgs(j.want) && p in ports)
  {
    var j := s.populating[t];
    FileAllFacts(Pool(s, j.pool), Sgs(j.want), ports);
    FileAllFiling(Pool(s, j.pool), Sgs(j.want), ports);
    MoveFiling(FileAll(Pool(s, j.pool), Sgs(j.want), ports), Sgs(j.want));
  }

  lemma {:induction false} NewPortsAlone(s: State, s': State, ports: seq<PortId>, groups: set<SgId>)
    requires Tidy(s) && (forall p :: p in ports ==> p !in s.created) &&
             s'.neutron == s.neutron + map p | p in ports :: groups
    ensures forall a :: GroupsKeptAt(s, s', a)
  {
    forall a ensures GroupsKeptAt(s, s', a) {
      forall p | At(s, a, p) ensures p !in ports { }
    }
  }

  lemma {:induction false} PopulateAgrees(c: Config, s: State, t: nat, ports: seq<PortId>, defaults: set<SgId>)
    requires Ownership(s) && PassTidy(s) && IndexAgrees(s) && Enabled(c, s, EndPopulate(t, ports, defaults))
    ensures IndexAgrees(Apply(c, s, EndPopulate(t, ports, defaults)))
  {
    var s', j := Populated(s, t, ports, defaults), s.populating[t];
    NewPortsAlone(s, s', ports, if j.want == {} then defaults else j.want);
    PopulateFiles(s, t, ports, defaults);
    FiledWithTheirGroups(s, s', j.pool, s'.pools[j.pool], Sgs(j.want), ports);
    PopulateRequestsAgree(s, s');
    ListingStaysAgreed(s, s');
  }

  lemma {:induction false} PopulateRequestsAgree(s: State, s': State)
    requires RequestsAgree(s) && s'.requests == s.requests && forall a :: GroupsKeptAt(s, s', a)
    ensures RequestsAgree(s')
  {
    forall t | t in s'.requests ensures RequestAgrees(s', s'.requests[t]) {
      assert RequestAgrees(s, s.requests[t]) && At(s, WithRequest(t), s.requests[t].port) &&
             GroupsKeptAt(s, s', WithRequest(t));
    }
  }

  lemma {:induction false} FileAndMoveFiling(gs: Groups, key: SgKey, p: PortId)
    requires DistinctKeys(gs)
    ensures forall K, q :: Filed(MoveToEnd(File(gs, key, p), key), K, q) ==> Filed(gs, K, q) || (K == key && q in [p])
  {
    FileFacts(gs, key, p);
    FileFiling(gs, key, p);
    MoveFiling(File(gs, key, p), key);
  }

  lemma {:induction false} FileAgrees(s: State)
    requires Ownership(s) && PassTidy(s) && IndexAgrees(s) && s.pass.Passing? && s.pass.items != []
    ensures IndexAgrees(FileFirst(s))
  {
    var s' := FileFirst(s);
    var (p, k) := s.pass.items[0];
    var key := KeyOf(s.pass.sgCurrent, p);
    FileAndMoveFiling(Pool(s, k), key, p);
    assert ListingHolds(s, s.pass.items[0].0);
    FiledWithTheirGroups(s, s', k, s'.pools[k], key, [p]);
    PopulateRequestsAgree(s, s');
    ListingStaysAgreed(s, s');
  }

  lemma {:induction false} DrainFiles(c: Config, s: State, step: Step)
    requires Ownership(s) && Enabled(c, s, step) && OfDrain(step)
    ensures var s' := Apply(c, s, step);
            && (forall k, key, p :: Filed(Pool(s', k), key, p) ==> Filed(Pool(s, k), key, p) || key == NO_GROUPS)
            && (forall a: Place :: a.InPool? || a.WithRequest? || a.Recycled? ==> GroupsKeptAt(s, s', a))
            && s'.requests == s.requests && s'.pass == s.pass
  {
    var s' := Apply(c, s, step);
    var k := if step.BeginDrain? then step.k else s.drains[step.t].pool;
    match step {
      case BeginDrain(t, k, sg, i) => WithoutFiling(Pool(s, k), i);
      case DrainPort(t, sgs) =>
        FileFiling(Pool(s, k), NO_GROUPS, s.drains[t].ports[0]);
        GroupsChangedAt(s, s', InDrain(t), s.drains[t].ports[0]);
      case EndDrain(t, ok) => MoveFiling(Pool(s, k), NO_GROUPS);
    }
    assert forall k' :: k' != k ==> Pool(s', k') == Pool(s, k');
  }

  lemma {:induction false} DrainAgrees(c: Config, s: State, step: Step)
    requires Ownership(s) && PassTidy(s) && IndexAgrees(s) && Enabled(c, s, step) && OfDrain(step)
    ensures IndexAgrees(Apply(c, s, step))
  {
    DrainFiles(c, s, step);
    FilesUnderNothing(s, Apply(c, s, step));
  }

  lemma {:induction false} FilesUnderNothing(s: State, s': State)
    requires PassTidy(s) && IndexAgrees(s)
    requires forall k, key, p :: Filed(Pool(s', k), key, p) ==> Filed(Pool(s, k), key, p) || key == NO_GROUPS
    requires forall a: Place :: a.InPool? || a.WithRequest? || a.Recycled? ==> GroupsKeptAt(s, s', a)
    requires s'.requests == s.requests && s'.pass == s.pass
    ensures IndexAgrees(s')
  {
    PoolsStayAgreed(s, s');
    forall t | t in s'.requests ensures RequestAgrees(s', s'.requests[t]) {
      assert RequestAgrees(s, s.requests[t]) && At(s, WithRequest(t), s.requests[t].port) &&
             GroupsKeptAt(s, s', WithRequest(t));
    }
    ListingStaysAgreed(s, s');
  }

  lemma {:induction false} UpdateAgrees(c: Config, s: State, step: Step)
    requires Ownership(s) && PassTidy(s) && IndexAgrees(s) && Enabled(c, s, step)
    requires step.Repair? || step.UpdateHeld?
    ensures IndexAgrees(Apply(c, s, step))
  {
    if step.Repair? {
      var r := s.requests[step.t];
      OnePortUpdated(s, Apply(c, s, step), WithRequest(step.t), r.port, r.want);
    } else {
      OnePortUpdated(s, Apply(c, s, step), WithPod, step.p, step.sgs);
    }
  }

  /** The groups of a port that a request or a pod has are set in Neutron. */
  lemma {:induction false} OnePortUpdated(s: State, s': State, from: Place, p: PortId, sgs: set<SgId>)
    requires Ownership(s) && PassTidy(s) && IndexAgrees(s) && At(s, from, p) && (from.WithRequest? || from.WithPod?)
    requires s'.pools == s.pools && s'.neutron == s.neutron[p := sgs] && s'.pass == s.pass
    requires if from.WithRequest? then
               s'.requests == s.requests[from.t := s.requests[from.t].(ready := true)] && s.requests[from.t].want == sgs
             else s'.requests == s.requests
    ensures IndexAgrees(s')
  {
    GroupsChangedAt(s, s', from, p);
    assert forall k :: Pool(s', k) == Pool(s, k);
    PoolsStayAgreed(s, s');
    forall t | t in s'.requests ensures RequestAgrees(s', s'.requests[t]) {
      if from != WithRequest(t) {
        assert RequestAgrees(s, s.requests[t]) && At(s, WithRequest(t), s.requests[t].port);
        assert GroupsKeptAt(s, s', WithRequest(t));
      }
    }
    ListingStaysAgreed(s, s');
  }

  /** Nothing is filed, no group changes, and the pass at most moves on. */
  ghost predicate NothingFiled(s: State, s': State) {
    && (forall p :: p in s'.neutron ==> p in s.neutron && s'.neutron[p] == s.neutron[p])
    && (forall k :: Pool(s', k) == Pool(s, k) || Pool(s', k) == [])
    && (forall t :: t in s'.requests ==> t in s.requests && s'.requests[t] == s.requests[t])
    && MovesOn(s.pass, s'.pass)
  }

  lemma {:induction false} NothingFiledAgrees(s: State, s': State)
    requires PassTidy(s) && IndexAgrees(s) && NothingFiled(s, s')
    ensures IndexAgrees(s')
  {
    assert forall k, key, p :: Filed(Pool(s', k), key, p) ==> Filed(Pool(s, k), key, p);
    PoolsStayAgreed(s, s');
    forall t | t in s'.requests ensures RequestAgrees(s', s'.requests[t]) { assert RequestAgrees(s, s.requests[t]); }
    ListingStaysAgreed(s, s');
  }

  lemma {:induction false} PassFilesNothing(c: Config, s: State, step: Step)
    requires Enabled(c, s, step)
    requires step.Answer? || step.RenameItem? || step == RenamedItem(false) || step.DropItem? || step.DroppedItem? ||
             step.EndPass?
    ensures NothingFiled(s, Apply(c, s, step))
  { }

  lemma {:induction false} RequestsFileNothing(c: Config, s: State, step: Step)
    requires Enabled(c, s, step) && (step.Abort? || step.Finish? || step.Release?)
    ensures NothingFiled(s, Apply(c, s, step))
  { }

  /** Pools, requests and the pass stand; Neutron has at most lost a port. */
  lemma {:induction false} OnlyPortsLost(s: State, s': State)
    requires s'.pools == s.pools && s'.requests == s.requests && s'.pass == s.pass
    requires forall p :: p in s'.neutron ==> p in s.neutron && s'.neutron[p] == s.neutron[p]
    ensures NothingFiled(s, s')
  { }

  lemma {:induction false} DeletionsFileNothing(c: Config, s: State, step: Step)
    requires Enabled(c, s, step) && (step.BeginPopulate? || step.Collect? || step.DeleteDoomed?)
    ensures NothingFiled(s, Apply(c, s, step))
  {
    OnlyPortsLost(s, Apply(c, s, step));
  }

  lemma {:induction false} ForgettingFilesNothing(c: Config, s: State, k: PoolKey)
    ensures NothingFiled(s, Apply(c, s, ForgetPool(k)))
  { }

  lemma {:induction false} QuietAgrees(c: Config, s: State, step: Step)
    requires PassTidy(s) && IndexAgrees(s) && Enabled(c, s, step)
    requires step.Abort? || step.Finish? || step.BeginPopulate? || step.Release? || step.RenameItem? ||
             step == RenamedItem(false) || step.Answer? || step.DropItem? || step.DroppedItem? || step.EndPass? ||
             step.Collect? || step.DeleteDoomed? || step.ForgetPool?
    ensures IndexAgrees(Apply(c, s, step))
  {
    if OfPass(step) {
      PassFilesNothing(c, s, step);
    } else if OfRequest(step) {
      RequestsFileNothing(c, s, step);
    } else if step.ForgetPool? {
      ForgettingFilesNothing(c, s, step.k);
    } else {
      DeletionsFileNothing(c, s, step);
    }
    NothingFiledAgrees(s, Apply(c, s, step));
  }

  /** The ports of the answer that are recyclable now still have the groups that Neutron answered. */
  ghost predicate FreshAnswer(s: State) {
    s.pass.Listing? ==>
      forall p :: p in s.pass.answer && p in s.recyclable && p in s.neutron ==> s.neutron[p] == s.pass.answer[p]
  }

  /** Steps of the pass that file nothing and change nothing outside of it. */
  lemma {:induction false} PoolsAndRequestsStay(c: Config, s: State, step: Step)
    requires PoolsAgree(s) && RequestsAgree(s) && Enabled(c, s, step) &&
             (step.BeginListing? || step.ReadPage? || step.BeginPass?)
    ensures PoolsAgree(Apply(c, s, step)) && RequestsAgree(Apply(c, s, step))
  {
    var s' := Apply(c, s, step);
    assert forall k :: Pool(s', k) == Pool(s, k);
    forall t | t in s'.requests ensures RequestAgrees(s', s'.requests[t]) { assert RequestAgrees(s, s.requests[t]); }
  }

  lemma {:induction false} BeginAgrees(c: Config, s: State, step: Step)
    requires PassTidy(s) && IndexAgrees(s) && Enabled(c, s, step) && (step.BeginListing? || step.BeginPass?)
    ensures IndexAgrees(Apply(c, s, step))
  {
    PoolsAndRequestsStay(c, s, step);
    if step.BeginPass? {
      var s' := Apply(c, s, step);
      forall i | 0 <= i < |s'.pass.items| ensures ListingHolds(s', s'.pass.items[i].0) {
        if s'.pass.items[i].0 in s.pass.sgCurrent { assert ListingHolds(s, s'.pass.items[i].0); }
      }
    }
  }

  lemma {:induction false} ReadingAgrees(c: Config, s: State)
    requires PassTidy(s) && IndexAgrees(s) && s.pass.Listing?
    ensures IndexAgrees(Apply(c, s, ReadPage)) <==> FreshAnswer(s)
  {
    var s' := Apply(c, s, ReadPage);
    PoolsAndRequestsStay(c, s, ReadPage);
    if FreshAnswer(s) {
      forall p | p in s'.pass.sgCurrent ensures ListingHolds(s', p) {
        if !(p in s.pass.answer && p in s.recyclable) { assert ListingHolds(s, p); }
      }
    } else {
      var p :| p in s.pass.answer && p in s.recyclable && p in s.neutron && s.neutron[p] != s.pass.answer[p];
      assert p in s'.pass.sgCurrent && !ListingHolds(s', p);
    }
  }

  lemma {:induction false} PassAgrees(c: Config, s: State, step: Step)
    requires Ownership(s) && PassTidy(s) && IndexAgrees(s) && Enabled(c, s, step) && OfPass(step)
    requires step.ReadPage? ==> FreshAnswer(s)
    ensures IndexAgrees(Apply(c, s, step))
  {
    match step
    case BeginListing => BeginAgrees(c, s, step);
    case ReadPage => ReadingAgrees(c, s);
    case BeginPass(items) => BeginAgrees(c, s, step);
    case FileItem => FileAgrees(s);
    case RenamedItem(ok) => if ok { FileAgrees(s); } else { QuietAgrees(c, s, step); }
    case _ => QuietAgrees(c, s, step);
  }

  lemma {:induction false} RequestStepAgrees(c: Config, s: State, step: Step)
    requires Ownership(s) && PassTidy(s) && IndexAgrees(s) && Enabled(c, s, step) && OfRequest(step)
    ensures IndexAgrees(Apply(c, s, step))
  {
    if step.Pop? {
      PopAgrees(c, s, step.t, step.k, step.want);
    } else if step.Repair? || step.UpdateHeld? {
      UpdateAgrees(c, s, step);
    } else {
      QuietAgrees(c, s, step);
    }
  }

  /** Every step keeps the index in agreement with Neutron, reading an answer if it is fresh. */
  lemma {:induction false} StepKeepsAgreement(c: Config, s: State, step: Step)
    requires Ownership(s) && PassTidy(s) && IndexAgrees(s) && Enabled(c, s, step) && (step.ReadPage? ==> FreshAnswer(s))
    ensures IndexAgrees(Apply(c, s, step))
  {
    if OfPass(step) {
      PassAgrees(c, s, step);
    } else if OfDrain(step) {
      DrainAgrees(c, s, step);
    } else if OfRequest(step) {
      RequestStepAgrees(c, s, step);
    } else if step.EndPopulate? {
      PopulateAgrees(c, s, step.t, step.ports, step.defaults);
    } else if !step.Elsewhere? {
      QuietAgrees(c, s, step);
    }
  }

  // ---- deletion against request ----

  /** Ids the pool still knows have a Neutron port, and no id collected for deletion is among them. */
  ghost predicate Backed(s: State) {
    && s.existing <= s.neutron.Keys && s.held <= s.neutron.Keys
    && s.existing <= s.created && s.doomed <= s.created
    && s.doomed !! s.existing && s.doomed !! s.held && s.doomed !! s.recyclable.Keys
    && (PassAt(s, Deleting) ==> s.pass.items[0].0 !in s.existing)
  }

  lemma {:induction false} CollectKeepsBacked(s: State, k: PoolKey)
    requires Ownership(s) && Backed(s)
    ensures Backed(Collected(s, k)) && s.doomed <= Collected(s, k).doomed
  {
    forall p | p in Bag(Pool(s, k)) ensures p in s.created && p !in s.held && p !in s.recyclable {
      assert At(s, InPool(k), p);
      assert !At(s, WithPod, p) && !At(s, Recycled, p);
    }
  }

  lemma {:induction false} DropKeepsBacked(s: State, ok: bool)
    requires Ownership(s) && PassTidy(s) && Backed(s)
    ensures PassAt(s, Ready) ==> Backed(Dropping(s))
    ensures PassAt(s, Deleting) ==> Backed(DroppedFirst(s, ok))
  {
    if s.pass.Passing? && s.pass.items != [] {
      assert At(s, Recycled, s.pass.items[0].0);
      assert !At(s, WithPod, s.pass.items[0].0);
    }
  }

  lemma {:induction false} PassKeepsBacked(c: Config, s: State, step: Step)
    requires Ownership(s) && PassTidy(s) && Backed(s) && Enabled(c, s, step)
    requires step.FileItem? || step.RenameItem? || step.RenamedItem? || step.DropItem? || step.DroppedItem? ||
             step.EndPass?
    ensures Backed(Apply(c, s, step)) && s.doomed == Apply(c, s, step).doomed
  {
    if step.FileItem? || step.RenamedItem? {
      FileKeepsBacked(s);
    } else if step.DropItem? || step.DroppedItem? {
      DropKeepsBacked(s, step.DroppedItem? && step.ok);
    }
  }

  lemma {:induction false} ReleaseKeepsBacked(c: Config, s: State, p: PortId, k: PoolKey)
    requires Ownership(s) && PassTidy(s) && Backed(s) && p in s.held
    ensures Backed(s.(held := s.held - {p}, existing := s.existing + {p}, recyclable := s.recyclable[p := k]))
  {
    assert At(s, WithPod, p) && !At(s, Recycled, p);
    if PassAt(s, Deleting) { assert At(s, Recycled, s.pass.items[0].0); }
  }

  lemma {:induction false} RequestKeepsBacked(c: Config, s: State, step: Step)
    requires Backed(s) && Enabled(c, s, step) && OfRequest(step) && !step.Release?
    ensures Backed(Apply(c, s, step)) && s.doomed == Apply(c, s, step).doomed
  { }

  lemma {:induction false} PoolKeepsBacked(c: Config, s: State, step: Step)
    requires Backed(s) && Enabled(c, s, step) && (step.BeginPopulate? || step.DeleteDoomed? || step.ForgetPool?)
    ensures Backed(Apply(c, s, step)) && s.doomed == Apply(c, s, step).doomed
  { }

  lemma {:induction false} PopulatedKeepsBacked(s: State, t: nat, ports: seq<PortId>, defaults: set<SgId>)
    requires Ownership(s) && PassTidy(s) && Backed(s) && t in s.populating && forall p :: p in ports ==> p !in s.created
    ensures Backed(Populated(s, t, ports, defaults))
  {
    if PassAt(s, Deleting) { assert At(s, Recycled, s.pass.items[0].0); }
  }

  lemma {:induction false} DrainKeepsBacked(c: Config, s: State, step: Step)
    requires Backed(s) && Enabled(c, s, step) && OfDrain(step)
    ensures Backed(Apply(c, s, step)) && s.doomed == Apply(c, s, step).doomed
  { }

  lemma {:induction false} ListingKeepsBacked(c: Config, s: State, step: Step)
    requires Backed(s) && Enabled(c, s, step) && (IsListing(step) || step.BeginPass?)
    ensures Backed(Apply(c, s, step)) && s.doomed == Apply(c, s, step).doomed
  { }

  lemma {:induction false} StepKeepsBacked(c: Config, s: State, step: Step)
    requires Ownership(s) && PassTidy(s) && Backed(s) && Enabled(c, s, step)
    ensures Backed(Apply(c, s, step)) && s.doomed <= Apply(c, s, step).doomed
  {
    if IsListing(step) || step.BeginPass? {
      ListingKeepsBacked(c, s, step);
    } else if OfPass(step) {
      PassKeepsBacked(c, s, step);
    } else if OfDrain(step) {
      DrainKeepsBacked(c, s, step);
    } else if step.Release? {
      ReleaseKeepsBacked(c, s, step.p, step.k);
    } else if OfRequest(step) {
      RequestKeepsBacked(c, s, step);
    } else if step.Collect? {
      CollectKeepsBacked(s, step.k);
    } else if step.EndPopulate? {
      PopulatedKeepsBacked(s, step.t, step.ports, step.defaults);
    } else if !step.Elsewhere? {
      PoolKeepsBacked(c, s, step);
    }
  }

  lemma {:induction false} FileKeepsBacked(s: State)
    requires Backed(s) && s.pass.Passing? && s.pass.items != []
    ensures Backed(FileFirst(s))
  { }

  // ---- whole runs ----

  ghost predicate Sound(s: State) {
    Ownership(s) && PassTidy(s) && Backed(s)
  }

  ghost predicate Safe(s: State) {
    Sound(s) && IndexAgrees(s)
  }

  lemma {:induction false} StepIsSound(c: Config, s: State, step: Step)
    requires Sound(s) && Enabled(c, s, step)
    ensures Sound(Apply(c, s, step)) && s.doomed <= Apply(c, s, step).doomed
  {
    StepKeepsOwnership(c, s, step);
    StepKeepsPassTidy(c, s, step);
    StepKeepsBacked(c, s, step);
  }

  ghost predicate Run(c: Config, trace: seq<State>, steps: seq<Step>) {
    |trace| == |steps| + 1 && forall i :: 0 <= i < |steps| ==> Follows(c, trace, steps, i)
  }

  ghost predicate Follows(c: Config, trace: seq<State>, steps: seq<Step>, i: nat)
    requires i < |steps| < |trace|
  {
    Enabled(c, trace[i], steps[i]) && trace[i + 1] == Apply(c, trace[i], steps[i])
  }

  lemma {:induction false} SoundAt(c: Config, trace: seq<State>, steps: seq<Step>, i: nat)
    requires Run(c, trace, steps) && i < |steps| && Sound(trace[i])
    ensures Sound(trace[i + 1]) && trace[i].doomed <= trace[i + 1].doomed
  {
    assert Follows(c, trace, steps, i);
    StepIsSound(c, trace[i], steps[i]);
  }

  /** The state `sync_pools` starts from when Neutron has no leftover port. */
  const EMPTY: State :=
    State(map[], {}, map[], {}, map[], map[], map[], {}, map[], NoPass, {}, {})

  lemma EmptyIsSafe()
    ensures Safe(EMPTY)
  {
    assert forall k :: Pool(EMPTY, k) == [];
  }

  lemma {:induction false} RunIsSound(c: Config, trace: seq<State>, steps: seq<Step>, n: nat)
    requires Run(c, trace, steps) && Sound(trace[0]) && n < |trace|
    ensures Sound(trace[n])
  {
    if n > 0 {
      RunIsSound(c, trace, steps, n - 1);
      SoundAt(c, trace, steps, n - 1);
    }
  }

  // ---- the listing of a return pass ----

  /** Nothing that Neutron has answered waits to be read. */
  ghost predicate NothingListed(s: State) {
    s.pass.Listing? ==> s.pass.answer == map[]
  }

  /** From `i` on and before `j` the return pass waits. */
  ghost predicate PassWaits(steps: seq<Step>, i: nat, j: nat) {
    forall m :: i <= m < j && m < |steps| ==> !OfPass(steps[m])
  }

  /** Step `m` releases a port that has by then other groups than in the answer given at `i`. */
  ghost predicate ReleasesOther(trace: seq<State>, steps: seq<Step>, i: nat, m: nat)
    requires i < m < |steps| < |trace|
  {
    && steps[i].Answer? && steps[m].Release? && steps[m].p in steps[i].page && steps[m].p in trace[m].neutron
    && trace[m].neutron[steps[m].p] != steps[i].page[steps[m].p]
  }

  /** It does so between the answer and its reading at `j`. */
  ghost predicate StaleRelease(trace: seq<State>, steps: seq<Step>, i: nat, m: nat, j: nat)
    requires i < m < j < |steps| < |trace|
  {
    steps[j].ReadPage? && PassWaits(steps, i + 1, j) && ReleasesOther(trace, steps, i, m)
  }

  ghost predicate NoStaleRelease(trace: seq<State>, steps: seq<Step>) {
    |steps| < |trace| && forall j :: 0 <= j < |steps| ==> NoneStaleBefore(trace, steps, j)
  }

  ghost predicate NoneStaleBefore(trace: seq<State>, steps: seq<Step>, j: nat)
    requires j < |steps| < |trace|
  {
    forall i, m :: 0 <= i < m < j ==> !StaleRelease(trace, steps, i, m, j)
  }

  /** Other steps keep a recyclable port and its groups. */
  lemma {:induction false} RecyclableStays(c: Config, s: State, step: Step, p: PortId)
    requires Ownership(s) && Backed(s) && Enabled(c, s, step) && !OfPass(step) && p in s.recyclable
    ensures var s' := Apply(c, s, step);
            p in s'.recyclable && (p in s'.neutron <==> p in s.neutron) &&
              (p in s.neutron ==> s'.neutron[p] == s.neutron[p])
  {
    assert At(s, Recycled, p);
    if step.Repair? {
      assert At(s, WithRequest(step.t), s.requests[step.t].port);
    } else if step.UpdateHeld? {
      assert At(s, WithPod, step.p);
    } else if step.DrainPort? {
      assert At(s, InDrain(step.t), s.drains[step.t].ports[0]);
    }
  }

  lemma {:induction false} OnlyReleasesRecycle(c: Config, s: State, step: Step, p: PortId)
    requires Enabled(c, s, step) && !OfPass(step) && p !in s.recyclable && p in Apply(c, s, step).recyclable
    ensures step.Release? && step.p == p && Apply(c, s, step).neutron == s.neutron
  { }

  lemma {:induction false} AnswerStands(c: Config, trace: seq<State>, steps: seq<Step>, i: nat, n: nat)
    requires Run(c, trace, steps) && i < n <= |steps| && steps[i].Answer? && PassWaits(steps, i + 1, n)
    ensures trace[n].pass.Listing? && trace[n].pass.answer == steps[i].page
  {
    assert Follows(c, trace, steps, n - 1);
    if n > i + 1 {
      AnswerStands(c, trace, steps, i, n - 1);
      OthersLeavePass(c, trace[n - 1], steps[n - 1]);
    }
  }

  lemma {:induction false} FreshWithoutRelease(c: Config, trace: seq<State>, steps: seq<Step>, i: nat, n: nat)
    requires Run(c, trace, steps) && Sound(trace[0]) && i < n <= |steps| && steps[i].Answer? &&
             PassWaits(steps, i + 1, n)
    requires forall m :: i < m < n ==> !ReleasesOther(trace, steps, i, m)
    ensures FreshAnswer(trace[n])
  {
    AnswerStands(c, trace, steps, i, n);
    assert Follows(c, trace, steps, n - 1);
    if n > i + 1 {
      AnswerStands(c, trace, steps, i, n - 1);
      FreshWithoutRelease(c, trace, steps, i, n - 1);
      RunIsSound(c, trace, steps, n - 1);
      assert !ReleasesOther(trace, steps, i, n - 1);
      FreshStep(c, trace[n - 1], steps[n - 1]);
    }
  }

  /** A step elsewhere makes an answer stale only by a release. */
  lemma {:induction false} FreshStep(c: Config, s: State, step: Step)
    requires Ownership(s) && Backed(s) && Enabled(c, s, step) && !OfPass(step) && s.pass.Listing? && FreshAnswer(s)
    requires step.Release? && step.p in s.pass.answer && step.p in s.neutron ==>
             s.neutron[step.p] == s.pass.answer[step.p]
    ensures FreshAnswer(Apply(c, s, step))
  {
    var s' := Apply(c, s, step);
    OthersLeavePass(c, s, step);
    forall p | p in s.pass.answer && p in s'.recyclable && p in s'.neutron ensures s'.neutron[p] == s.pass.answer[p] {
      if p in s.recyclable { RecyclableStays(c, s, step, p); } else { OnlyReleasesRecycle(c, s, step, p); }
    }
  }

  lemma {:induction false} StaleStays(c: Config, trace: seq<State>, steps: seq<Step>, i: nat, m: nat, n: nat)
    requires Run(c, trace, steps) && Sound(trace[0]) && i < m < n <= |steps| && PassWaits(steps, i + 1, n)
    requires ReleasesOther(trace, steps, i, m)
    ensures var p := steps[m].p;
            p in trace[n].recyclable && p in trace[n].neutron && trace[n].neutron[p] != steps[i].page[p]
  {
    assert Follows(c, trace, steps, n - 1);
    if n > m + 1 {
      StaleStays(c, trace, steps, i, m, n - 1);
      RunIsSound(c, trace, steps, n - 1);
      RecyclableStays(c, trace[n - 1], steps[n - 1], steps[m].p);
    }
  }

  /** An answer that waits to be read was given by the last step of the pass. */
  lemma {:induction false} AnswerGiven(c: Config, trace: seq<State>, steps: seq<Step>, n: nat) returns (i: nat)
    requires Run(c, trace, steps) && NothingListed(trace[0]) && n <= |steps| && !NothingListed(trace[n])
    ensures i < n && steps[i].Answer? && PassWaits(steps, i + 1, n)
  {
    assert n > 0 && Follows(c, trace, steps, n - 1);
    if steps[n - 1].Answer? {
      i := n - 1;
    } else {
      if !OfPass(steps[n - 1]) { OthersLeavePass(c, trace[n - 1], steps[n - 1]); }
      i := AnswerGiven(c, trace, steps, n - 1);
    }
  }

  /** An answer is fresh when it is read if and only if no port was released in between with other
      groups than answered. */
  lemma {:induction false} FreshExactly(c: Config, trace: seq<State>, steps: seq<Step>, j: nat)
    requires Run(c, trace, steps) && Sound(trace[0]) && NothingListed(trace[0]) && j < |steps| && steps[j].ReadPage?
    ensures FreshAnswer(trace[j]) <==> NoneStaleBefore(trace, steps, j)
  {
    if i: nat, m: nat :| i < m < j && StaleRelease(trace, steps, i, m, j) {
      AnswerStands(c, trace, steps, i, j);
      StaleStays(c, trace, steps, i, m, j);
    } else if !NothingListed(trace[j]) {
      var i := AnswerGiven(c, trace, steps, j);
      forall m | i < m < j ensures !ReleasesOther(trace, steps, i, m) { assert !StaleRelease(trace, steps, i, m, j); }
      FreshWithoutRelease(c, trace, steps, i, j);
    }
  }

  /** Reading an answer keeps the index in agreement with Neutron if and only if no port was released
      since it was given with other groups than answered. */
  lemma {:induction false} ReadingAgreesExactly(c: Config, trace: seq<State>, steps: seq<Step>, j: nat)
    requires Run(c, trace, steps) && Sound(trace[0]) && NothingListed(trace[0])
    requires j < |steps| && steps[j].ReadPage? && IndexAgrees(trace[j])
    ensures IndexAgrees(trace[j + 1]) <==> NoneStaleBefore(trace, steps, j)
  {
    RunIsSound(c, trace, steps, j);
    assert Follows(c, trace, steps, j);
    ReadingAgrees(c, trace[j]);
    FreshExactly(c, trace, steps, j);
  }

  /** All pool invariants, in every state of every run without a stale release. */
  lemma {:induction false} RunIsSafe(c: Config, trace: seq<State>, steps: seq<Step>, n: nat)
    requires Run(c, trace, steps) && Safe(trace[0]) && NothingListed(trace[0]) && NoStaleRelease(trace, steps) &&
             n < |trace|
    ensures Safe(trace[n])
  {
    if n > 0 {
      RunIsSafe(c, trace, steps, n - 1);
      SoundAt(c, trace, steps, n - 1);
      assert Follows(c, trace, steps, n - 1) && NoneStaleBefore(trace, steps, n - 1);
      if steps[n - 1].ReadPage? { FreshExactly(c, trace, steps, n - 1); }
      StepKeepsAgreement(c, trace[n - 1], steps[n - 1]);
    }
  }

  /** And in no other run. */
  lemma {:induction false} SafeExactly(c: Config, trace: seq<State>, steps: seq<Step>)
    requires Run(c, trace, steps) && Safe(trace[0]) && NothingListed(trace[0])
    ensures (forall n :: 0 <= n < |trace| ==> Safe(trace[n])) <==> NoStaleRelease(trace, steps)
  {
    if NoStaleRelease(trace, steps) {
      forall n | 0 <= n < |trace| ensures Safe(trace[n]) { RunIsSafe(c, trace, steps, n); }
    } else {
      var j :| 0 <= j < |steps| && !NoneStaleBefore(trace, steps, j);
      if IndexAgrees(trace[j]) { ReadingAgreesExactly(c, trace, steps, j); }
      assert !Safe(trace[j]) || !Safe(trace[j + 1]);
    }
  }

  /** Single owner: in every state of every run, a port is at no more than one place,
      once, so no two pods hold it and no two requests are about to return it. */
  lemma {:induction false} NoPortIsGivenTwice(
    c: Config, trace: seq<State>, steps: seq<Step>, n: nat, a: Place, b: Place, p: PortId)
    requires Run(c, trace, steps) && Sound(trace[0]) && n < |trace|
    requires At(trace[n], a, p) && At(trace[n], b, p)
    ensures a == b && (a.InPool? ==> Bag(Pool(trace[n], a.k))[p] == 1)
  {
    RunIsSound(c, trace, steps, n);
    assert a.InPool? ==> p in Bag(Pool(trace[n], a.k));
  }

  /** Whichever group a port was popped from, a request for a non-empty tuple returns a
      port that Neutron has with exactly those groups. */
  lemma {:induction false} GrantedPortCarriesItsGroups(c: Config, trace: seq<State>, steps: seq<Step>, n: nat, t: nat)
    requires Run(c, trace, steps) && Safe(trace[0]) && NothingListed(trace[0]) && NoStaleRelease(trace, steps)
    requires n < |steps| && steps[n] == Finish(t) && t in trace[n].requests
    requires trace[n].requests[t].port in trace[n + 1].held && trace[n].requests[t].want != {}
    ensures var r := trace[n].requests[t];
            r.port in trace[n].existing && r.port in trace[n + 1].neutron && trace[n + 1].neutron[r.port] == r.want
  {
    RunIsSafe(c, trace, steps, n);
    assert Follows(c, trace, steps, n);
    var r := trace[n].requests[t];
    assert At(trace[n], WithRequest(t), r.port) && !At(trace[n], WithPod, r.port);
    assert RequestAgrees(trace[n], r);
  }

  /** Once an id has been collected for deletion, no later state has it with a pod. */
  lemma {:induction false} CollectedPortIsNeverGranted(
    c: Config, trace: seq<State>, steps: seq<Step>, i: nat, j: nat, p: PortId)
    requires Run(c, trace, steps) && Sound(trace[0]) && i <= j < |trace| && p in trace[i].doomed
    ensures p in trace[j].doomed && p !in trace[j].held && p !in trace[j].existing
  {
    RunIsSound(c, trace, steps, j);
    DoomedGrows(c, trace, steps, i, j);
  }

  lemma {:induction false} DoomedGrows(c: Config, trace: seq<State>, steps: seq<Step>, i: nat, j: nat)
    requires Run(c, trace, steps) && Sound(trace[0]) && i <= j < |trace|
    ensures trace[i].doomed <= trace[j].doomed
  {
    if i < j {
      DoomedGrows(c, trace, steps, i, j - 1);
      RunIsSound(c, trace, steps, j - 1);
      SoundAt(c, trace, steps, j - 1);
    }
  }
}
