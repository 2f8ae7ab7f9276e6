/** The stages of the pass as methods on the `status` of one KuryrLoadBalancer. */
module LoadBalancerPass {
  import opened Basics
  import opened LoadBalancer

  /** The first spec port a listener serves. */
  function PortFor(l: Listener, ports: seq<PortSpec>): (r: Option<PortSpec>)
    ensures r.Some? ==> r.value in ports && Serves(l, r.value)
    ensures r.None? ==> forall ps :: ps in ports ==> !Serves(l, ps)
  {
    if ports == [] then None
    else if Serves(l, ports[0]) then Some(ports[0])
    else
      assert ports == [ports[0]] + ports[1..];
      PortFor(l, ports[1..])
  }

  /** `_get_port_in_pool` */
  function PortInPool(p: Pool, listeners: seq<Listener>, ports: seq<PortSpec>): (r: Option<PortSpec>)
    ensures r.Some? ==> r.value in ports && exists l :: l in listeners && l.id == p.listenerId && Serves(l, r.value)
    ensures r.None? ==> forall l, ps :: l in listeners && l.id == p.listenerId && ps in ports ==> !Serves(l, ps)
  {
    if listeners == [] then None
    else
      assert listeners == [listeners[0]] + listeners[1..];
      if listeners[0].id == p.listenerId && PortFor(listeners[0], ports).Some? then PortFor(listeners[0], ports)
      else PortInPool(p, listeners[1..], ports)
  }

  /** `sorted(ports, key=lambda x: x['protocol'])`, a stable sort by protocol name. */
  function ByProtocol(ports: seq<PortSpec>): (r: seq<PortSpec>)
    ensures forall ps :: ps in r <==> ps in ports
  {
    Filter(ports, (ps: PortSpec) => ps.protocol == SCTP) + Filter(ports, (ps: PortSpec) => ps.protocol == TCP) +
    Filter(ports, (ps: PortSpec) => ps.protocol == UDP)
  }

  /** Some endpoint and slice port of the spec give exactly this target, pools being found by name in `f`. */
  predicate IsTarget(spec: Spec, f: map<string, nat>, ip: string, pod: string, port: int, id: nat) {
    exists s, e, sp :: s in spec.slices && e in s.endpoints && sp in s.ports && e.address == ip &&
                       TargetName(spec, e) == pod && sp.port == port && sp.name in f && f[sp.name] == id
  }

  ghost predicate Orderly(ls: seq<Listener>, spec: Spec) {
    SpecOk(spec) && forall a, b :: a in ls && b in ls && a.id == b.id ==> a == b
  }

  /** `f` finds, for every name it has, a pool that serves it, and has every name that is served. */
  ghost predicate RouteMap(ls: seq<Listener>, pools: seq<Pool>, spec: Spec, f: map<string, nat>) {
    && (forall name :: name in f ==> Routes(ls, pools, spec, name, f[name]))
    && (Orderly(ls, spec) ==> forall name, id :: Routes(ls, pools, spec, name, id) ==> name in f)
  }

  lemma {:induction false} TargetsAreWanted(
    ls: seq<Listener>, pools: seq<Pool>, spec: Spec, f: map<string, nat>, m: Member)
    requires RouteMap(ls, pools, spec, f) && MemberIsTarget(spec, f, m)
    ensures MemberWanted(ls, pools, spec, m) && m.poolId in PoolIds(pools)
  {
    var s, e, sp :| s in spec.slices && e in s.endpoints && sp in s.ports && e.address == m.ip &&
                    TargetName(spec, e) == PodName(m.name) && sp.port == m.port && sp.name in f &&
                      f[sp.name] == m.poolId;
    assert Routes(ls, pools, spec, sp.name, m.poolId);
  }

  lemma {:induction false} WantedAreTargets(st: Status, o: Octavia, spec: Spec, f: map<string, nat>)
    requires Linked(st, o) && SpecOk(spec) && RouteMap(st.listeners, st.pools, spec, f)
    ensures forall m :: MemberWanted(st.listeners, st.pools, spec, m) ==> MemberIsTarget(spec, f, m)
  {
    LinkedIsUnique(st, o);
    assert Orderly(st.listeners, spec);
    forall m | MemberWanted(st.listeners, st.pools, spec, m) ensures MemberIsTarget(spec, f, m) {
      var s, e, sp :| s in spec.slices && e in s.endpoints && sp in s.ports && e.address == m.ip &&
                      TargetName(spec, e) == PodName(m.name) && sp.port == m.port &&
                        Routes(st.listeners, st.pools, spec, sp.name, m.poolId);
      OneRoute(st, o, spec, sp.name, m.poolId, f[sp.name]);
    }
  }

  /** An endpoint asks for the member, or its address is one of those that stay. */
  ghost predicate Justified(st: Status, spec: Spec, m: Member) {
    MemberWanted(st.listeners, st.pools, spec, m) || m.ip in spec.keep
  }

  /** Every member with this id is justified. */
  ghost predicate AllJustified(st: Status, spec: Spec, id: nat) {
    forall m :: m in st.members && m.id == id ==> Justified(st, spec, m)
  }

  /** All pools with this id serve a port of the spec. */
  ghost predicate PoolStays(st: Status, spec: Spec, id: nat) {
    forall p :: p in st.pools && p.id == id ==> PoolInSpec(p, st.listeners, spec)
  }

  /** An endpoint asks for the member, and nothing speaks against another member of its id. */
  ghost predicate KeptFor(st: Status, spec: Spec, m: Member) {
    MemberWanted(st.listeners, st.pools, spec, m) && AllJustified(st, spec, m.id)
  }

  /** The pool of a wanted member serves a port of the spec. */
  lemma {:induction false} WantedPoolStays(st: Status, o: Octavia, spec: Spec, m: Member)
    requires Linked(st, o) && MemberWanted(st.listeners, st.pools, spec, m)
    ensures PoolStays(st, spec, m.poolId)
  {
    LinkedIsUnique(st, o);
  }

  lemma {:induction false} KeptHavePools(st: Status, o: Octavia, st1: Status, spec: Spec)
    requires Linked(st, o) && st1 == st.(members := st1.members)
    ensures forall m :: KeptFor(st, spec, m) ==> PoolStays(st1, spec, m.poolId)
  {
    forall m | KeptFor(st, spec, m) ensures PoolStays(st1, spec, m.poolId) { WantedPoolStays(st, o, spec, m); }
  }

  predicate MemberIsTarget(spec: Spec, f: map<string, nat>, m: Member) {
    IsTarget(spec, f, m.ip, PodName(m.name), m.port, m.poolId)
  }

  /** `_is_pool_in_spec` */
  predicate PoolInSpec(p: Pool, listeners: seq<Listener>, spec: Spec) {
    PortInPool(p, listeners, spec.ports).Some?
  }

  ghost predicate PoolsInSpec(pools: seq<Pool>, ls: seq<Listener>, spec: Spec) {
    forall p :: p in pools ==> PoolInSpec(p, ls, spec)
  }

  /** Octavia after deleting the pools with these ids. */
  function WithoutPools(o: Octavia, removed: set<nat>): Octavia {
    o.(pools := map l | l in o.pools && o.pools[l] !in removed :: o.pools[l])
  }

  function WithoutListeners(o: Octavia, removed: set<nat>): Octavia {
    o.(listeners := map a | a in o.listeners && o.listeners[a] !in removed :: o.listeners[a])
  }

  function LivePools(pools: seq<Pool>, removed: set<nat>): (r: seq<Pool>)
    ensures forall p :: p in r <==> p in pools && p.id !in removed
    ensures removed == {} ==> r == pools
  {
    Filter(pools, (p: Pool) => p.id !in removed)
  }

  function LiveListeners(ls: seq<Listener>, removed: set<nat>): (r: seq<Listener>)
    ensures forall l :: l in r <==> l in ls && l.id !in removed
    ensures removed == {} ==> r == ls
  {
    Filter(ls, (l: Listener) => l.id !in removed)
  }

  lemma {:induction false} PoolsDropped(
    st: Status, o: Octavia, spec: Spec, removed: set<nat>, pools: seq<Pool>, members: seq<Member>)
    requires forall p :: p in st.pools && !PoolInSpec(p, st.listeners, spec) ==> p.id in removed
    requires forall id :: id in removed ==>
             exists p :: p in st.pools && p.id == id && !PoolInSpec(p, st.listeners, spec)
    requires pools == LivePools(st.pools, removed)
    requires forall m :: m in members <==> m in st.members && m.poolId !in removed
    ensures var st' := st.(pools := pools, members := members);
            && PoolsResolve(st') && (MembersResolve(st) ==> MembersResolve(st'))
            && (Linked(st, o) ==> Linked(st', WithoutPools(o, removed)) && RoutesKept(st, st', spec))
  {
    var st' := st.(pools := pools, members := members);
    assert st.members == [] ==> members == [] by { if members != [] { assert members[0] in members; } }
    forall m | m in members && m.poolId in PoolIds(st.pools) ensures m.poolId in PoolIds(pools) {
      var p :| p in st.pools && p.id == m.poolId;
      assert p in pools;
    }
    if Linked(st, o) {
      LinkedIsUnique(st, o);
      FilterUnique(st.pools, (p: Pool) => p.id !in removed, PoolListener);
      KeepRoutes(st, st', spec);
      forall p | p in pools ensures PoolLinked(p, WithoutPools(o, removed)) { assert PoolLinked(p, o); }
    }
  }

  lemma {:induction false} ListenersDropped(st: Status, o: Octavia, spec: Spec, removed: set<nat>, ls: seq<Listener>)
    requires forall id :: id in removed ==> forall p :: p in st.pools ==> p.listenerId != id
    requires ls == LiveListeners(st.listeners, removed)
    ensures var st' := st.(listeners := ls);
            && (PoolsResolve(st) ==> PoolsResolve(st'))
            && (Linked(st, o) ==> Linked(st', WithoutListeners(o, removed)) && RoutesKept(st, st', spec))
  {
    var st' := st.(listeners := ls);
    forall p | p in st.pools && p.listenerId in Ids(st.listeners) ensures p.listenerId in Ids(ls) {
      var l :| l in st.listeners && l.id == p.listenerId;
      assert l in ls;
    }
    if Linked(st, o) {
      FilterUnique(st.listeners, (l: Listener) => l.id !in removed, ListenerId);
      KeepRoutes(st, st', spec);
      forall l | l in ls ensures ListenerLinked(l, WithoutListeners(o, removed)) { assert ListenerLinked(l, o); }
    }
  }

  /** A listener that is dropped is gone from Octavia too, and made anew. */
  lemma {:induction false} DroppedStaysReady(st: Status, o: Octavia, t: Timeouts, spec: Spec, removed: set<nat>)
    requires Linked(st, o)
    ensures AllReady(st.listeners, o.listeners, t, spec) ==>
              AllReady(LiveListeners(st.listeners, removed), WithoutListeners(o, removed).listeners, t, spec)
  {
    forall ps | AllReady(st.listeners, o.listeners, t, spec) && ps in spec.ports
      ensures Ready(LiveListeners(st.listeners, removed), WithoutListeners(o, removed).listeners, t, spec, ps)
    {
      assert Ready(st.listeners, o.listeners, t, spec, ps);
      if Served(st.listeners, spec, ps) {
        var l :| l in st.listeners && Serves(l, ps) && Timed(l, spec);
        assert ListenerLinked(l, o);
        if l.id !in removed { assert l in LiveListeners(st.listeners, removed); }
      }
    }
  }

  lemma {:induction false} ListenersGone(
    st: Status, o: Octavia, t: Timeouts, spec: Spec, removed: set<nat>, ls: seq<Listener>)
    requires forall id :: id in removed ==> forall p :: p in st.pools ==> p.listenerId != id
    requires ls == LiveListeners(st.listeners, removed)
    ensures var st', o' := st.(listeners := ls), WithoutListeners(o, removed);
            && (PoolsResolve(st) ==> PoolsResolve(st'))
            && (Linked(st, o) ==> Linked(st', o') && RoutesKept(st, st', spec))
            && (Linked(st, o) && AllReady(st.listeners, o.listeners, t, spec) ==> AllReady(ls, o'.listeners, t, spec))
  {
    ListenersDropped(st, o, spec, removed, ls);
    if Linked(st, o) { DroppedStaysReady(st, o, t, spec, removed); }
  }

  /** Octavia once it has a listener for the protocol and port of `ps`. */
  function WithListener(o: Octavia, ps: PortSpec): Octavia {
    var key := (ps.protocol, ps.port);
    if key in o.listeners then o
    else o.(listeners := o.listeners[key := o.next], next := o.next + 1)
  }

  /** The list with `l` appended, after a pass over it that removes an element with the id of `l`
      whenever it meets one; as the list shrinks under the iteration, the next element is skipped. */
  function Replace(ls: seq<Listener>, l: Listener): seq<Listener> {
    Sweep(ls, l.id, 0) + [l]
  }

  function Sweep(ls: seq<Listener>, id: nat, i: nat): (r: seq<Listener>)
    ensures forall x :: x in r ==> x in ls
    ensures forall x :: x in ls && x.id != id ==> x in r
    decreases |ls| - i
  {
    if i >= |ls| then ls
    else if ls[i].id == id then Sweep(RemoveFirst(ls, ls[i]), id, i + 1)
    else Sweep(ls, id, i + 1)
  }

  /** `list.remove` */
  function RemoveFirst(ls: seq<Listener>, l: Listener): (r: seq<Listener>)
    requires l in ls
    ensures |r| == |ls| - 1
    ensures forall x :: x in r ==> x in ls
    ensures forall x :: x in ls && x != l ==> x in r
  {
    assert ls == [ls[0]] + ls[1..];
    if ls[0] == l then ls[1..] else [ls[0]] + RemoveFirst(ls[1..], l)
  }

  ghost function Faces(ls: seq<Listener>): set<(nat, Protocol, int)> {
    set l | l in ls :: (l.id, l.protocol, l.port)
  }

  /** Each listener of `a` is in `b` with its id, protocol and port, and the ones that do not serve
      `ps` are unchanged. */
  ghost predicate ServeAlike(a: seq<Listener>, b: seq<Listener>, ps: PortSpec) {
    Faces(a) <= Faces(b) && forall l :: l in a && !Serves(l, ps) ==> l in b
  }

  lemma {:induction false} SweepUnique(ls: seq<Listener>, id: nat, i: nat)
    requires UniqueBy(ls, ListenerId) && forall j :: 0 <= j < i && j < |ls| ==> ls[j].id != id
    ensures UniqueBy(Sweep(ls, id, i), ListenerId)
    ensures forall x :: x in Sweep(ls, id, i) ==> x.id != id
    decreases |ls| - i
  {
    if i < |ls| {
      if ls[i].id == id {
        RemoveAt(ls, ls[i], FirstIndex(ls, ls[i]));
        OneRemoved(ls, i);
        SweepClean(ls[..i] + ls[i + 1..], id, i + 1);
      } else {
        SweepUnique(ls, id, i + 1);
      }
    }
  }

  lemma {:induction false} OneRemoved(ls: seq<Listener>, i: nat)
    requires UniqueBy(ls, ListenerId) && i < |ls|
    ensures FirstIndex(ls, ls[i]) == i
    ensures UniqueBy(ls[..i] + ls[i + 1..], ListenerId)
    ensures forall x :: x in ls[..i] + ls[i + 1..] ==> x.id != ls[i].id
  {
    var k, r := FirstIndex(ls, ls[i]), ls[..i] + ls[i + 1..];
    forall j | 0 <= j < i ensures ls[j] != ls[i] { assert ListenerId(ls[j]) != ListenerId(ls[i]); }
    assert forall j :: 0 <= j < |r| ==> r[j] == ls[if j < i then j else j + 1];
    forall j | 0 <= j < |r| ensures ListenerId(r[j]) != ListenerId(ls[i]) { }
  }

  function FirstIndex(ls: seq<Listener>, l: Listener): (k: nat)
    requires l in ls
    ensures k < |ls| && ls[k] == l && forall j :: 0 <= j < k ==> ls[j] != l
  {
    assert ls == [ls[0]] + ls[1..];
    if ls[0] == l then 0 else 1 + FirstIndex(ls[1..], l)
  }

  lemma {:induction false} RemoveAt(ls: seq<Listener>, l: Listener, k: nat)
    requires l in ls && k == FirstIndex(ls, l)
    ensures RemoveFirst(ls, l) == ls[..k] + ls[k + 1..]
  {
    if ls[0] != l {
      assert ls == [ls[0]] + ls[1..];
      RemoveAt(ls[1..], l, k - 1);
      assert [ls[0]] + (ls[1..][..k - 1] + ls[1..][k..]) == ls[..k] + ls[k + 1..];
    }
  }

  lemma {:induction false} SweepClean(ls: seq<Listener>, id: nat, i: nat)
    requires forall x :: x in ls ==> x.id != id
    ensures Sweep(ls, id, i) == ls
    decreases |ls| - i
  {
    if i < |ls| { SweepClean(ls, id, i + 1); }
  }

  lemma {:induction false} ListenerReplaced(st: Status, o: Octavia, ps: PortSpec, l: Listener, ls: seq<Listener>)
    requires Serves(l, ps) && ListenerLinked(l, WithListener(o, ps)) && ls == Replace(st.listeners, l)
    ensures l in ls && Ids(st.listeners) <= Ids(ls) && forall x :: x in ls ==> x in st.listeners || x == l
    ensures PoolsResolve(st) ==> PoolsResolve(st.(listeners := ls))
    ensures Linked(st, o) && st.lb.Some? ==>
            Linked(st.(listeners := ls), WithListener(o, ps)) && ServeAlike(st.listeners, ls, ps)
  {
    assert l == ls[|ls| - 1];
    forall x | x in st.listeners ensures x.id in Ids(ls) {
      if x.id != l.id { assert x in ls; }
    }
    forall p | p in st.pools && p.listenerId in Ids(st.listeners) ensures p.listenerId in Ids(ls) {
      assert p.listenerId in Ids(st.listeners);
    }
    if Linked(st, o) && st.lb.Some? {
      SweepUnique(st.listeners, l.id, 0);
      var o' := WithListener(o, ps);
      forall x | x in st.listeners
        ensures ListenerLinked(x, o') && (x.id == l.id ==> Serves(x, ps)) && (x.id, x.protocol, x.port) in Faces(ls)
      {
        assert ListenerLinked(x, o);
        if x.id != l.id { assert x in ls; }
      }
      forall p | p in st.pools ensures PoolLinked(p, o') { assert PoolLinked(p, o); }
    }
  }

  lemma {:induction false} IdsResolve(a: Status, b: Status)
    requires Ids(a.listeners) <= Ids(b.listeners) && b.pools == a.pools
    ensures PoolsResolve(a) ==> PoolsResolve(b)
  {
    forall p | p in b.pools && p.listenerId in Ids(a.listeners) ensures p.listenerId in Ids(b.listeners) {
      assert p.listenerId in Ids(a.listeners);
    }
  }

  lemma {:induction false} FacesKeepRoutes(a: Status, b: Status, spec: Spec)
    requires b.pools == a.pools
    ensures Faces(a.listeners) <= Faces(b.listeners) ==> RoutesKept(a, b, spec)
  {
    if Faces(a.listeners) <= Faces(b.listeners) {
      forall l, ps | l in a.listeners && Serves(l, ps)
        ensures exists l' :: l' in b.listeners && l'.id == l.id && Serves(l', ps)
      {
        assert (l.id, l.protocol, l.port) in Faces(b.listeners);
      }
      KeepRoutes(a, b, spec);
    }
  }

  /** Nothing changes for another spec port. */
  ghost predicate SameFor(
    a: seq<Listener>, b: seq<Listener>, known: Known, t: Timeouts, known': Known, t': Timeouts, spec: Spec,
    x: PortSpec) {
    (Served(a, spec, x) <==> Served(b, spec, x)) && (Skewed(known, t, spec, x) <==> Skewed(known', t', spec, x))
  }

  lemma {:induction false} ServedAlike(a: seq<Listener>, b: seq<Listener>, spec: Spec, ps: PortSpec, x: PortSpec)
    requires SpecOk(spec) && ServeAlike(a, b, ps) && (forall l :: l in b ==> l in a || Serves(l, ps))
    requires ps in spec.ports && x in spec.ports && x != ps
    ensures Served(a, spec, x) <==> Served(b, spec, x)
  {
    if Served(a, spec, x) {
      var l :| l in a && Serves(l, x) && Timed(l, spec);
      assert !Serves(l, ps);
    }
    if Served(b, spec, x) {
      var l :| l in b && Serves(l, x) && Timed(l, spec);
      assert !Serves(l, ps);
    }
  }

  /** Octavia changes for the protocol and port of `ps` only. */
  ghost predicate OnlyFor(known: Known, t: Timeouts, known': Known, t': Timeouts, ps: PortSpec) {
    var key := (ps.protocol, ps.port);
    && (forall k :: k != key ==> (k in known <==> k in known'))
    && (forall k :: k != key ==> (k in t <==> k in t')) && (forall k :: k != key && k in t ==> t'[k] == t[k])
  }

  /** What looking after spec port `ps` does to the listeners. */
  ghost predicate ListenerStep(
      st: Status, o: Octavia, t: Timeouts, st': Status, o': Octavia, t': Timeouts, spec: Spec, ps: PortSpec, ok: bool)
  {
    && st' == st.(listeners := st'.listeners)
    && Ids(st.listeners) <= Ids(st'.listeners)
    && (forall l :: l in st'.listeners ==> l in st.listeners || Serves(l, ps))
    && (Linked(st, o) && st.lb.Some? ==> Linked(st', o') && ServeAlike(st.listeners, st'.listeners, ps))
    && OnlyFor(o.listeners, t, o'.listeners, t', ps)
    && (ok ==> (Served(st'.listeners, spec, ps) <==> Ready(st.listeners, o.listeners, t, spec, ps)))
    && (ok ==> Ready(st'.listeners, o'.listeners, t', spec, ps))
  }

  /** The same for the spec ports `done`; the others are as they were. */
  ghost predicate ListenersAfter(
      st: Status, o: Octavia, t: Timeouts, st': Status, o': Octavia, t': Timeouts, spec: Spec, done: seq<PortSpec>,
      ok: bool)
  {
    && st' == st.(listeners := st'.listeners)
    && Ids(st.listeners) <= Ids(st'.listeners)
    && (forall l :: l in st'.listeners ==> l in st.listeners || InSpec(l, spec))
    && (Linked(st, o) && st.lb.Some? ==>
          && Linked(st', o') && Faces(st.listeners) <= Faces(st'.listeners)
          && (ok && SpecOk(spec) ==> forall ps :: ps in spec.ports ==>
             PortAfter(st, o, t, st', o', t', spec, done, ps)))
  }

  ghost predicate PortAfter(
      st: Status, o: Octavia, t: Timeouts, st': Status, o': Octavia, t': Timeouts, spec: Spec, done: seq<PortSpec>,
      ps: PortSpec)
  {
    if ps in done then
      && (Served(st'.listeners, spec, ps) <==> Ready(st.listeners, o.listeners, t, spec, ps))
      && Ready(st'.listeners, o'.listeners, t', spec, ps)
    else SameFor(st.listeners, st'.listeners, o.listeners, t, o'.listeners, t', spec, ps)
  }

  lemma {:induction false} OneMoreListener(
      st: Status, o: Octavia, t: Timeouts, st1: Status, o1: Octavia, t1: Timeouts,
      st2: Status, o2: Octavia, t2: Timeouts, spec: Spec, ports: seq<PortSpec>, i: nat, ok: bool)
    requires i < |ports| && (forall ps :: ps in ports ==> ps in spec.ports) &&
             (SpecOk(spec) ==> ports[i] !in ports[..i])
    requires ListenersAfter(st, o, t, st1, o1, t1, spec, ports[..i], ok)
    requires ListenerStep(st1, o1, t1, st2, o2, t2, spec, ports[i], ok)
    ensures ListenersAfter(st, o, t, st2, o2, t2, spec, ports[..i + 1], ok)
  {
    assert ports[..i + 1] == ports[..i] + [ports[i]];
    if Linked(st, o) && st.lb.Some? && ok && SpecOk(spec) {
      forall x | x in spec.ports ensures PortAfter(st, o, t, st2, o2, t2, spec, ports[..i + 1], x) {
        assert PortAfter(st, o, t, st1, o1, t1, spec, ports[..i], x);
        if x != ports[i] { OtherPort(st1, o1, t1, st2, o2, t2, spec, ports[i], x); }
      }
    }
  }

  lemma {:induction false} OtherPort(
      st: Status, o: Octavia, t: Timeouts, st': Status, o': Octavia, t': Timeouts, spec: Spec, ps: PortSpec,
      x: PortSpec)
    requires SpecOk(spec) && ps in spec.ports && x in spec.ports && x != ps
    requires ServeAlike(st.listeners, st'.listeners, ps) && OnlyFor(o.listeners, t, o'.listeners, t', ps)
    requires forall l :: l in st'.listeners ==> l in st.listeners || Serves(l, ps)
    ensures SameFor(st.listeners, st'.listeners, o.listeners, t, o'.listeners, t', spec, x)
  {
    ServedAlike(st.listeners, st'.listeners, spec, ps, x);
    assert (x.protocol, x.port) != (ps.protocol, ps.port);
  }

  lemma {:induction false} AllPortsAfter(
      st: Status, o: Octavia, t: Timeouts, st': Status, o': Octavia, t': Timeouts, spec: Spec, ports: seq<PortSpec>)
    requires forall ps :: ps in spec.ports ==> ps in ports && PortAfter(st, o, t, st', o', t', spec, ports, ps)
    ensures AllServed(st'.listeners, spec) <==> AllReady(st.listeners, o.listeners, t, spec)
    ensures AllReady(st'.listeners, o'.listeners, t', spec)
  {
    forall ps | ps in spec.ports
      ensures (Served(st'.listeners, spec, ps) <==> Ready(st.listeners, o.listeners, t, spec, ps)) &&
              Ready(st'.listeners, o'.listeners, t', spec, ps)
    {
      assert PortAfter(st, o, t, st', o', t', spec, ports, ps);
    }
  }

  lemma {:induction false} ListenersDone(
      st: Status, o: Octavia, t: Timeouts, st': Status, o': Octavia, t': Timeouts, spec: Spec, ports: seq<PortSpec>,
      i: nat, ok: bool)
    requires i <= |ports| && (ok ==> i == |ports|) && ListenersAfter(st, o, t, st', o', t', spec, ports[..i], ok)
    requires forall ps :: ps in spec.ports ==> ps in ports
    ensures PoolsResolve(st) ==> PoolsResolve(st')
    ensures Linked(st, o) && st.lb.Some? ==> Linked(st', o') && RoutesKept(st, st', spec)
    ensures Linked(st, o) && st.lb.Some? && ok && SpecOk(spec) ==>
              && (AllServed(st'.listeners, spec) <==> AllReady(st.listeners, o.listeners, t, spec))
              && AllReady(st'.listeners, o'.listeners, t', spec)
  {
    IdsResolve(st, st');
    FacesKeepRoutes(st, st', spec);
    if Linked(st, o) && st.lb.Some? && ok && SpecOk(spec) {
      assert ports[..i] == ports;
      AllPortsAfter(st, o, t, st', o', t', spec, ports);
    }
  }

  lemma {:induction false} FilterDistinct(s: seq<PortSpec>, f: PortSpec -> bool)
    requires forall i, j :: 0 <= i < j < |s| ==> s[i] != s[j]
    ensures forall i, j :: 0 <= i < j < |Filter(s, f)| ==> Filter(s, f)[i] != Filter(s, f)[j]
  {
    if s != [] {
      FilterDistinct(s[1..], f);
      var rest := Filter(s[1..], f);
      forall j | 0 <= j < |rest| ensures rest[j] != s[0] { assert rest[j] in s[1..]; }
    }
  }

  lemma {:induction false} ByProtocolDistinct(ports: seq<PortSpec>)
    requires forall i, j :: 0 <= i < j < |ports| ==> ports[i] != ports[j]
    ensures forall i, j :: 0 <= i < j < |ByProtocol(ports)| ==> ByProtocol(ports)[i] != ByProtocol(ports)[j]
  {
    FilterDistinct(ports, (ps: PortSpec) => ps.protocol == SCTP);
    FilterDistinct(ports, (ps: PortSpec) => ps.protocol == TCP);
    FilterDistinct(ports, (ps: PortSpec) => ps.protocol == UDP);
    var a := Filter(ports, (ps: PortSpec) => ps.protocol == SCTP);
    var b := Filter(ports, (ps: PortSpec) => ps.protocol == TCP);
    var c := Filter(ports, (ps: PortSpec) => ps.protocol == UDP);
    ConcatDistinct(a, b);
    ConcatDistinct(a + b, c);
  }

  lemma {:induction false} ConcatDistinct(a: seq<PortSpec>, b: seq<PortSpec>)
    requires forall i, j :: 0 <= i < j < |a| ==> a[i] != a[j]
    requires forall i, j :: 0 <= i < j < |b| ==> b[i] != b[j]
    requires forall x :: x in a ==> x !in b
    ensures forall i, j :: 0 <= i < j < |a + b| ==> (a + b)[i] != (a + b)[j]
  {
    forall i, j | 0 <= i < |a| && 0 <= j < |b| ensures a[i] != b[j] { assert a[i] in a && b[j] in b; }
  }

  /** Octavia once the listener has a pool. */
  function WithPool(o: Octavia, listenerId: nat): Octavia {
    if listenerId in o.pools then o
    else o.(pools := o.pools[listenerId := o.next], next := o.next + 1)
  }

  /** What looking after listener `l` does to the pools, `current` being the listeners that had one. */
  ghost predicate PoolStep(st: Status, o: Octavia, st': Status, o': Octavia, current: set<nat>, l: Listener, ok: bool) {
    if l.id !in current && (ok || st' != st) then
      o' == WithPool(o, l.id) && st' == st.(pools := st.pools + [Pool(o'.pools[l.id], l.id)])
    else
      st' == st && o' == o
  }

  /** The same for the first `i` listeners. */
  ghost predicate PoolsAfter(st: Status, o: Octavia, st': Status, o': Octavia, current: set<nat>, i: nat, ok: bool)
    requires i <= |st.listeners|
  {
    && st' == st.(pools := st'.pools) && st.pools <= st'.pools
    && (Ids(st.listeners) <= current ==> st' == st && o' == o)
    && (PoolsResolve(st) ==> PoolsResolve(st'))
    && (MembersResolve(st) ==> MembersResolve(st'))
    && (ok ==> Ids(st.listeners[..i]) <= Owners(st'.pools))
    && (Linked(st, o) && st.lb.Some? ==> Linked(st', o') && PoolsFor(st.listeners[..i], st'.pools, current))
  }

  ghost predicate PoolsFor(ls: seq<Listener>, pools: seq<Pool>, current: set<nat>) {
    forall p :: p in pools ==> p.listenerId in current || p.listenerId in Ids(ls)
  }

  lemma {:induction false} OneMorePool(
      st: Status, o: Octavia, st1: Status, o1: Octavia, st2: Status, o2: Octavia, current: set<nat>, i: nat, ok: bool)
    requires i < |st.listeners| && PoolsAfter(st, o, st1, o1, current, i, ok)
    requires PoolStep(st1, o1, st2, o2, current, st.listeners[i], ok)
    requires current == Owners(st.pools)
    ensures PoolsAfter(st, o, st2, o2, current, i + 1, ok)
  {
    var l := st.listeners[i];
    assert st.listeners[..i + 1] == st.listeners[..i] + [l];
    assert forall p :: p in st1.pools ==> p in st2.pools;
    assert Ids(st.listeners[..i + 1]) == Ids(st.listeners[..i]) + {l.id};
    assert Owners(st.pools) <= Owners(st1.pools) <= Owners(st2.pools) by {
           assert forall p :: p in st.pools ==> p in st1.pools; }
    assert ok ==> l.id in Owners(st2.pools) by {
      if ok && l.id !in current { assert st2.pools[|st1.pools|] in st2.pools; }
    }
    PoolsStillResolve(st, st1, st2, l);
    if Linked(st, o) && st.lb.Some? && st2 != st1 {
      PoolAppended(st1, o1, st2, o2, st.listeners[..i], current, l);
    }
  }

  lemma {:induction false} PoolsStillResolve(st: Status, st1: Status, st2: Status, l: Listener)
    requires st1 == st.(pools := st1.pools) && st2 == st.(pools := st2.pools) && l in st.listeners
    requires forall p :: p in st2.pools ==> p in st1.pools || p.listenerId == l.id
    requires forall p :: p in st1.pools ==> p in st2.pools
    ensures PoolsResolve(st1) ==> PoolsResolve(st2)
    ensures MembersResolve(st1) ==> MembersResolve(st2)
  {
    forall p | p in st2.pools && PoolsResolve(st1) ensures p.listenerId in Ids(st.listeners) {
      if p in st1.pools { assert p.listenerId in Ids(st1.listeners); }
    }
    forall m | m in st.members && MembersResolve(st1) ensures m.poolId in PoolIds(st2.pools) {
      assert m.poolId in PoolIds(st1.pools);
    }
  }

  lemma {:induction false} PoolAppended(
    st1: Status, o1: Octavia, st2: Status, o2: Octavia, done: seq<Listener>, current: set<nat>, l: Listener)
    requires Linked(st1, o1) && st1.lb.Some? && PoolsFor(done, st1.pools, current)
    requires l.id !in current && l in st1.listeners && done + [l] <= st1.listeners
    requires o2 == WithPool(o1, l.id) && st2 == st1.(pools := st1.pools + [Pool(o2.pools[l.id], l.id)])
    ensures Linked(st2, o2)
  {
    forall x | x in done ensures x.id != l.id {
      var j :| 0 <= j < |done| && done[j] == x;
      assert st1.listeners[j] == x && st1.listeners[|done|] == l;
      assert ListenerId(st1.listeners[j]) != ListenerId(st1.listeners[|done|]);
    }
    assert ListenerLinked(l, o1);
    forall p | p in st1.pools ensures p.listenerId != l.id && PoolLinked(p, o2) {
      assert PoolLinked(p, o1);
    }
    forall x | x in st1.listeners ensures ListenerLinked(x, o2) { assert ListenerLinked(x, o1); }
    forall a, b | 0 <= a < b < |st2.pools| ensures PoolListener(st2.pools[a]) != PoolListener(st2.pools[b]) {
      assert st2.pools[a] in st1.pools;
      if b < |st1.pools| { assert PoolListener(st1.pools[a]) != PoolListener(st1.pools[b]); }
    }
  }

  ghost predicate PortPool(ls: seq<Listener>, pools: seq<Pool>, key: (Protocol, int), id: nat) {
    exists p, l :: p in pools && l in ls && p.id == id && l.id == p.listenerId && (l.protocol, l.port) == key
  }

  ghost predicate FromPort(spec: Spec, byPort: map<(Protocol, int), nat>, name: string, id: nat) {
    exists ps :: ps in spec.ports && ps.name == name && (ps.protocol, ps.port) in byPort &&
      byPort[(ps.protocol, ps.port)] == id
  }

  lemma {:induction false} FromPortRoutes(
      ls: seq<Listener>, pools: seq<Pool>, spec: Spec, byPort: map<(Protocol, int), nat>, name: string, id: nat)
    requires forall key :: key in byPort ==> PortPool(ls, pools, key, byPort[key])
    requires FromPort(spec, byPort, name, id)
    ensures Routes(ls, pools, spec, name, id)
  {
    var ps :| ps in spec.ports && ps.name == name && (ps.protocol, ps.port) in byPort &&
      byPort[(ps.protocol, ps.port)] == id;
    assert PortPool(ls, pools, (ps.protocol, ps.port), id);
    var p, l :| p in pools && l in ls && p.id == id && l.id == p.listenerId &&
      (l.protocol, l.port) == (ps.protocol, ps.port);
    assert Serves(l, ps);
  }

  lemma {:induction false} FromPortsRoute(
      ls: seq<Listener>, pools: seq<Pool>, spec: Spec, byPort: map<(Protocol, int), nat>, f: map<string, nat>)
    requires forall key :: key in byPort ==> PortPool(ls, pools, key, byPort[key])
    requires forall name :: name in f ==> FromPort(spec, byPort, name, f[name])
    ensures forall name :: name in f ==> Routes(ls, pools, spec, name, f[name])
  {
    forall name | name in f ensures Routes(ls, pools, spec, name, f[name]) {
      FromPortRoutes(ls, pools, spec, byPort, name, f[name]);
    }
  }

  lemma {:induction false} RoutesAreNamed(
      ls: seq<Listener>, pools: seq<Pool>, spec: Spec, byId: map<nat, Listener>, byPort: map<(Protocol, int), nat>,
      f: map<string, nat>)
    requires forall id :: id in byId ==> byId[id] in ls && byId[id].id == id
    requires forall p :: p in pools ==>
             p.listenerId in byId && (byId[p.listenerId].protocol, byId[p.listenerId].port) in byPort
    requires forall ps :: ps in spec.ports && (ps.protocol, ps.port) in byPort ==> ps.name in f
    ensures Orderly(ls, spec) ==> forall name, id :: Routes(ls, pools, spec, name, id) ==> name in f
  {
    forall name, id | Orderly(ls, spec) && Routes(ls, pools, spec, name, id) ensures name in f {
      var p, l, ps :| p in pools && l in ls && ps in spec.ports && p.id == id && l.id == p.listenerId &&
        Serves(l, ps) && ps.name == name;
      assert byId[p.listenerId] == l;
    }
  }

  /** The member `ensure_member` returns for an endpoint and a slice port. */
  function NewMember(spec: Spec, f: map<string, nat>, e: Endpoint, sp: SlicePort, id: nat): Member
    requires sp.name in f
  {
    Member(id, MemberName(TargetNamespace(spec, e), TargetName(spec, e), sp.port), e.address, sp.port, f[sp.name])
  }

  /** A new member has the endpoint's address and the slice's port, and is named after the pod the endpoint
      refers to, or after the Service. */
  lemma {:induction false} NamedAfterTarget(
    spec: Spec, f: map<string, nat>, s: Slice, e: Endpoint, sp: SlicePort, id: nat)
    requires SpecOk(spec) && s in spec.slices && e in s.endpoints && sp.name in f
    ensures var m := NewMember(spec, f, e, sp, id);
            && m.ip == e.address && m.port == sp.port && m.poolId == f[sp.name]
            && PodName(m.name) == (if e.target.Some? then e.target.value.name else spec.name)
            && Before(m.name, '/') == if e.target.Some? then e.target.value.namespace else spec.namespace
  {
    PlainTarget(spec, s, e);
    MemberNameParsesBack(TargetNamespace(spec, e), TargetName(spec, e), sp.port);
    var rest := TargetName(spec, e) + ":" + if sp.port < 0 then "-" + Decimal(-sp.port) else Decimal(sp.port);
    assert MemberName(TargetNamespace(spec, e), TargetName(spec, e), sp.port) ==
           TargetNamespace(spec, e) + ['/'] + rest;
    BeforeOf(TargetNamespace(spec, e), '/', rest);
  }

  /** The target of `e` and `sp`, if its port has a pool, is in `have`. */
  ghost predicate Covered(f: map<string, nat>, have: set<(string, int, nat)>, e: Endpoint, sp: SlicePort) {
    sp.name in f ==> (e.address, sp.port, f[sp.name]) in have
  }

  /** `b` is `a` with members appended that endpoints of the spec ask for. */
  ghost predicate MembersAdded(spec: Spec, f: map<string, nat>, a: seq<Member>, b: seq<Member>) {
    a <= b && forall i :: |a| <= i < |b| ==> AskedFor(spec, f, b[i])
  }

  ghost predicate AskedFor(spec: Spec, f: map<string, nat>, m: Member) {
    exists s, e, sp :: s in spec.slices && e in s.endpoints && sp in s.ports && sp.name in f &&
      m == NewMember(spec, f, e, sp, m.id)
  }

  ghost predicate SliceCovered(f: map<string, nat>, have: set<(string, int, nat)>, s: Slice) {
    forall e, sp :: e in s.endpoints && sp in s.ports ==> Covered(f, have, e, sp)
  }

  lemma {:induction false} MoreTargets(a: seq<Member>, b: seq<Member>)
    requires a <= b
    ensures Targets(a) <= Targets(b)
  {
    assert forall m :: m in a ==> m in b;
  }

  lemma {:induction false} OneMoreSlice(
    f: map<string, nat>, a: set<(string, int, nat)>, b: set<(string, int, nat)>, slices: seq<Slice>, i: nat)
    requires i < |slices| && a <= b && SliceCovered(f, b, slices[i])
    requires forall j :: 0 <= j < i ==> SliceCovered(f, a, slices[j])
    ensures forall j :: 0 <= j < i + 1 ==> SliceCovered(f, b, slices[j])
  {
    forall j | 0 <= j < i ensures SliceCovered(f, b, slices[j]) {
      assert SliceCovered(f, a, slices[j]);
    }
  }

  lemma {:induction false} RoutedPools(ls: seq<Listener>, pools: seq<Pool>, spec: Spec, f: map<string, nat>)
    requires RouteMap(ls, pools, spec, f)
    ensures f.Values <= PoolIds(pools)
  {
    forall id | id in f.Values ensures id in PoolIds(pools) {
      var name :| name in f && f[name] == id;
      assert Routes(ls, pools, spec, name, id);
    }
  }

  /** A member written for an endpoint is one the next pass keeps: its name parses back. */
  lemma {:induction false} AskedForIsWanted(st: Status, spec: Spec, f: map<string, nat>, m: Member)
    requires RouteMap(st.listeners, st.pools, spec, f) && SpecOk(spec) && AskedFor(spec, f, m)
    ensures MemberWanted(st.listeners, st.pools, spec, m)
  {
    var s, e, sp :| s in spec.slices && e in s.endpoints && sp in s.ports && sp.name in f &&
      m == NewMember(spec, f, e, sp, m.id);
    PlainTarget(spec, s, e);
    MemberNameParsesBack(TargetNamespace(spec, e), TargetName(spec, e), sp.port);
    assert Routes(st.listeners, st.pools, spec, sp.name, m.poolId);
  }

  lemma {:induction false} PlainTarget(spec: Spec, s: Slice, e: Endpoint)
    requires SpecOk(spec) && s in spec.slices && e in s.endpoints
    ensures Plain(TargetNamespace(spec, e)) && Plain(TargetName(spec, e))
  { }

  lemma {:induction false} AddedAreWanted(st: Status, st': Status, spec: Spec, f: map<string, nat>)
    requires RouteMap(st.listeners, st.pools, spec, f) && MembersAdded(spec, f, st.members, st'.members)
    requires st' == st.(members := st'.members) && SpecOk(spec) && MembersWanted(st, spec)
    ensures MembersWanted(st', spec)
  {
    forall i | 0 <= i < |st'.members| ensures MemberWanted(st'.listeners, st'.pools, spec, st'.members[i]) {
      var m := st'.members[i];
      if i < |st.members| {
        assert m == st.members[i] && m in st.members;
      } else {
        AskedForIsWanted(st, spec, f, m);
      }
    }
  }

  lemma {:induction false} CoveredIsPresent(st: Status, st': Status, o: Octavia, spec: Spec, f: map<string, nat>)
    requires Linked(st, o) && SpecOk(spec) && RouteMap(st.listeners, st.pools, spec, f)
    requires st' == st.(members := st'.members) && st.members <= st'.members
    requires forall s :: s in spec.slices ==> SliceCovered(f, Targets(st.members) + Targets(st'.members), s)
    ensures AllWantedPresent(st', spec)
  {
    LinkedIsUnique(st, o);
    assert Orderly(st.listeners, spec);
    forall ip, pod, port, id: nat | Wanted(st'.listeners, st'.pools, spec, ip, pod, port, id)
      ensures (ip, port, id) in Targets(st'.members)
    {
      var s, e, sp :| s in spec.slices && e in s.endpoints && sp in s.ports && e.address == ip &&
                      TargetName(spec, e) == pod && sp.port == port &&
                        Routes(st.listeners, st.pools, spec, sp.name, id);
      OneRoute(st, o, spec, sp.name, id, f[sp.name]);
      assert Covered(f, Targets(st.members) + Targets(st'.members), e, sp);
      MoreTargets(st.members, st'.members);
    }
  }

  /** What appending members asked for does, and what it does when every target is then covered. */
  lemma {:induction false} MembersFinished(
    st: Status, st': Status, o: Octavia, spec: Spec, f: map<string, nat>, all: bool)
    requires RouteMap(st.listeners, st.pools, spec, f) && MembersAdded(spec, f, st.members, st'.members)
    requires st' == st.(members := st'.members)
    requires all ==> forall s :: s in spec.slices ==> SliceCovered(f, Targets(st.members) + Targets(st'.members), s)
    ensures Named(st.members) ==> Named(st'.members)
    ensures st.lb.Some? && Linked(st, o) ==> Linked(st', o)
    ensures SpecOk(spec) && MembersWanted(st, spec) ==> MembersWanted(st', spec)
    ensures Linked(st, o) && SpecOk(spec) && all ==> AllWantedPresent(st', spec)
  {
    if Named(st.members) { AddedAreNamed(spec, f, st.members, st'.members); }
    if SpecOk(spec) && MembersWanted(st, spec) { AddedAreWanted(st, st', spec, f); }
    if Linked(st, o) && SpecOk(spec) && all { CoveredIsPresent(st, st', o, spec, f); }
  }

  lemma {:induction false} PresentIsCovered(st: Status, spec: Spec, f: map<string, nat>)
    requires RouteMap(st.listeners, st.pools, spec, f)
    ensures AllWantedPresent(st, spec) ==> forall s :: s in spec.slices ==> SliceCovered(f, Targets(st.members), s)
  {
    forall s, e, sp | AllWantedPresent(st, spec) && s in spec.slices && e in s.endpoints && sp in s.ports &&
      sp.name in f
      ensures Covered(f, Targets(st.members), e, sp)
    {
      assert Routes(st.listeners, st.pools, spec, sp.name, f[sp.name]);
      assert Wanted(st.listeners, st.pools, spec, e.address, TargetName(spec, e), sp.port, f[sp.name]);
    }
  }

  /** Nothing is listed without a load balancer. */
  ghost predicate Startable(st: Status) {
    st.lb.None? ==> st.listeners == [] && st.pools == [] && st.members == []
  }

  /** Every member name has the slash that splits off the namespace. */
  ghost predicate Named(members: seq<Member>) {
    forall m :: m in members ==> '/' in m.name
  }

  lemma {:induction false} AddedAreNamed(spec: Spec, f: map<string, nat>, a: seq<Member>, b: seq<Member>)
    requires MembersAdded(spec, f, a, b) && Named(a)
    ensures Named(b)
  {
    forall i | 0 <= i < |b| ensures '/' in b[i].name {
      if i < |a| {
        assert b[i] == a[i] && a[i] in a;
      } else {
        assert AskedFor(spec, f, b[i]);
        var s, e, sp :| s in spec.slices && e in s.endpoints && sp in s.ports && sp.name in f &&
          b[i] == NewMember(spec, f, e, sp, b[i].id);
        assert b[i].name[|TargetNamespace(spec, e)|] == '/';
      }
    }
  }

  /** A listener that kept a pool of the spec is itself of the spec. */
  lemma {:induction false} KeptListenersInSpec(st: Status, o: Octavia, spec: Spec)
    requires Linked(st, o) && PoolsInSpec(st.pools, st.listeners, spec)
    ensures forall l :: l in st.listeners && l.id in Owners(st.pools) ==> InSpec(l, spec)
  {
    LinkedIsUnique(st, o);
    forall l | l in st.listeners && l.id in Owners(st.pools) ensures InSpec(l, spec) {
      var p :| p in st.pools && p.listenerId == l.id;
      var ps := PortInPool(p, st.listeners, spec.ports).value;
      var l' :| l' in st.listeners && l'.id == p.listenerId && Serves(l', ps);
      assert l' == l;
    }
  }

  lemma {:induction false} ResolvedPoolsInSpec(st: Status, spec: Spec)
    requires PoolsResolve(st) && forall l :: l in st.listeners ==> InSpec(l, spec)
    ensures PoolsInSpec(st.pools, st.listeners, spec)
  {
    forall p | p in st.pools ensures PoolInSpec(p, st.listeners, spec) {
      assert p.listenerId in Ids(st.listeners);
      var l :| l in st.listeners && l.id == p.listenerId;
      assert InSpec(l, spec);
    }
  }

  lemma {:induction false} MorePoolsKeepRoutes(a: Status, b: Status, spec: Spec)
    requires b == a.(pools := b.pools) && a.pools <= b.pools
    ensures RoutesKept(a, b, spec) && (MembersResolve(a) ==> MembersResolve(b))
  {
    assert forall p :: p in a.pools ==> p in b.pools;
    KeepRoutes(a, b, spec);
    forall m | m in a.members && MembersResolve(a) ensures m.poolId in PoolIds(b.pools) {
      assert m.poolId in PoolIds(a.pools);
    }
  }

  lemma {:induction false} RoutesKeptTwice(a: Status, b: Status, c: Status, spec: Spec)
    ensures RoutesKept(a, b, spec) && RoutesKept(b, c, spec) ==> RoutesKept(a, c, spec)
  { }

  /** Listeners synchronised, pools added. */
  lemma {:induction false} StagesKeepRoutes(a: Status, b: Status, c: Status, spec: Spec)
    requires c == b.(pools := c.pools) && b.pools <= c.pools
    ensures RoutesKept(a, b, spec) ==> RoutesKept(a, c, spec)
    ensures MembersResolve(b) ==> MembersResolve(c)
  {
    MorePoolsKeepRoutes(b, c, spec);
    RoutesKeptTwice(a, b, c, spec);
  }

  class LoadBalancerCrd {
    const spec: Spec
    const env: Env
    var lb: Option<string>
    var listeners: seq<Listener>
    var pools: seq<Pool>
    var members: seq<Member>
    var octavia: Octavia
    var timeouts: Timeouts            // of Octavia's listeners
    var calls: nat                    // remote calls so far
    ghost var writes: nat             // remote calls that create, release or patch
    ghost var sound: bool             // every status handed to the API so far had its ids resolve
    ghost var failed: nat             // patches that failed

    constructor (spec: Spec, env: Env, octavia: Octavia, timeouts: Timeouts)
      ensures this.spec == spec && this.env == env && this.octavia == octavia && this.timeouts == timeouts
      ensures S() == Status(None, [], [], []) && sound && writes == 0 && failed == 0
    {
      this.spec, this.env, this.octavia, this.timeouts := spec, env, octavia, timeouts;
      lb, listeners, pools, members, calls := None, [], [], [], 0;
      writes, sound, failed := 0, true, 0;
    }

    ghost function S(): Status
      reads this
    {
      Status(lb, listeners, pools, members)
    }

    ghost predicate PortsReady()
      reads this
    {
      AllReady(listeners, octavia.listeners, timeouts, spec)
    }

    ghost predicate AllOk() { env.sctp && forall n :: env.ok(n) }

    /** A remote call with no effect that this model sees. */
    method Call() returns (ok: bool)
      modifies this`calls
      ensures (AllOk() ==> ok) && ok == env.ok(old(calls)) && calls == old(calls) + 1
    {
      ok := env.ok(calls);
      calls := calls + 1;
    }

    method PatchStatus() returns (ok: bool)
      modifies this`calls, this`writes, this`sound, this`failed
      ensures sound == (old(sound) && Integrity(S())) && writes == old(writes) + 1
      ensures failed == old(failed) + if ok then 0 else 1
      ensures AllOk() ==> ok
    {
      ok := env.ok(calls);
      calls, writes, sound := calls + 1, writes + 1, sound && Integrity(S());
      failed := if ok then failed else failed + 1;
    }

    /** Maps the name of each served spec port to the pool that serves it, later pools winning. */
    method SpecPorts() returns (f: map<string, nat>)
      ensures RouteMap(listeners, pools, spec, f)
    {
      f := map[];
      for i := 0 to |pools|
        invariant forall name :: name in f ==> Routes(listeners, pools, spec, name, f[name])
        invariant Orderly(listeners, spec) ==>
                    forall p, l, ps ::
                      p in pools[..i] && l in listeners && l.id == p.listenerId && ps in spec.ports && Serves(l, ps) ==>
                        ps.name in f
      {
        var port := PortInPool(pools[i], listeners, spec.ports);
        assert pools[..i + 1] == pools[..i] + [pools[i]];
        if port.Some? {
          assert Routes(listeners, pools, spec, port.value.name, pools[i].id);
          f := f[port.value.name := pools[i].id];
        }
      }
      assert pools[..|pools|] == pools;
    }

    method ReleaseUnusedMembers(f: map<string, nat>) returns (removed: set<nat>)
      modifies this`calls, this`writes
      ensures forall m :: m in members && m.id !in removed ==> MemberIsTarget(spec, f, m) || m.ip in spec.keep
      ensures forall id :: id in removed ==>
                exists m :: m in members && m.id == id && !MemberIsTarget(spec, f, m) && m.ip !in spec.keep
      ensures removed == {} ==> writes == old(writes)
    {
      removed := {};
      for i := 0 to |members|
        invariant removed == {} ==> writes == old(writes)
        invariant forall m :: m in members[..i] && m.id !in removed ==> MemberIsTarget(spec, f, m) || m.ip in spec.keep
        invariant forall id :: id in removed ==>
                    exists m :: m in members && m.id == id && !MemberIsTarget(spec, f, m) && m.ip !in spec.keep
      {
        var m := members[i];
        assert members[..i + 1] == members[..i] + [m];
        if !MemberIsTarget(spec, f, m) && m.ip !in spec.keep {
          calls, writes := calls + 1, writes + 1;
          assert m in members;
          removed := removed + {m.id};
        }
      }
      assert members[..|members|] == members;
    }

    method DropMembers(removed: set<nat>) returns (changed: bool)
      modifies this`members, this`calls, this`writes, this`sound, this`failed
      ensures forall m :: m in members <==> m in old(members) && m.id !in removed
      ensures AllOk() && S() != old(S()) ==> changed
      ensures removed == {} ==> members == old(members) && !changed && writes == old(writes)
      ensures old(sound && Integrity(S())) ==> sound
    {
      changed := false;
      if removed != {} {
        members := Filter(members, (m: Member) => m.id !in removed);
        changed := PatchStatus();
      }
    }

    /** Releases the members that no endpoint asks for and returns their ids. */
    method ReleaseUnwanted() returns (removed: set<nat>)
      modifies this`calls, this`writes
      ensures forall m :: m in members && m.id !in removed && m.ip !in spec.keep ==>
                MemberWanted(listeners, pools, spec, m) && m.poolId in PoolIds(pools)
      ensures Linked(S(), octavia) && SpecOk(spec) ==> forall id :: id in removed ==> !AllJustified(S(), spec, id)
      ensures removed == {} ==> writes == old(writes)
    {
      var f := SpecPorts();
      ghost var st := S();
      forall m | MemberIsTarget(spec, f, m)
        ensures MemberWanted(listeners, pools, spec, m) && m.poolId in PoolIds(pools)
      {
        TargetsAreWanted(listeners, pools, spec, f, m);
      }
      if Linked(st, octavia) && SpecOk(spec) { WantedAreTargets(st, octavia, spec, f); }
      removed := ReleaseUnusedMembers(f);
    }

    /** `_remove_unused_members` */
    method RemoveUnusedMembers() returns (changed: bool)
      requires Named(members)
      modifies this`members, this`calls, this`writes, this`sound, this`failed
      ensures forall m :: m in members ==> m in old(members)
      ensures AllOk() && S() != old(S()) ==> changed
      ensures old(Startable(S())) ==> Startable(S())
      ensures Linked(old(S()), octavia) ==> Linked(S(), octavia)
      ensures forall m :: m in members ==> Justified(S(), spec, m)
      ensures Linked(old(S()), octavia) && SpecOk(spec) ==>
                forall m :: m in old(members) && old(AllJustified(S(), spec, m.id)) ==> m in members
      ensures spec.keep == {} ==> MembersWanted(S(), spec) && MembersResolve(S())
      ensures old(MembersResolve(S())) ==> MembersResolve(S())
      ensures old(sound && Integrity(S())) ==> sound
      ensures Linked(old(S()), octavia) && SpecOk(spec) && old(MembersWanted(S(), spec)) ==>
                members == old(members) && !changed && writes == old(writes)
    {
      ghost var st := S();
      var removed := ReleaseUnwanted();
      if Linked(st, octavia) && SpecOk(spec) && MembersWanted(st, spec) {
        forall id ensures id !in removed { assert AllJustified(st, spec, id); }
        assert removed == {};
      }
      changed := DropMembers(removed);
      assert members != [] ==> members[0] in old(members);
    }

    // ---- pools ----

    method ReleaseUnusedPools() returns (removed: set<nat>)
      modifies this`calls, this`writes, this`octavia
      ensures forall p :: p in pools && !PoolInSpec(p, listeners, spec) ==> p.id in removed
      ensures forall id :: id in removed ==> exists p :: p in pools && p.id == id && !PoolInSpec(p, listeners, spec)
      ensures octavia == WithoutPools(old(octavia), removed)
      ensures removed == {} ==> writes == old(writes)
    {
      removed := {};
      for i := 0 to |pools|
        invariant forall p :: p in pools[..i] && !PoolInSpec(p, listeners, spec) ==> p.id in removed
        invariant forall id :: id in removed ==>
                  exists p :: p in pools[..i] && p.id == id && !PoolInSpec(p, listeners, spec)
        invariant octavia == WithoutPools(old(octavia), removed)
        invariant removed == {} ==> writes == old(writes)
      {
        assert pools[..i + 1] == pools[..i] + [pools[i]];
        if !PoolInSpec(pools[i], listeners, spec) {
          calls, writes := calls + 1, writes + 1;
          octavia := WithoutPools(octavia, {pools[i].id});
          removed := removed + {pools[i].id};
        }
      }
      assert pools[..|pools|] == pools;
    }

    /** `_remove_unused_pools`. Whatever the lists held before, the pools it leaves resolve. */
    method RemoveUnusedPools() returns (changed: bool)
      modifies this`pools, this`members, this`calls, this`writes, this`sound, this`failed, this`octavia
      ensures AllOk() && S() != old(S()) ==> changed
      ensures PoolsInSpec(pools, listeners, spec) && forall p :: p in pools ==> p in old(pools)
      ensures forall m :: m in members ==> m in old(members)
      ensures forall m :: m in old(members) && old(PoolStays(S(), spec, m.poolId)) ==> m in members
      ensures PoolsResolve(S()) && (old(MembersResolve(S())) ==> MembersResolve(S()))
      ensures old(sound && MembersResolve(S())) ==> sound
      ensures octavia.listeners == old(octavia.listeners)
      ensures old(Linked(S(), octavia)) ==> Linked(S(), octavia) && RoutesKept(old(S()), S(), spec)
      ensures PoolsInSpec(old(pools), listeners, spec) ==>
                S() == old(S()) && octavia == old(octavia) && !changed && writes == old(writes)
    {
      ghost var st, o := S(), octavia;
      var removed := ReleaseUnusedPools();
      assert removed == {} ==> octavia == o;
      changed := DropPools(removed);
      assert S() == st.(pools := pools, members := members) && octavia == WithoutPools(o, removed);
      PoolsDropped(st, o, spec, removed, pools, members);
    }

    method DropPools(removed: set<nat>) returns (changed: bool)
      modifies this`pools, this`members, this`calls, this`writes, this`sound, this`failed
      ensures AllOk() && S() != old(S()) ==> changed
      ensures pools == LivePools(old(pools), removed)
      ensures forall m :: m in members <==> m in old(members) && m.poolId !in removed
      ensures removed == {} ==> members == old(members) && !changed && writes == old(writes)
      ensures sound == (old(sound) && (removed == {} || Integrity(S())))
    {
      changed := false;
      if removed != {} {
        pools := LivePools(pools, removed);
        members := Filter(members, (m: Member) => m.poolId !in removed);
        changed := PatchStatus();
      }
    }

    // ---- listeners ----

    method ReleaseUnusedListeners() returns (removed: set<nat>)
      modifies this`calls, this`writes, this`octavia
      ensures forall l :: l in listeners && l.id !in Owners(pools) ==> l.id in removed
      ensures removed <= Ids(listeners) && forall id :: id in removed ==> forall p :: p in pools ==> p.listenerId != id
      ensures Ids(listeners) <= Owners(pools) ==> removed == {}
      ensures octavia == WithoutListeners(old(octavia), removed)
      ensures removed == {} ==> writes == old(writes)
    {
      var used := Owners(pools);
      removed := {};
      for i := 0 to |listeners|
        invariant forall l :: l in listeners[..i] && l.id !in used ==> l.id in removed
        invariant removed <= Ids(listeners) && forall id :: id in removed ==> id !in used
        invariant (forall l :: l in listeners[..i] ==> l.id in used) ==> removed == {}
        invariant octavia == WithoutListeners(old(octavia), removed)
        invariant removed == {} ==> writes == old(writes)
      {
        assert listeners[..i + 1] == listeners[..i] + [listeners[i]];
        if listeners[i].id !in used {
          calls, writes := calls + 1, writes + 1;
          assert listeners[i] in listeners;
          octavia := WithoutListeners(octavia, {listeners[i].id});
          removed := removed + {listeners[i].id};
        }
      }
      assert listeners[..|listeners|] == listeners;
      assert forall l :: l in listeners ==> l.id in Ids(listeners);
    }

    /** `_remove_unused_listeners` */
    method RemoveUnusedListeners() returns (changed: bool)
      modifies this`listeners, this`calls, this`writes, this`sound, this`failed, this`octavia
      ensures AllOk() && S() != old(S()) ==> changed
      ensures forall l :: l in listeners ==> l in old(listeners) && l.id in Owners(pools)
      ensures old(PoolsResolve(S())) ==> PoolsResolve(S())
      ensures old(sound && Integrity(S())) ==> sound
      ensures old(Linked(S(), octavia)) ==> Linked(S(), octavia) && RoutesKept(old(S()), S(), spec)
      ensures old(Linked(S(), octavia) && PortsReady()) ==> PortsReady()
      ensures Ids(old(listeners)) <= Owners(pools) ==>
                S() == old(S()) && octavia == old(octavia) && !changed && writes == old(writes)
    {
      ghost var st, o := S(), octavia;
      var removed := ReleaseUnusedListeners();
      assert removed == {} ==> octavia == o;
      changed := DropListeners(removed);
      assert S() == st.(listeners := listeners) && octavia == WithoutListeners(o, removed);
      ListenersGone(st, o, timeouts, spec, removed, listeners);
    }

    method DropListeners(removed: set<nat>) returns (changed: bool)
      modifies this`listeners, this`calls, this`writes, this`sound, this`failed
      ensures AllOk() && S() != old(S()) ==> changed
      ensures listeners == LiveListeners(old(listeners), removed)
      ensures removed == {} ==> !changed && writes == old(writes)
      ensures sound == (old(sound) && (removed == {} || Integrity(S())))
    {
      changed := false;
      if removed != {} {
        listeners := LiveListeners(listeners, removed);
        changed := PatchStatus();
      }
    }

    /** `_sync_lbaas_loadbalancer`. A load balancer with another address is released with all it
        has, and the status starts over; `raised` when a new one could not be had. */
    method SyncLoadBalancer() returns (changed: bool, raised: bool)
      modifies this`lb, this`listeners, this`pools, this`members, this`octavia, this`calls, this`writes, this`sound,
               this`failed
      ensures AllOk() ==> !raised
      ensures AllOk() && S() != old(S()) ==> changed
      ensures !raised ==> lb == Some(spec.ip)
      ensures old(Integrity(S())) ==> Integrity(S())
      ensures old(sound && Integrity(S())) ==> sound
      ensures S() == old(S()).(lb := lb) || (listeners == [] && pools == [] && members == [])
      ensures old(Linked(S(), octavia)) ==> Linked(S(), octavia)
      ensures old(Startable(S())) ==> Startable(S())
      ensures old(PortsReady()) ==> PortsReady()
      ensures old(lb) == Some(spec.ip) ==>
                S() == old(S()) && octavia == old(octavia) && !changed && !raised && writes == old(writes)
    {
      changed, raised := false, false;
      if lb.Some? && lb.value != spec.ip {
        calls, writes := calls + 1, writes + 1;
        lb, listeners, pools, members := None, [], [], [];
        octavia := octavia.(listeners := map[], pools := map[]);
      }
      if lb.None? {
        var ok := Call();
        writes := writes + 1;
        if !ok {
          raised := true;
          return;
        }
        lb := Some(spec.ip);
        changed := PatchStatus();
      }
    }

    /** `ensure_listener`: creates the listener, or finds the one of that protocol and port and has
        Octavia give it the timeouts of the spec. When one it sets differs, both that Octavia answers
        are stored. */
    method EnsureListener(ps: PortSpec) returns (r: Option<Listener>)
      modifies this`octavia, this`timeouts, this`calls, this`writes
      ensures env.sctp && AllOk() ==> r.Some?
      ensures r.None? ==> octavia == old(octavia) && timeouts == old(timeouts)
      ensures r.Some? ==>
                Serves(r.value, ps) && octavia == WithListener(old(octavia), ps) && ListenerLinked(r.value, octavia)
      ensures r.Some? ==> timeouts == old(timeouts)[(ps.protocol, ps.port) := Asked(spec)]
      ensures r.Some? ==> (Timed(r.value, spec) <==> !Skewed(old(octavia.listeners), old(timeouts), spec, ps))
    {
      var ok := Call();
      writes := writes + 1;
      if !ok {
        return None;
      }
      var key := (ps.protocol, ps.port);
      var client, member := spec.clientTimeout, spec.memberTimeout;
      if key in octavia.listeners && Differs(timeouts, spec, ps) {
        client, member := Effective(client), Effective(member);
      }
      octavia := WithListener(octavia, ps);
      timeouts := timeouts[key := Asked(spec)];
      r := Some(Listener(octavia.listeners[key], ps.protocol, ps.port, client, member));
    }

    /** One iteration of `_add_new_listeners`; `stop` when the status could not be patched. */
    method AddListener(ps: PortSpec) returns (changed: bool, stop: bool)
      modifies this`listeners, this`octavia, this`timeouts, this`calls, this`writes, this`sound, this`failed
      ensures ListenerStep(old(S()), old(octavia), old(timeouts), S(), octavia, timeouts, spec, ps, AllOk()) &&
              (AllOk() ==> !stop)
      ensures failed == old(failed) + if stop then 1 else 0
      ensures AllOk() && S() != old(S()) ==> changed
      ensures old(sound && Integrity(S())) ==> sound
      ensures ps.protocol == SCTP && !env.sctp ==> listeners == old(listeners)
      ensures forall l :: l in listeners && l.protocol != ps.protocol ==> l in old(listeners)
      ensures old(Served(listeners, spec, ps)) ==>
                listeners == old(listeners) && octavia == old(octavia) && timeouts == old(timeouts) && !changed &&
                  !stop && writes == old(writes)
    {
      changed, stop := false, false;
      if !Served(listeners, spec, ps) && (ps.protocol != SCTP || env.sctp) {
        changed, stop := InstallListener(ps);
      }
    }

    method InstallListener(ps: PortSpec) returns (changed: bool, stop: bool)
      requires !Served(listeners, spec, ps)
      modifies this`listeners, this`octavia, this`timeouts, this`calls, this`writes, this`sound, this`failed
      ensures forall l :: l in listeners && l.protocol != ps.protocol ==> l in old(listeners)
      ensures ListenerStep(old(S()), old(octavia), old(timeouts), S(), octavia, timeouts, spec, ps, AllOk()) &&
              (AllOk() ==> !stop)
      ensures failed == old(failed) + if stop then 1 else 0
      ensures AllOk() && S() != old(S()) ==> changed
      ensures old(sound && Integrity(S())) ==> sound
    {
      changed, stop := false, false;
      ghost var st, o := S(), octavia;
      var r := EnsureListener(ps);
      if r.Some? {
        listeners := Replace(listeners, r.value);
        ListenerReplaced(st, o, ps, r.value, listeners);
        assert Served(listeners, spec, ps) <==> Timed(r.value, spec);
        var ok := PatchStatus();
        changed, stop := ok, !ok;
      }
    }

    /** `_add_new_listeners`. With nothing failing, all spec ports are served with the timeouts of the
        spec if and only if each was ready, and each is ready for the next pass. */
    method AddNewListeners() returns (changed: bool)
      modifies this`listeners, this`octavia, this`timeouts, this`calls, this`writes, this`sound, this`failed
      ensures AllOk() && S() != old(S()) ==> changed
      ensures failed <= old(failed) + 1
      ensures forall l :: l in listeners ==> l in old(listeners) || InSpec(l, spec)
      ensures !env.sctp ==> forall l :: l in listeners && l.protocol == SCTP ==> l in old(listeners)
      ensures old(PoolsResolve(S())) ==> PoolsResolve(S())
      ensures old(sound && Integrity(S())) ==> sound
      ensures old(Linked(S(), octavia)) && lb.Some? ==> Linked(S(), octavia) && RoutesKept(old(S()), S(), spec)
      ensures old(Linked(S(), octavia)) && lb.Some? && AllOk() && SpecOk(spec) ==>
                (AllServed(listeners, spec) <==> old(PortsReady())) && PortsReady()
      ensures AllServed(old(listeners), spec) ==>
                S() == old(S()) && octavia == old(octavia) && timeouts == old(timeouts) && !changed &&
                  writes == old(writes)
    {
      changed := false;
      ghost var st, o, t := S(), octavia, timeouts;
      var ports := ByProtocol(spec.ports);
      if SpecOk(spec) { ByProtocolDistinct(spec.ports); }
      var i, stop := 0, false;
      while i < |ports| && !stop
        invariant i <= |ports| && (AllOk() ==> !stop) && (AllOk() && S() != st ==> changed)
        invariant failed == old(failed) + if stop then 1 else 0
        invariant !env.sctp ==> forall l :: l in listeners && l.protocol == SCTP ==> l in old(listeners)
        invariant ListenersAfter(st, o, t, S(), octavia, timeouts, spec, ports[..i], AllOk())
        invariant old(sound) && Integrity(st) ==> sound
        invariant AllServed(st.listeners, spec) ==>
                    S() == st && octavia == o && timeouts == t && !changed && writes == old(writes)
        decreases |ports| - i
      {
        ghost var st', o', t' := S(), octavia, timeouts;
        IdsResolve(st, st');
        var c;
        c, stop := AddListener(ports[i]);
        OneMoreListener(st, o, t, st', o', t', S(), octavia, timeouts, spec, ports, i, AllOk());
        changed := !stop && (changed || c);
        i := i + 1;
      }
      ListenersDone(st, o, t, S(), octavia, timeouts, spec, ports, i, AllOk());
    }

    /** `ensure_pool`: creates the pool of a listener, or finds it. */
    method EnsurePool(listenerId: nat) returns (r: Option<Pool>)
      modifies this`octavia, this`calls, this`writes
      ensures AllOk() ==> r.Some?
      ensures r.None? ==> octavia == old(octavia)
      ensures r.Some? ==>
                octavia == WithPool(old(octavia), listenerId) && r.value == Pool(octavia.pools[listenerId], listenerId)
    {
      var ok := Call();
      writes := writes + 1;
      if !ok {
        return None;
      }
      octavia := WithPool(octavia, listenerId);
      r := Some(Pool(octavia.pools[listenerId], listenerId));
    }

    /** One iteration of `_add_new_pools`; `stop` when the status could not be patched. */
    method AddPool(current: set<nat>, l: Listener) returns (added: bool, stop: bool)
      modifies this`pools, this`octavia, this`calls, this`writes, this`sound, this`failed
      ensures PoolStep(old(S()), old(octavia), S(), octavia, current, l, AllOk())
      ensures sound == (old(sound) && (added ==> Integrity(S()))) && (S() != old(S()) ==> added)
      ensures (AllOk() ==> !stop) && failed == old(failed) + if stop then 1 else 0
      ensures l.id in current ==> !added && !stop && writes == old(writes)
    {
      added, stop := false, false;
      if l.id !in current {
        var r := EnsurePool(l.id);
        if r.Some? {
          pools := pools + [r.value];
          var ok := PatchStatus();
          added, stop := true, !ok;
        }
      }
    }

    /** `_add_new_pools` */
    method AddNewPools() returns (changed: bool)
      modifies this`pools, this`octavia, this`calls, this`writes, this`sound, this`failed
      ensures AllOk() && S() != old(S()) ==> changed
      ensures failed <= old(failed) + 1
      ensures old(pools) <= pools && (old(PoolsResolve(S())) ==> PoolsResolve(S()))
      ensures octavia.listeners == old(octavia.listeners)
      ensures old(sound && Integrity(S())) ==> sound
      ensures old(Linked(S(), octavia)) && lb.Some? ==> Linked(S(), octavia)
      ensures AllOk() ==> Ids(listeners) <= Owners(pools)
      ensures Ids(listeners) <= Owners(old(pools)) ==>
                S() == old(S()) && octavia == old(octavia) && !changed && writes == old(writes)
    {
      changed := false;
      ghost var st, o := S(), octavia;
      var current := Owners(pools);
      var i, stop := 0, false;
      while i < |listeners| && !stop
        invariant i <= |listeners| && (AllOk() ==> !stop) && (S() != st ==> changed)
        invariant failed == old(failed) + if stop then 1 else 0
        invariant PoolsAfter(st, o, S(), octavia, current, i, AllOk()) && octavia.listeners == o.listeners
        invariant old(sound) && Integrity(st) ==> sound
        invariant Ids(listeners) <= current ==> !changed && writes == old(writes)
        decreases |listeners| - i
      {
        ghost var st', o' := S(), octavia;
        var added;
        added, stop := AddPool(current, listeners[i]);
        OneMorePool(st, o, st', o', S(), octavia, current, i, AllOk());
        changed := changed || added;
        i := i + 1;
      }
      changed := changed && !stop;
    }

    // ---- members ----

    /** Maps each served port name to its pool, through the listener of the pool. The lookup by
        listener id needs every pool to resolve. */
    method PoolsByName() returns (f: map<string, nat>)
      requires PoolsResolve(S())
      ensures RouteMap(listeners, pools, spec, f)
    {
      var byId: map<nat, Listener> := map[];
      for i := 0 to |listeners|
        invariant forall id :: id in byId ==> byId[id] in listeners && byId[id].id == id
        invariant forall l :: l in listeners[..i] ==> l.id in byId
      {
        assert listeners[..i + 1] == listeners[..i] + [listeners[i]];
        byId := byId[listeners[i].id := listeners[i]];
      }
      assert listeners[..|listeners|] == listeners;
      var byPort: map<(Protocol, int), nat> := map[];
      for i := 0 to |pools|
        invariant forall key :: key in byPort ==> PortPool(listeners, pools, key, byPort[key])
        invariant forall p :: p in pools[..i] ==>
                  p.listenerId in byId && (byId[p.listenerId].protocol, byId[p.listenerId].port) in byPort
      {
        assert pools[..i + 1] == pools[..i] + [pools[i]];
        assert pools[i].listenerId in Owners(pools);
        var l := byId[pools[i].listenerId];
        assert PortPool(listeners, pools, (l.protocol, l.port), pools[i].id);
        byPort := byPort[(l.protocol, l.port) := pools[i].id];
      }
      assert pools[..|pools|] == pools;
      f := NameMap(byPort);
      FromPortsRoute(listeners, pools, spec, byPort, f);
      RoutesAreNamed(listeners, pools, spec, byId, byPort, f);
    }

    method NameMap(byPort: map<(Protocol, int), nat>) returns (f: map<string, nat>)
      ensures forall name :: name in f ==>
                FromPort(spec, byPort, name, f[name])
      ensures forall ps :: ps in spec.ports && (ps.protocol, ps.port) in byPort ==> ps.name in f
    {
      f := map[];
      for i := 0 to |spec.ports|
        invariant forall name :: name in f ==>
                    FromPort(spec, byPort, name, f[name])
        invariant forall ps :: ps in spec.ports[..i] && (ps.protocol, ps.port) in byPort ==> ps.name in f
      {
        var ps := spec.ports[i];
        assert spec.ports[..i + 1] == spec.ports[..i] + [ps];
        if (ps.protocol, ps.port) in byPort {
          f := f[ps.name := byPort[(ps.protocol, ps.port)]];
        }
      }
      assert spec.ports[..|spec.ports|] == spec.ports;
    }

    /** The innermost body of `_add_new_members`; `stop` when the status could not be patched. */
    method AddMember(f: map<string, nat>, current: set<(string, int, nat)>, e: Endpoint, sp: SlicePort)
      returns (added: bool, stop: bool)
      requires f.Values <= PoolIds(pools)
      modifies this`members, this`calls, this`writes, this`sound, this`failed
      ensures !added ==> members == old(members)
      ensures failed == old(failed) + if stop then 1 else 0
      ensures added ==>
                sp.name in f && |members| > 0 &&
                members == old(members) + [NewMember(spec, f, e, sp, members[|members| - 1].id)]
      ensures old(MembersResolve(S())) ==> MembersResolve(S())
      ensures old(sound && Integrity(S())) ==> sound
      ensures AllOk() ==> !stop && Covered(f, current + Targets(members), e, sp)
      ensures Covered(f, current, e, sp) ==> !added && !stop && writes == old(writes)
    {
      added, stop := false, false;
      if sp.name !in f || (e.address, sp.port, f[sp.name]) in current {
        return;
      }
      var subnet := Call();
      if !subnet {
        return;
      }
      var ok := env.ok(calls);
      var m := NewMember(spec, f, e, sp, env.memberId(calls));
      calls, writes := calls + 1, writes + 1;
      if ok {
        members := members + [m];
        assert (e.address, sp.port, f[sp.name]) in Targets(members) by { assert m in members; }
        assert m.poolId in f.Values;
        ok := PatchStatus();
        added, stop := true, !ok;
      }
    }

    method AddForEndpoint(f: map<string, nat>, current: set<(string, int, nat)>, s: Slice, e: Endpoint)
      returns (changed: bool, stop: bool)
      requires f.Values <= PoolIds(pools) && s in spec.slices && e in s.endpoints
      modifies this`members, this`calls, this`writes, this`sound, this`failed
      ensures MembersAdded(spec, f, old(members), members) && (members != old(members) ==> changed)
      ensures failed == old(failed) + if stop then 1 else 0
      ensures old(MembersResolve(S())) ==> MembersResolve(S())
      ensures old(sound && Integrity(S())) ==> sound
      ensures AllOk() ==> !stop && forall sp :: sp in s.ports ==> Covered(f, current + Targets(members), e, sp)
      ensures (forall sp :: sp in s.ports ==> Covered(f, current, e, sp)) ==>
                members == old(members) && !changed && !stop && writes == old(writes)
    {
      changed, stop := false, false;
      var i := 0;
      while i < |s.ports| && !stop
        invariant i <= |s.ports| && (AllOk() ==> !stop)
        invariant MembersAdded(spec, f, old(members), members) && (members != old(members) ==> changed)
        invariant failed == old(failed) + if stop then 1 else 0
        invariant old(MembersResolve(S())) ==> MembersResolve(S())
        invariant old(sound && Integrity(S())) ==> sound
        invariant AllOk() ==> forall j :: 0 <= j < i ==> Covered(f, current + Targets(members), e, s.ports[j])
        invariant (forall sp :: sp in s.ports ==> Covered(f, current, e, sp)) ==>
                    members == old(members) && !changed && !stop && writes == old(writes)
        decreases |s.ports| - i
      {
        ghost var before := members;
        var added;
        added, stop := AddMember(f, current, e, s.ports[i]);
        MoreTargets(before, members);
        changed := changed || added;
        i := i + 1;
      }
    }

    method AddForSlice(
      f: map<string, nat>, current: set<(string, int, nat)>, s: Slice) returns (changed: bool, stop: bool)
      requires f.Values <= PoolIds(pools) && s in spec.slices
      modifies this`members, this`calls, this`writes, this`sound, this`failed
      ensures MembersAdded(spec, f, old(members), members) && (members != old(members) ==> changed)
      ensures failed == old(failed) + if stop then 1 else 0
      ensures old(MembersResolve(S())) ==> MembersResolve(S())
      ensures old(sound && Integrity(S())) ==> sound
      ensures AllOk() ==> !stop && SliceCovered(f, current + Targets(members), s)
      ensures SliceCovered(f, current, s) ==> members == old(members) && !changed && !stop && writes == old(writes)
    {
      changed, stop := false, false;
      var i := 0;
      while i < |s.endpoints| && !stop
        invariant i <= |s.endpoints| && (AllOk() ==> !stop)
        invariant MembersAdded(spec, f, old(members), members) && (members != old(members) ==> changed)
        invariant failed == old(failed) + if stop then 1 else 0
        invariant old(MembersResolve(S())) ==> MembersResolve(S())
        invariant old(sound && Integrity(S())) ==> sound
        invariant AllOk() ==> SliceCovered(f, current + Targets(members), s.(endpoints := s.endpoints[..i]))
        invariant SliceCovered(f, current, s) ==> members == old(members) && !changed && !stop && writes == old(writes)
        decreases |s.endpoints| - i
      {
        ghost var before := members;
        var added;
        added, stop := AddForEndpoint(f, current, s, s.endpoints[i]);
        assert s.endpoints[..i + 1] == s.endpoints[..i] + [s.endpoints[i]];
        MoreTargets(before, members);
        changed := changed || added;
        i := i + 1;
      }
      assert s.endpoints[..|s.endpoints|] == s.endpoints;
    }

    /** `_add_new_members`, with the refresh of the load balancer's groups that precedes it. */
    method AddNewMembers() returns (changed: bool)
      requires PoolsResolve(S())
      modifies this`members, this`calls, this`writes, this`sound, this`failed
      ensures AllOk() && S() != old(S()) ==> changed
      ensures failed <= old(failed) + 1
      ensures !env.ok(old(calls)) ==> members == old(members) && writes == old(writes)
      ensures old(members) <= members && (old(MembersResolve(S())) ==> MembersResolve(S()))
      ensures old(sound && Integrity(S())) ==> sound
      ensures old(Named(members)) ==> Named(members)
      ensures lb.Some? && Linked(old(S()), octavia) ==> Linked(S(), octavia)
      ensures SpecOk(spec) && old(MembersWanted(S(), spec)) ==> MembersWanted(S(), spec)
      ensures Linked(old(S()), octavia) && SpecOk(spec) && AllOk() ==> AllWantedPresent(S(), spec)
      ensures old(AllWantedPresent(S(), spec)) ==> members == old(members) && !changed && writes == old(writes)
    {
      changed := false;
      ghost var st := S();
      var refreshed := Call();
      if !refreshed {
        return;
      }
      var f := PoolsByName();
      var current := Targets(members);
      RoutedPools(listeners, pools, spec, f);
      PresentIsCovered(st, spec, f);
      changed := AddForSlices(f, current);
      MembersFinished(st, S(), octavia, spec, f, AllOk());
    }

    method AddForSlices(f: map<string, nat>, current: set<(string, int, nat)>) returns (changed: bool)
      requires f.Values <= PoolIds(pools)
      modifies this`members, this`calls, this`writes, this`sound, this`failed
      ensures MembersAdded(spec, f, old(members), members) && (AllOk() && members != old(members) ==> changed)
      ensures failed <= old(failed) + 1
      ensures old(MembersResolve(S())) ==> MembersResolve(S())
      ensures old(sound && Integrity(S())) ==> sound
      ensures AllOk() ==> forall s :: s in spec.slices ==> SliceCovered(f, current + Targets(members), s)
      ensures (forall s :: s in spec.slices ==> SliceCovered(f, current, s)) ==>
                members == old(members) && !changed && writes == old(writes)
    {
      changed := false;
      var i, stop := 0, false;
      while i < |spec.slices| && !stop
        invariant i <= |spec.slices| && (AllOk() ==> !stop)
        invariant MembersAdded(spec, f, old(members), members) && (members != old(members) ==> changed)
        invariant failed == old(failed) + if stop then 1 else 0
        invariant old(MembersResolve(S())) ==> MembersResolve(S())
        invariant old(sound && Integrity(S())) ==> sound
        invariant AllOk() ==> forall j :: 0 <= j < i ==> SliceCovered(f, current + Targets(members), spec.slices[j])
        invariant (forall s :: s in spec.slices ==> SliceCovered(f, current, s)) ==>
                    members == old(members) && !changed && writes == old(writes)
        decreases |spec.slices| - i
      {
        ghost var before := members;
        var added;
        added, stop := AddForSlice(f, current, spec.slices[i]);
        MoreTargets(before, members);
        if AllOk() { OneMoreSlice(f, current + Targets(before), current + Targets(members), spec.slices, i); }
        changed := changed || added;
        i := i + 1;
      }
      changed := changed && !stop;
    }

    /** Members are added when the spec has endpoint slices at all. */
    method AddMembersIfEndpoints() returns (changed: bool)
      requires PoolsResolve(S())
      modifies this`members, this`calls, this`writes, this`sound, this`failed
      ensures AllOk() && S() != old(S()) ==> changed
      ensures failed <= old(failed) + 1 && (spec.slices == [] ==> calls == old(calls))
      ensures old(members) <= members
      ensures old(MembersResolve(S())) ==> MembersResolve(S())
      ensures old(sound && Integrity(S())) ==> sound
      ensures old(Named(members)) ==> Named(members)
      ensures lb.Some? && Linked(old(S()), octavia) ==> Linked(S(), octavia)
      ensures SpecOk(spec) && old(MembersWanted(S(), spec)) ==> MembersWanted(S(), spec)
      ensures Linked(old(S()), octavia) && SpecOk(spec) && AllOk() ==> AllWantedPresent(S(), spec)
      ensures old(AllWantedPresent(S(), spec)) ==> members == old(members) && !changed && writes == old(writes)
    {
      changed := false;
      if spec.slices != [] {
        changed := AddNewMembers();
      }
    }

    // ---- the pass ----

    /** `_sync_lbaas_listeners` */
    method SyncListeners() returns (changed: bool, raised: bool)
      requires Startable(S())
      modifies this`lb, this`listeners, this`pools, this`members, this`octavia, this`timeouts, this`calls, this`writes,
               this`sound, this`failed
      ensures Startable(S()) && (!raised ==> lb == Some(spec.ip)) && (AllOk() ==> !raised)
      ensures AllOk() && S() != old(S()) ==> changed
      ensures (members, pools) == old((members, pools)) || (members, pools) == ([], [])
      ensures old(lb) == Some(spec.ip) ==> members == old(members)
      ensures old(PoolsResolve(S())) ==> PoolsResolve(S())
      ensures old(sound && Integrity(S())) ==> sound
      ensures forall l :: l in listeners ==> InSpec(l, spec) || (l in old(listeners) && l.id in Owners(old(pools)))
      ensures old(Linked(S(), octavia)) ==> Linked(S(), octavia) && (members == [] || RoutesKept(old(S()), S(), spec))
      ensures old(Linked(S(), octavia)) && SpecOk(spec) && AllOk() ==>
              PortsReady() && (old(PortsReady()) ==> AllServed(listeners, spec))
      ensures old(lb) == Some(spec.ip) && Ids(old(listeners)) <= Owners(old(pools)) &&
              AllServed(old(listeners), spec) ==>
                S() == old(S()) && octavia == old(octavia) && timeouts == old(timeouts) && !changed && !raised &&
                  writes == old(writes)
    {
      ghost var st := S();
      changed := RemoveUnusedListeners();
      ghost var st1 := S();
      var c;
      c, raised := SyncLoadBalancer();
      if raised {
        return;
      }
      ghost var st2 := S();
      changed := changed || c;
      c := AddNewListeners();
      changed := changed || c;
      RoutesKeptTwice(st, st1, S(), spec);
    }

    /** `_sync_lbaas_pools` */
    method SyncPools() returns (changed: bool, raised: bool)
      requires Startable(S())
      modifies this`lb, this`listeners, this`pools, this`members, this`octavia, this`timeouts, this`calls, this`writes,
               this`sound, this`failed
      ensures Startable(S()) && (!raised ==> lb == Some(spec.ip)) && (AllOk() ==> !raised)
      ensures AllOk() && S() != old(S()) ==> changed
      ensures forall m :: m in members ==> m in old(members)
      ensures old(lb) == Some(spec.ip) ==>
                forall m :: m in old(members) && old(PoolStays(S(), spec, m.poolId)) ==> m in members
      ensures PoolsResolve(S()) && (old(MembersResolve(S())) ==> MembersResolve(S()))
      ensures old(sound && MembersResolve(S())) ==> sound
      ensures old(Linked(S(), octavia)) ==> Linked(S(), octavia) && (members == [] || RoutesKept(old(S()), S(), spec))
      ensures old(Linked(S(), octavia)) ==> forall l :: l in listeners ==> InSpec(l, spec)
      ensures old(Linked(S(), octavia)) && SpecOk(spec) && AllOk() ==>
              PortsReady() && (old(PortsReady()) ==> AllServed(listeners, spec))
      ensures AllOk() ==> Ids(listeners) <= Owners(pools)
      ensures old(lb) == Some(spec.ip) && PoolsInSpec(old(pools), old(listeners), spec) &&
              Ids(old(listeners)) <= Owners(old(pools)) && AllServed(old(listeners), spec) ==>
                S() == old(S()) && octavia == old(octavia) && timeouts == old(timeouts) && !changed && !raised &&
                  writes == old(writes)
    {
      ghost var st, o := S(), octavia;
      changed := RemoveUnusedPools();
      assert PortsReady() == old(PortsReady());
      ghost var st1 := S();
      if Linked(st, o) { KeptListenersInSpec(st1, octavia, spec); }
      var c;
      c, raised := SyncListenersAddPools();
      changed := changed || c;
      RoutesKeptTwice(st, st1, S(), spec);
    }

    /** The stages of `_sync_lbaas_pools` after unused pools have been removed. */
    method SyncListenersAddPools() returns (changed: bool, raised: bool)
      requires Startable(S()) && PoolsResolve(S())
      modifies this`lb, this`listeners, this`pools, this`members, this`octavia, this`timeouts, this`calls, this`writes,
               this`sound, this`failed
      ensures Startable(S()) && (!raised ==> lb == Some(spec.ip)) && (AllOk() ==> !raised)
      ensures AllOk() && S() != old(S()) ==> changed
      ensures members == old(members) || members == []
      ensures old(lb) == Some(spec.ip) ==> members == old(members)
      ensures PoolsResolve(S()) && (old(MembersResolve(S())) ==> MembersResolve(S()))
      ensures old(sound && Integrity(S())) ==> sound
      ensures forall l :: l in listeners ==> InSpec(l, spec) || (l in old(listeners) && l.id in Owners(old(pools)))
      ensures old(Linked(S(), octavia)) ==> Linked(S(), octavia) && (members == [] || RoutesKept(old(S()), S(), spec))
      ensures old(Linked(S(), octavia)) && SpecOk(spec) && AllOk() ==>
              PortsReady() && (old(PortsReady()) ==> AllServed(listeners, spec))
      ensures AllOk() ==> Ids(listeners) <= Owners(pools)
      ensures old(lb) == Some(spec.ip) && Ids(old(listeners)) <= Owners(old(pools)) &&
              AllServed(old(listeners), spec) ==>
                S() == old(S()) && octavia == old(octavia) && timeouts == old(timeouts) && !changed && !raised &&
                  writes == old(writes)
    {
      ghost var st := S();
      changed, raised := SyncListeners();
      if raised {
        return;
      }
      ghost var st1, ready := S(), PortsReady();
      var c := AddNewPools();
      assert PortsReady() == ready;
      changed := changed || c;
      StagesKeepRoutes(st, st1, S(), spec);
    }

    /** The pass up to where members are added: the members left are wanted, and listeners and pools are
        those of the spec. */
    method SyncAllButMembers() returns (changed: bool, raised: bool)
      requires Startable(S()) && Named(members)
      modifies this`lb, this`listeners, this`pools, this`members, this`octavia, this`timeouts, this`calls, this`writes,
               this`sound, this`failed
      ensures Startable(S()) && Named(members) && (!raised ==> lb == Some(spec.ip)) && (AllOk() ==> !raised)
      ensures AllOk() && S() != old(S()) ==> changed
      ensures old(sound && Integrity(S())) ==> sound
      ensures PoolsResolve(S()) && (old(MembersResolve(S())) || spec.keep == {} ==> MembersResolve(S()))
      ensures old(Linked(S(), octavia)) ==> Linked(S(), octavia) && forall l :: l in listeners ==> InSpec(l, spec)
      ensures old(Linked(S(), octavia)) && SpecOk(spec) && AllOk() ==>
              PortsReady() && (old(PortsReady()) ==> AllServed(listeners, spec))
      ensures AllOk() ==> Ids(listeners) <= Owners(pools)
      ensures old(Linked(S(), octavia) && lb == Some(spec.ip)) && SpecOk(spec) ==>
                forall m :: m in old(members) && old(KeptFor(S(), spec, m)) ==> m in members
      ensures old(Linked(S(), octavia)) && spec.keep == {} ==> MembersWanted(S(), spec)
      ensures old(Linked(S(), octavia)) && SpecOk(spec) && old(Converged(S(), spec)) ==>
                S() == old(S()) && octavia == old(octavia) && timeouts == old(timeouts) && !changed && !raised &&
                  writes == old(writes)
    {
      ghost var st, o := S(), octavia;
      ghost var settled := Linked(st, o) && SpecOk(spec) && Converged(st, spec);
      if settled { ResolvedPoolsInSpec(st, spec); }
      changed := RemoveUnusedMembers();
      ghost var st1 := S();
      if Linked(st, o) { KeptHavePools(st, o, st1, spec); }
      assert settled ==> st1 == st && writes == old(writes);
      assert PortsReady() == old(PortsReady());
      var c;
      c, raised := SyncPools();
      assert settled ==> S() == st && octavia == o && timeouts == old(timeouts) && !raised && writes == old(writes);
      changed := changed || c;
      if MembersWanted(st1, spec) && RoutesKept(st1, S(), spec) { WantedKept(st1, S(), spec); }
    }

    /** `_sync_lbaas_members`: one pass. Whatever fails on the way, every status handed to the API
        resolves if the first one did; when nothing fails and the ports are ready the pass converges,
        and in any case they are ready afterwards; from a converged status it neither changes nor
        writes anything. */
    method SyncMembers() returns (changed: bool, raised: bool)
      requires Startable(S()) && Named(members)
      modifies this`lb, this`listeners, this`pools, this`members, this`octavia, this`timeouts, this`calls, this`writes,
               this`sound, this`failed
      ensures Startable(S()) && Named(members)
      ensures AllOk() && S() != old(S()) ==> changed
      ensures old(sound && Integrity(S())) ==> sound
      ensures PoolsResolve(S()) && (old(MembersResolve(S())) || spec.keep == {} ==> MembersResolve(S()))
      ensures old(Linked(S(), octavia)) ==> Linked(S(), octavia)
      ensures old(Linked(S(), octavia) && lb == Some(spec.ip)) && SpecOk(spec) ==>
                forall m :: m in old(members) && old(KeptFor(S(), spec, m)) ==> m in members
      ensures old(Linked(S(), octavia)) && SpecOk(spec) && AllOk() ==> PortsReady()
      ensures old(Linked(S(), octavia) && PortsReady()) && SpecOk(spec) && AllOk() && spec.keep == {} ==>
              !raised && Converged(S(), spec)
      ensures old(Linked(S(), octavia)) && SpecOk(spec) && old(Converged(S(), spec)) ==>
                S() == old(S()) && octavia == old(octavia) && timeouts == old(timeouts) && !changed && !raised &&
                  writes == old(writes)
    {
      ghost var settled := Linked(S(), octavia) && SpecOk(spec) && Converged(S(), spec);
      changed, raised := SyncAllButMembers();
      if raised {
        return;
      }
      ghost var ready := PortsReady();
      var c := AddMembersIfEndpoints();
      assert settled ==> !c;
      changed := changed || c;
      assert PortsReady() == ready;
    }

    /** Whatever timeouts Octavia's listeners had, two passes converge. */
    method SyncTwice() returns (raised: bool)
      requires Startable(S()) && Named(members)
      modifies this`lb, this`listeners, this`pools, this`members, this`octavia, this`timeouts, this`calls, this`writes,
               this`sound, this`failed
      ensures old(Linked(S(), octavia)) && SpecOk(spec) && AllOk() && spec.keep == {} ==>
              !raised && Converged(S(), spec)
    {
      var changed;
      changed, raised := SyncMembers();
      changed, raised := SyncMembers();
    }
  }
}
