/** One reconciliation pass of a KuryrLoadBalancer: the stages of `_sync_lbaas_members` over the
    `status` lists, against an Octavia that finds or creates, and with every remote call allowed
    to fail. */
module LoadBalancer {
  import opened Basics

  datatype Protocol = TCP | UDP | SCTP

  datatype PortSpec = PortSpec(name: string, protocol: Protocol, port: int)

  datatype TargetRef = TargetRef(namespace: string, name: string)

  datatype Endpoint = Endpoint(address: string, target: Option<TargetRef>)

  datatype SlicePort = SlicePort(name: string, port: int)

  datatype Slice = Slice(endpoints: seq<Endpoint>, ports: seq<SlicePort>)

  /** `keep` are the addresses whose members the exception for the `kubernetes` service protects. */
  datatype Spec = Spec(
    namespace: string, name: string, ip: string, ports: seq<PortSpec>, slices: seq<Slice>,
    clientTimeout: int, memberTimeout: int, keep: set<string>)

  datatype Listener = Listener(id: nat, protocol: Protocol, port: int, clientTimeout: int, memberTimeout: int)

  datatype Pool = Pool(id: nat, listenerId: nat)

  datatype Member = Member(id: nat, name: string, ip: string, port: int, poolId: nat)

  datatype Status = Status(lb: Option<string>, listeners: seq<Listener>, pools: seq<Pool>, members: seq<Member>)

  /** The Octavia objects behind one load balancer: the listener of a protocol and port, the pool
      of a listener, and the next unused id. */
  datatype Octavia = Octavia(listeners: map<(Protocol, int), nat>, pools: map<nat, nat>, next: nat)

  /** `ok(n)` is the outcome of the n-th remote call, `memberId(n)` the id it returns for a member. */
  datatype Env = Env(ok: nat -> bool, memberId: nat -> nat, sctp: bool)

  // ---- member names ----

  function Decimal(n: nat): string {
    if n < 10 then [('0' as int + n) as char] else Decimal(n / 10) + [('0' as int + n % 10) as char]
  }

  /** The part of `s` before the first `c`, or all of it: `s.split(c)[0]`. */
  function Before(s: string, c: char): string {
    if s == "" || s[0] == c then "" else [s[0]] + Before(s[1..], c)
  }

  /** What follows the first `c` in `s`. */
  function After(s: string, c: char): string {
    if s == "" then "" else if s[0] == c then s[1..] else After(s[1..], c)
  }

  /** The name `ensure_member` gives a member. */
  function MemberName(namespace: string, target: string, port: int): string {
    namespace + "/" + target + ":" + if port < 0 then "-" + Decimal(-port) else Decimal(port)
  }

  /** `member_name.split('/')[1].split(':')[0]` */
  function PodName(memberName: string): string {
    Before(Before(After(memberName, '/'), '/'), ':')
  }

  lemma {:induction false} BeforeOf(a: string, c: char, rest: string)
    ensures c !in a ==> Before(a + [c] + rest, c) == a
    ensures c !in a ==> After(a + [c] + rest, c) == rest
    ensures c in a ==> |Before(a + rest, c)| < |a| && Before(a + rest, c) == Before(a, c)
  {
    if a != "" {
      BeforeOf(a[1..], c, rest);
      assert (a + [c] + rest)[1..] == a[1..] + [c] + rest;
      assert (a + rest)[1..] == a[1..] + rest;
    } else {
      assert a + [c] + rest == [c] + rest;
    }
  }

  lemma {:induction false} BeforeAll(a: string, c: char)
    ensures |Before(a, c)| <= |a| && (c !in a ==> Before(a, c) == a) && (c in a ==> |Before(a, c)| < |a|)
  {
    if a != "" { BeforeAll(a[1..], c); }
  }

  lemma {:induction false} TargetPart(target: string, number: string)
    ensures Before(Before(target + [':'] + number, '/'), ':') == target <==> '/' !in target && ':' !in target
  {
    var first := Before(target + [':'] + number, '/');
    if '/' in target {
      assert target + [':'] + number == target + ([':'] + number);
      BeforeOf(target, '/', [':'] + number);
      BeforeAll(first, ':');
    } else {
      var tail := Before(number, '/');
      assert target + [':'] + number == target + [':'] + number;
      assert '/' !in target + [':'];
      PrefixBefore(target + [':'], number, '/');
      assert first == target + [':'] + tail;
      if ':' in target {
        assert first == target + ([':'] + tail);
        BeforeOf(target, ':', [':'] + tail);
      } else {
        BeforeOf(target, ':', tail);
      }
    }
  }

  /** The name written for a member parses back to the target exactly when the target has neither
      separator, for a namespace without a slash. */
  lemma {:induction false} MemberNameParsesBack(namespace: string, target: string, port: int)
    requires '/' !in namespace
    ensures PodName(MemberName(namespace, target, port)) == target <==> '/' !in target && ':' !in target
  {
    var number := if port < 0 then "-" + Decimal(-port) else Decimal(port);
    var rest := target + [':'] + number;
    assert MemberName(namespace, target, port) == namespace + ['/'] + rest;
    BeforeOf(namespace, '/', rest);
    TargetPart(target, number);
  }

  lemma {:induction false} PrefixBefore(a: string, b: string, c: char)
    requires c !in a
    ensures Before(a + b, c) == a + Before(b, c)
  {
    if a == "" {
      assert a + b == b;
    } else {
      PrefixBefore(a[1..], b, c);
      assert (a + b)[1..] == a[1..] + b && (a + b)[0] == a[0];
      assert [a[0]] + (a[1..] + Before(b, c)) == a + Before(b, c);
    }
  }

  // ---- lists ----

  ghost predicate UniqueBy<T(!new)>(s: seq<T>, key: T -> nat) {
    forall i, j :: 0 <= i < j < |s| ==> key(s[i]) != key(s[j])
  }

  lemma {:induction false} FilterUnique<T(!new)>(s: seq<T>, f: T -> bool, key: T -> nat)
    requires UniqueBy(s, key)
    ensures UniqueBy(Filter(s, f), key)
  {
    if s != [] {
      FilterUnique(s[1..], f, key);
      var rest := Filter(s[1..], f);
      if f(s[0]) {
        forall j | 0 <= j < |rest| ensures key(rest[j]) != key(s[0]) {
          assert rest[j] in s[1..];
        }
      }
    }
  }

  lemma {:induction false} SameKeySameItem<T(!new)>(s: seq<T>, key: T -> nat, a: T, b: T)
    requires UniqueBy(s, key) && a in s && b in s && key(a) == key(b)
    ensures a == b
  {
    var i :| 0 <= i < |s| && s[i] == a;
    var j :| 0 <= j < |s| && s[j] == b;
    assert key(s[i]) == key(s[j]);
  }

  // ---- what the spec asks for ----

  predicate Serves(l: Listener, ps: PortSpec) {
    l.port == ps.port && l.protocol == ps.protocol
  }

  predicate InSpec(l: Listener, spec: Spec) {
    exists ps :: ps in spec.ports && Serves(l, ps)
  }

  predicate Timed(l: Listener, spec: Spec) {
    l.clientTimeout == spec.clientTimeout && l.memberTimeout == spec.memberTimeout
  }

  /** What the API server guarantees of a Service: port names and (protocol, port) pairs are unique,
      and no object name has a slash or a colon. */
  ghost predicate SpecOk(spec: Spec) {
    && (forall i, j :: 0 <= i < j < |spec.ports| ==> spec.ports[i] != spec.ports[j])
    && (forall a, b :: a in spec.ports && b in spec.ports && a.name == b.name ==> a == b)
    && (forall a, b :: a in spec.ports && b in spec.ports && a.protocol == b.protocol && a.port == b.port ==> a == b)
    && Plain(spec.namespace) && Plain(spec.name)
    && (forall s, e :: s in spec.slices && e in s.endpoints && e.target.Some? ==>
          Plain(e.target.value.namespace) && Plain(e.target.value.name))
  }

  ghost predicate Plain(s: string) { '/' !in s && ':' !in s }

  /** The target name of an endpoint: its own, or the Service's. */
  function TargetName(spec: Spec, e: Endpoint): string {
    if e.target.Some? then e.target.value.name else spec.name
  }

  function TargetNamespace(spec: Spec, e: Endpoint): string {
    if e.target.Some? then e.target.value.namespace else spec.namespace
  }

  // ---- timeouts ----

  /** What Octavia gives a listener when a timeout is not asked for. */
  const OCTAVIA_TIMEOUT := 50000

  /** Octavia's listeners by protocol and port, and the client and member timeouts of each. */
  type Known = map<(Protocol, int), nat>
  type Timeouts = map<(Protocol, int), (int, int)>

  function Effective(timeout: int): int {
    if timeout == 0 then OCTAVIA_TIMEOUT else timeout
  }

  function Asked(spec: Spec): (int, int) {
    (Effective(spec.clientTimeout), Effective(spec.memberTimeout))
  }

  function Given(t: Timeouts, ps: PortSpec): (int, int) {
    if (ps.protocol, ps.port) in t then t[(ps.protocol, ps.port)] else (OCTAVIA_TIMEOUT, OCTAVIA_TIMEOUT)
  }

  /** A timeout that the spec sets is not the one Octavia has. */
  predicate Differs(t: Timeouts, spec: Spec, ps: PortSpec) {
    || (spec.clientTimeout != 0 && Given(t, ps).0 != spec.clientTimeout)
    || (spec.memberTimeout != 0 && Given(t, ps).1 != spec.memberTimeout)
  }

  /** The listener is there with a timeout that differs, and the spec sets one of the two only: the
      driver then stores Octavia's own value for the other one. */
  predicate Skewed(known: Known, t: Timeouts, spec: Spec, ps: PortSpec) {
    (ps.protocol, ps.port) in known && Differs(t, spec, ps) && (spec.clientTimeout == 0 || spec.memberTimeout == 0)
  }

  /** One pass serves the port with the timeouts of the spec. */
  predicate Ready(ls: seq<Listener>, known: Known, t: Timeouts, spec: Spec, ps: PortSpec) {
    Served(ls, spec, ps) || !Skewed(known, t, spec, ps)
  }

  ghost predicate AllReady(ls: seq<Listener>, known: Known, t: Timeouts, spec: Spec) {
    forall ps :: ps in spec.ports ==> Ready(ls, known, t, spec, ps)
  }

  /** Ports are ready whatever Octavia has exactly when the spec sets both timeouts or neither. */
  lemma {:induction false} ReadyForAnyOctavia(spec: Spec)
    requires spec.ports != []
    ensures (forall known, t :: AllReady([], known, t, spec)) <==>
            ((spec.clientTimeout == 0) == (spec.memberTimeout == 0))
  {
    var ps := spec.ports[0];
    var key := (ps.protocol, ps.port);
    var known: Known, t: Timeouts := map[key := 0], map[key := (spec.clientTimeout + 1, spec.memberTimeout + 1)];
    if (spec.clientTimeout == 0) != (spec.memberTimeout == 0) {
      assert Skewed(known, t, spec, ps) && !Served([], spec, ps) && ps in spec.ports;
      assert !AllReady([], known, t, spec);
    }
  }

  /** With these listeners and pools the spec port called `name` is served by pool `id`. */
  ghost predicate Routes(ls: seq<Listener>, pools: seq<Pool>, spec: Spec, name: string, id: nat) {
    exists p, l, ps :: p in pools && l in ls && ps in spec.ports &&
                       p.id == id && l.id == p.listenerId && Serves(l, ps) && ps.name == name
  }

  /** Some endpoint asks for a member at `ip` and `port`, for target `pod`, in pool `id`. */
  ghost predicate Wanted(ls: seq<Listener>, pools: seq<Pool>, spec: Spec, ip: string, pod: string, port: int, id: nat) {
    exists s, e, sp :: s in spec.slices && e in s.endpoints && sp in s.ports && e.address == ip &&
                       TargetName(spec, e) == pod && sp.port == port && Routes(ls, pools, spec, sp.name, id)
  }

  ghost predicate MemberWanted(ls: seq<Listener>, pools: seq<Pool>, spec: Spec, m: Member) {
    Wanted(ls, pools, spec, m.ip, PodName(m.name), m.port, m.poolId)
  }

  ghost predicate MembersWanted(st: Status, spec: Spec) {
    forall m :: m in st.members ==> MemberWanted(st.listeners, st.pools, spec, m)
  }

  // ---- integrity and agreement with Octavia ----

  ghost function Ids(ls: seq<Listener>): set<nat> {
    set l | l in ls :: l.id
  }

  /** The listeners that have a pool. */
  function Owners(pools: seq<Pool>): set<nat> {
    set p | p in pools :: p.listenerId
  }

  ghost function PoolIds(pools: seq<Pool>): set<nat> {
    set p | p in pools :: p.id
  }

  ghost function PoolsUsed(members: seq<Member>): set<nat> {
    set m | m in members :: m.poolId
  }

  ghost predicate PoolsResolve(st: Status) {
    Owners(st.pools) <= Ids(st.listeners)
  }

  ghost predicate MembersResolve(st: Status) {
    PoolsUsed(st.members) <= PoolIds(st.pools)
  }

  ghost predicate Integrity(st: Status) {
    PoolsResolve(st) && MembersResolve(st)
  }

  function ListenerId(l: Listener): nat { l.id }

  function PoolListener(p: Pool): nat { p.listenerId }

  /** The status lists Octavia objects, each at most once. */
  ghost predicate Linked(st: Status, o: Octavia) {
    && UniqueBy(st.listeners, ListenerId) && UniqueBy(st.pools, PoolListener)
    && (forall l :: l in st.listeners ==> ListenerLinked(l, o))
    && (forall p :: p in st.pools ==> PoolLinked(p, o))
    && OctaviaOk(o)
    && (st.lb.None? ==> st.listeners == [] && st.pools == [] && st.members == [])
  }

  ghost predicate ListenerLinked(l: Listener, o: Octavia) {
    (l.protocol, l.port) in o.listeners && o.listeners[(l.protocol, l.port)] == l.id
  }

  ghost predicate PoolLinked(p: Pool, o: Octavia) {
    p.listenerId in o.pools && o.pools[p.listenerId] == p.id
  }

  ghost predicate OctaviaOk(o: Octavia) {
    && (forall a, b :: a in o.listeners && b in o.listeners && o.listeners[a] == o.listeners[b] ==> a == b)
    && (forall a, b :: a in o.pools && b in o.pools && o.pools[a] == o.pools[b] ==> a == b)
    && (forall a :: a in o.listeners ==> o.listeners[a] < o.next)
    && (forall a :: a in o.pools ==> a < o.next && o.pools[a] < o.next)
  }

  lemma {:induction false} LinkedIsUnique(st: Status, o: Octavia)
    requires Linked(st, o)
    ensures forall a, b :: a in st.listeners && b in st.listeners && a.id == b.id ==> a == b
    ensures forall a, b :: a in st.listeners && b in st.listeners && a.protocol == b.protocol && a.port == b.port ==>
            a == b
    ensures forall a, b :: a in st.pools && b in st.pools && a.id == b.id ==> a == b
    ensures forall a, b :: a in st.pools && b in st.pools && a.listenerId == b.listenerId ==> a == b
  {
    forall a, b | a in st.listeners && b in st.listeners &&
      (a.id == b.id || (a.protocol == b.protocol && a.port == b.port))
      ensures a == b
    {
      assert ListenerLinked(a, o) && ListenerLinked(b, o);
      SameKeySameItem(st.listeners, ListenerId, a, b);
    }
    forall a, b | a in st.pools && b in st.pools && (a.id == b.id || a.listenerId == b.listenerId) ensures a == b {
      assert PoolLinked(a, o) && PoolLinked(b, o);
      SameKeySameItem(st.pools, PoolListener, a, b);
    }
  }

  /** A port name has one pool. */
  lemma {:induction false} OneRoute(st: Status, o: Octavia, spec: Spec, name: string, a: nat, b: nat)
    requires Linked(st, o) && SpecOk(spec)
    requires Routes(st.listeners, st.pools, spec, name, a) && Routes(st.listeners, st.pools, spec, name, b)
    ensures a == b
  {
    LinkedIsUnique(st, o);
  }

  /** Nothing that served a spec port has been lost between `a` and `b`. */
  ghost predicate RoutesKept(a: Status, b: Status, spec: Spec) {
    forall name, id :: Routes(a.listeners, a.pools, spec, name, id) ==> Routes(b.listeners, b.pools, spec, name, id)
  }

  lemma {:induction false} KeepRoutes(a: Status, b: Status, spec: Spec)
    requires forall p, l, ps ::
               p in a.pools && l in a.listeners && ps in spec.ports && l.id == p.listenerId && Serves(l, ps) ==>
               p in b.pools && exists l' :: l' in b.listeners && l'.id == l.id && Serves(l', ps)
    ensures RoutesKept(a, b, spec)
  {
    forall name, id | Routes(a.listeners, a.pools, spec, name, id)
      ensures Routes(b.listeners, b.pools, spec, name, id)
    {
      var p, l, ps :| p in a.pools && l in a.listeners && ps in spec.ports &&
                      p.id == id && l.id == p.listenerId && Serves(l, ps) && ps.name == name;
      var l' :| l' in b.listeners && l'.id == l.id && Serves(l', ps);
    }
  }

  lemma {:induction false} WantedKept(a: Status, b: Status, spec: Spec)
    requires MembersWanted(a, spec) && RoutesKept(a, b, spec) && forall m :: m in b.members ==> m in a.members
    ensures MembersWanted(b, spec)
  {
    forall m | m in b.members ensures MemberWanted(b.listeners, b.pools, spec, m) {
      assert MemberWanted(a.listeners, a.pools, spec, m);
    }
  }

  /** The pass has reached its goal. */
  ghost predicate Converged(st: Status, spec: Spec) {
    && st.lb == Some(spec.ip)
    && (forall l :: l in st.listeners ==> InSpec(l, spec))
    && AllServed(st.listeners, spec)
    && Ids(st.listeners) <= Owners(st.pools)
    && Integrity(st)
    && MembersWanted(st, spec)
    && AllWantedPresent(st, spec)
  }

  ghost predicate AllWantedPresent(st: Status, spec: Spec) {
    forall ip, pod, port, id: nat :: Wanted(st.listeners, st.pools, spec, ip, pod, port, id) ==>
      (ip, port, id) in Targets(st.members)
  }

  ghost predicate AllServed(ls: seq<Listener>, spec: Spec) {
    forall ps :: ps in spec.ports ==> Served(ls, spec, ps)
  }

  predicate Served(ls: seq<Listener>, spec: Spec, ps: PortSpec) {
    exists l :: l in ls && Serves(l, ps) && Timed(l, spec)
  }

  /** The (ip, port, pool) of each member. */
  function Targets(members: seq<Member>): set<(string, int, nat)> {
    set m | m in members :: (m.ip, m.port, m.poolId)
  }
}
