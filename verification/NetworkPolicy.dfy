/** NetworkPolicy to security group rules, for ingress: `_parse_sg_rules` and what it calls, with
    numeric ports. The rules it emits are compared with what the policy says about pods. */
module NetworkPolicy {
  import opened Basics
  import opened Addresses

  datatype Protocol = TCP | UDP | SCTP | OtherProtocol

  datatype Packet = Packet(src: Address, protocol: Protocol, port: int)

  /** An entry of `ports`; without a protocol Kubernetes means TCP. */
  datatype PortSpec = PortSpec(port: int, protocol: Option<Protocol>)

  /** `Everything` is the selector `{}`. */
  datatype Selector = Everything | Requirements(id: nat)

  datatype Peer =
    | IpBlock(cidr: Cidr, excepts: seq<Cidr>)
    | Select(namespaces: Option<Selector>, pods: Option<Selector>)

  /** An ingress rule; `None` for an absent key. */
  datatype Block = Block(peers: Option<seq<Peer>>, ports: Option<seq<PortSpec>>)

  datatype PolicyType = Ingress | Egress

  datatype Policy = Policy(namespace: string, types: seq<PolicyType>, ingress: seq<Block>)

  datatype Pod = Pod(name: string, namespace: string, labels: map<string, string>, ip: Option<Address>)

  datatype Namespace = Namespace(name: string, labels: map<string, string>, cidr: Option<Cidr>)

  /** What the driver reads from the cluster; `selects` is the API server's matching of labels. */
  datatype Cluster = Cluster(
    pods: seq<Pod>, namespaces: seq<Namespace>, selects: (nat, map<string, string>) -> bool,
    podPool: seq<Cidr>, services: Cidr)

  /** What `allowed_resources` lists. */
  datatype Resource = OfPod(pod: Pod) | OfNamespace(ns: Namespace) | OfBlock(cidr: Cidr)

  datatype Rule = Rule(
    v6: bool, cidr: Option<Cidr>, protocol: Option<Protocol>, ports: Option<(int, int)>, namespace: Option<string>)

  // ---- what the rules admit ----

  predicate RuleAdmits(r: Rule, p: Packet) {
    && r.v6 == p.src.v6
    && (r.cidr.Some? ==> Holds(r.cidr.value, p.src))
    && (r.protocol.Some? ==> r.protocol.value == p.protocol)
    && (r.ports.Some? ==> r.ports.value.0 <= p.port <= r.ports.value.1)
  }

  ghost predicate Admits(rules: seq<Rule>, p: Packet) {
    exists r :: r in rules && RuleAdmits(r, p)
  }

  lemma {:induction false} AdmitsMore(rules: seq<Rule>, r: Rule)
    ensures forall p :: Admits(rules + [r], p) <==> Admits(rules, p) || RuleAdmits(r, p)
  {
    forall p ensures Admits(rules + [r], p) <==> Admits(rules, p) || RuleAdmits(r, p) {
      if RuleAdmits(r, p) { assert r in rules + [r]; }
    }
  }

  // ---- what the policy says ----

  predicate Matches(c: Cluster, sel: Selector, labels: map<string, string>) {
    sel.Everything? || c.selects(sel.id, labels)
  }

  /** The namespaces a peer speaks of: the policy's own, or those its selector matches. */
  ghost predicate InScope(c: Cluster, own: string, sel: Option<Selector>, namespace: string) {
    if sel.None? then namespace == own
    else exists n :: n in c.namespaces && n.name == namespace && Matches(c, sel.value, n.labels)
  }

  ghost predicate PodAdmitted(c: Cluster, own: string, peer: Peer, pod: Pod)
    requires peer.Select?
  {
    InScope(c, own, peer.namespaces, pod.namespace) && (peer.pods.Some? ==> Matches(c, peer.pods.value, pod.labels))
  }

  ghost predicate PeerAdmits(c: Cluster, own: string, peer: Peer, a: Address) {
    match peer
    case IpBlock(cidr, excepts) => Holds(cidr, a) && forall e :: e in excepts ==> !Holds(e, a)
    case Select(_, _) => exists pod :: pod in c.pods && pod.ip == Some(a) && PodAdmitted(c, own, peer, pod)
  }

  function ProtocolOf(port: PortSpec): Protocol {
    if port.protocol.Some? then port.protocol.value else TCP
  }

  predicate PortAdmits(port: PortSpec, p: Packet) {
    p.protocol == ProtocolOf(port) && p.port == port.port
  }

  ghost predicate BlockAdmits(c: Cluster, own: string, b: Block, p: Packet) {
    && (b.peers.Some? && b.peers.value != [] ==>
       exists peer :: peer in b.peers.value && PeerAdmits(c, own, peer, p.src))
    && (b.ports.Some? && b.ports.value != [] ==> exists port :: port in b.ports.value && PortAdmits(port, p))
  }

  /** Kubernetes' meaning of the policy for ingress. */
  ghost predicate PolicyAdmits(c: Cluster, policy: Policy, p: Packet) {
    Ingress in policy.types ==> exists b :: b in policy.ingress && BlockAdmits(c, policy.namespace, b, p)
  }

  // ---- the driver ----

  /** `create_security_group_rule_body`. A port of zero counts as none. */
  function RuleBody(
    port: Option<int>, protocol: Option<Protocol>, v6: bool, cidr: Option<Cidr>, namespace: Option<string>): Rule {
    Rule(v6 || (cidr.Some? && cidr.value.v6), cidr, protocol,
         if port.Some? && port.value != 0 then Some((port.value, port.value)) else None, namespace)
  }

  /** `_get_resource_details` */
  function Details(r: Resource): (Option<Cidr>, Option<string>) {
    match r
    case OfPod(pod) => (if pod.ip.Some? then Some(Host(pod.ip.value)) else None, Some(pod.namespace))
    case OfBlock(cidr) => (Some(cidr), None)
    case OfNamespace(ns) => (ns.cidr, Some(ns.name))
  }

  predicate Reaches(r: Resource, a: Address) {
    Details(r).0.Some? && Holds(Details(r).0.value, a)
  }

  ghost predicate Reached(rs: seq<Resource>, a: Address) {
    exists r :: r in rs && Reaches(r, a)
  }

  lemma {:induction false} ReachedConcat(x: seq<Resource>, y: seq<Resource>)
    ensures forall a :: Reached(x + y, a) <==> Reached(x, a) || Reached(y, a)
  {
    forall a ensures Reached(x + y, a) <==> Reached(x, a) || Reached(y, a) { }
  }

  lemma {:induction false} ReachedMore(rs: seq<Resource>, r: Resource)
    ensures forall a :: Reached(rs + [r], a) <==> Reached(rs, a) || Reaches(r, a)
  {
    forall a ensures Reached(rs + [r], a) <==> Reached(rs, a) || Reaches(r, a) {
      if Reaches(r, a) { assert r in rs + [r]; }
    }
  }

  function PodsOf(pods: seq<Pod>): seq<Resource> {
    seq(|pods|, i requires 0 <= i < |pods| => OfPod(pods[i]))
  }

  function NamespacesOf(ns: seq<Namespace>): seq<Resource> {
    seq(|ns|, i requires 0 <= i < |ns| => OfNamespace(ns[i]))
  }

  function BlocksOf(cs: seq<Cidr>): seq<Resource> {
    seq(|cs|, i requires 0 <= i < |cs| => OfBlock(cs[i]))
  }

  ghost predicate PodAt(pods: seq<Pod>, a: Address) {
    exists pod :: pod in pods && pod.ip == Some(a)
  }

  ghost predicate SubnetAt(ns: seq<Namespace>, a: Address) {
    exists n :: n in ns && n.cidr.Some? && Holds(n.cidr.value, a)
  }

  lemma {:induction false} ReachedPods(pods: seq<Pod>)
    ensures forall a :: Reached(PodsOf(pods), a) <==> PodAt(pods, a)
  {
    forall a ensures Reached(PodsOf(pods), a) <==> PodAt(pods, a) {
      if PodAt(pods, a) {
        var i :| 0 <= i < |pods| && pods[i].ip == Some(a);
        assert PodsOf(pods)[i] in PodsOf(pods) && Reaches(PodsOf(pods)[i], a);
      }
      if Reached(PodsOf(pods), a) {
        var r :| r in PodsOf(pods) && Reaches(r, a);
        assert r.pod in pods;
      }
    }
  }

  lemma {:induction false} ReachedNamespaces(ns: seq<Namespace>)
    ensures forall a :: Reached(NamespacesOf(ns), a) <==> SubnetAt(ns, a)
  {
    forall a ensures Reached(NamespacesOf(ns), a) <==> SubnetAt(ns, a) {
      if SubnetAt(ns, a) {
        var i :| 0 <= i < |ns| && ns[i].cidr.Some? && Holds(ns[i].cidr.value, a);
        assert NamespacesOf(ns)[i] in NamespacesOf(ns) && Reaches(NamespacesOf(ns)[i], a);
      }
      if Reached(NamespacesOf(ns), a) {
        var r :| r in NamespacesOf(ns) && Reaches(r, a);
        assert r.ns in ns;
      }
    }
  }

  lemma {:induction false} ReachedBlocks(cs: seq<Cidr>)
    ensures forall a :: Reached(BlocksOf(cs), a) <==> AnyHolds(cs, a)
  {
    forall a ensures Reached(BlocksOf(cs), a) <==> AnyHolds(cs, a) {
      if AnyHolds(cs, a) {
        var i :| 0 <= i < |cs| && Holds(cs[i], a);
        assert BlocksOf(cs)[i] in BlocksOf(cs) && Reaches(BlocksOf(cs)[i], a);
      }
      if Reached(BlocksOf(cs), a) {
        var r :| r in BlocksOf(cs) && Reaches(r, a);
        assert r.cidr in cs;
      }
    }
  }

  /** `driver_utils.get_pods`: the matching pods of a namespace, or of all of them. */
  function PodsMatching(c: Cluster, sel: Selector, namespace: Option<string>): (r: seq<Pod>)
    ensures forall pod :: pod in r <==>
            pod in c.pods && (namespace.Some? ==> pod.namespace == namespace.value) && Matches(c, sel, pod.labels)
  {
    Filter(c.pods, (pod: Pod) => (namespace.Some? ==> pod.namespace == namespace.value) && Matches(c, sel, pod.labels))
  }

  /** `driver_utils.get_namespaces` */
  function NamespacesMatching(c: Cluster, sel: Selector): (r: seq<Namespace>)
    ensures forall n :: n in r <==> n in c.namespaces && Matches(c, sel, n.labels)
  {
    Filter(c.namespaces, (n: Namespace) => Matches(c, sel, n.labels))
  }

  function NamespacesNamed(c: Cluster, name: string): (r: seq<Namespace>)
    ensures forall n :: n in r <==> n in c.namespaces && n.name == name
  {
    Filter(c.namespaces, (n: Namespace) => n.name == name)
  }

  /** `_get_pods` with a namespace selector. Each matching namespace overwrites the pods of the one before. */
  method PodsInMatchingNamespaces(c: Cluster, pods: Selector, sel: Selector) returns (r: seq<Pod>)
    ensures r == LastNamespacePods(c, pods, sel)
  {
    r := [];
    var ns := NamespacesMatching(c, sel);
    for i := 0 to |ns|
      invariant r == LastPods(c, pods, ns, i)
    {
      r := PodsMatching(c, pods, Some(ns[i].name));
    }
  }

  ghost function LastNamespacePods(c: Cluster, pods: Selector, sel: Selector): seq<Pod> {
    var ns := NamespacesMatching(c, sel);
    LastPods(c, pods, ns, |ns|)
  }

  ghost function LastPods(c: Cluster, pods: Selector, ns: seq<Namespace>, i: nat): seq<Pod>
    requires i <= |ns|
  {
    if i == 0 then [] else PodsMatching(c, pods, Some(ns[i - 1].name))
  }

  /** The peer stands for the whole cluster: pod and service subnets. */
  predicate ClusterWide(peer: Peer) {
    peer.Select? && peer.namespaces == Some(Everything) && !PicksPods(peer)
  }

  /** `pod_selector` is there and not `{}`. */
  predicate PicksPods(peer: Peer)
    requires peer.Select?
  {
    peer.pods.Some? && peer.pods.value.Requirements?
  }

  predicate IsSelector(peer: Peer) {
    peer.Select? && (peer.namespaces.Some? || peer.pods.Some?)
  }

  function ClusterCidrs(c: Cluster): seq<Cidr> { c.podPool + [c.services] }

  /** The addresses that the resources found for a selector reach. */
  ghost predicate SelectorOpens(c: Cluster, own: string, peer: Peer, a: Address)
    requires peer.Select?
  {
    match peer.namespaces
    case Some(Everything) =>
      PicksPods(peer) && PodAt(PodsMatching(c, peer.pods.value, None), a)
    case Some(Requirements(_)) =>
      if PicksPods(peer) then PodAt(LastNamespacePods(c, peer.pods.value, peer.namespaces.value), a)
      else SubnetAt(NamespacesMatching(c, peer.namespaces.value), a)
    case None =>
      if PicksPods(peer) then PodAt(PodsMatching(c, peer.pods.value, Some(own)), a)
      else peer.pods.Some? && SubnetAt(NamespacesNamed(c, own), a)
  }

  ghost predicate SelectorsOpen(c: Cluster, own: string, peers: seq<Peer>, a: Address) {
    exists peer :: peer in peers && peer.Select? && SelectorOpens(c, own, peer, a)
  }

  /** The resources one selector adds in `_parse_selectors`. */
  method SelectorResources(c: Cluster, own: string, peer: Peer) returns (rs: seq<Resource>)
    requires peer.Select?
    ensures forall a :: Reached(rs, a) <==> SelectorOpens(c, own, peer, a)
  {
    rs := [];
    if peer.namespaces == Some(Everything) {
      if PicksPods(peer) {
        ReachedPods(PodsMatching(c, peer.pods.value, None));
        rs := PodsOf(PodsMatching(c, peer.pods.value, None));
      }
    } else if peer.namespaces.Some? {
      if PicksPods(peer) {
        var pods := PodsInMatchingNamespaces(c, peer.pods.value, peer.namespaces.value);
        ReachedPods(pods);
        rs := PodsOf(pods);
      } else {
        ReachedNamespaces(NamespacesMatching(c, peer.namespaces.value));
        rs := NamespacesOf(NamespacesMatching(c, peer.namespaces.value));
      }
    } else if PicksPods(peer) {
      ReachedPods(PodsMatching(c, peer.pods.value, Some(own)));
      rs := PodsOf(PodsMatching(c, peer.pods.value, Some(own)));
    } else if peer.pods.Some? {
      ReachedNamespaces(NamespacesNamed(c, own));
      rs := NamespacesOf(NamespacesNamed(c, own));
    }
  }

  /** `_parse_selectors` */
  method ParseSelectors(c: Cluster, own: string, peers: seq<Peer>)
    returns (cidrs: Option<seq<Cidr>>, selectors: bool, rs: seq<Resource>)
    ensures selectors <==> exists peer :: peer in peers && IsSelector(peer)
    ensures cidrs == if exists peer :: peer in peers && ClusterWide(peer) then Some(ClusterCidrs(c)) else None
    ensures cidrs.Some? ==> forall a :: AnyHolds(cidrs.value, a) <==> AnyHolds(c.podPool, a) || Holds(c.services, a)
    ensures forall a :: Reached(rs, a) <==> SelectorsOpen(c, own, peers, a)
    ensures !selectors ==> rs == []
  {
    cidrs, selectors, rs := None, false, [];
    for i := 0 to |peers|
      invariant selectors <==> exists peer :: peer in peers[..i] && IsSelector(peer)
      invariant cidrs == if exists peer :: peer in peers[..i] && ClusterWide(peer) then Some(ClusterCidrs(c)) else None
      invariant forall a :: Reached(rs, a) <==> SelectorsOpen(c, own, peers[..i], a)
      invariant !selectors ==> rs == []
    {
      var peer := peers[i];
      assert peers[..i + 1] == peers[..i] + [peer];
      if IsSelector(peer) {
        selectors := true;
        if ClusterWide(peer) {
          cidrs := Some(ClusterCidrs(c));
        }
        var more := SelectorResources(c, own, peer);
        ReachedConcat(rs, more);
        rs := rs + more;
      }
    }
    assert peers[..|peers|] == peers;
    AnyHoldsMore(c.podPool, c.services);
  }

  /** The addresses an `ipBlock` opens: each `except` is taken out of a copy of its own. */
  ghost predicate IpBlockOpens(peer: Peer, a: Address)
    requires peer.IpBlock?
  {
    Holds(peer.cidr, a) && (peer.excepts == [] || exists e :: e in peer.excepts && !Holds(e, a))
  }

  /** An `except` swallows the block, so that nothing is left of it. */
  predicate Swallowed(peer: Peer)
    requires peer.IpBlock?
  {
    peer.excepts != [] && forall e :: e in peer.excepts ==> Covers(e, peer.cidr)
  }

  method IpBlockResources(peer: Peer) returns (rs: seq<Resource>)
    requires peer.IpBlock?
    ensures forall a :: Reached(rs, a) <==> IpBlockOpens(peer, a)
    ensures rs == [] <==> Swallowed(peer)
  {
    if peer.excepts == [] {
      rs := BlocksOf([peer.cidr]);
      ReachedBlocks([peer.cidr]);
      return;
    }
    rs := [];
    for i := 0 to |peer.excepts|
      invariant forall a :: Reached(rs, a) <==>
                Holds(peer.cidr, a) && exists e :: e in peer.excepts[..i] && !Holds(e, a)
      invariant rs == [] <==> forall e :: e in peer.excepts[..i] ==> Covers(e, peer.cidr)
    {
      var e := peer.excepts[i];
      assert peer.excepts[..i + 1] == peer.excepts[..i] + [e];
      var left := Exclude(peer.cidr, e);
      forall a ensures AnyHolds(left, a) <==> Holds(peer.cidr, a) && !Holds(e, a) { ExcludeIsExact(peer.cidr, e, a); }
      NothingLeft(peer.cidr, e);
      ReachedBlocks(left);
      ReachedConcat(rs, BlocksOf(left));
      rs := rs + BlocksOf(left);
    }
    assert peer.excepts[..|peer.excepts|] == peer.excepts;
  }

  ghost predicate IpBlocksOpen(peers: seq<Peer>, a: Address) {
    exists peer :: peer in peers && peer.IpBlock? && IpBlockOpens(peer, a)
  }

  method IpBlocksResources(peers: seq<Peer>) returns (rs: seq<Resource>)
    ensures forall a :: Reached(rs, a) <==> IpBlocksOpen(peers, a)
    ensures rs == [] <==> forall peer :: peer in peers && peer.IpBlock? ==> Swallowed(peer)
  {
    rs := [];
    for i := 0 to |peers|
      invariant forall a :: Reached(rs, a) <==> IpBlocksOpen(peers[..i], a)
      invariant rs == [] <==> forall peer :: peer in peers[..i] && peer.IpBlock? ==> Swallowed(peer)
    {
      assert peers[..i + 1] == peers[..i] + [peers[i]];
      if peers[i].IpBlock? {
        var more := IpBlockResources(peers[i]);
        ReachedConcat(rs, more);
        rs := rs + more;
      }
    }
    assert peers[..|peers|] == peers;
  }

  // ---- rules ----

  /** A rule for this port opens the port and protocol of `p`; with port zero, any port. */
  predicate PortOpens(port: PortSpec, protocol: Option<Protocol>, p: Packet) {
    (port.port != 0 ==> p.port == port.port) && (protocol.Some? ==> p.protocol == protocol.value)
  }

  predicate PortOpensTcp(port: PortSpec, p: Packet) {
    PortOpens(port, Some(ProtocolOf(port)), p)
  }

  /** A new rule is for the address and the namespace of one of the resources. */
  ghost predicate ForResource(rules: seq<Rule>, rs: seq<Resource>, r: Rule) {
    r in rules || exists x :: x in rs && Names(x, r)
  }

  predicate Names(x: Resource, r: Rule) {
    match x
    case OfPod(pod) => pod.ip.Some? && r.cidr == Some(Host(pod.ip.value)) && r.namespace == Some(pod.namespace)
    case OfNamespace(ns) => r.cidr == ns.cidr && r.namespace == Some(ns.name)
    case OfBlock(cidr) => r.cidr == Some(cidr) && r.namespace.None?
  }

  /** `_create_sg_rule_on_number_port` */
  method RulesOnNumberPort(rs: seq<Resource>, port: PortSpec, rules: seq<Rule>) returns (out: seq<Rule>)
    ensures forall p :: Admits(out, p) <==> Admits(rules, p) || (Reached(rs, p.src) && PortOpensTcp(port, p))
    ensures forall r :: r in out ==> ForResource(rules, rs, r)
  {
    out := rules;
    for i := 0 to |rs|
      invariant forall p :: Admits(out, p) <==> Admits(rules, p) || (Reached(rs[..i], p.src) && PortOpensTcp(port, p))
      invariant forall r :: r in out ==> ForResource(rules, rs, r)
    {
      assert rs[..i + 1] == rs[..i] + [rs[i]];
      ReachedMore(rs[..i], rs[i]);
      var (cidr, ns) := Details(rs[i]);
      if cidr.Some? {
        var rule := RuleBody(Some(port.port), Some(ProtocolOf(port)), false, cidr, ns);
        assert forall p :: RuleAdmits(rule, p) <==> Reaches(rs[i], p.src) && PortOpensTcp(port, p);
        assert rs[i] in rs && ForResource(rules, rs, rule);
        AdmitsMore(out, rule);
        out := out + [rule];
      }
    }
    assert rs[..|rs|] == rs;
  }

  /** `_create_all_pods_sg_rules`. With CIDRs a missing protocol stays missing. */
  method AllPodsRules(port: PortSpec, rules: seq<Rule>, cidrs: seq<Cidr>) returns (out: seq<Rule>)
    ensures forall p :: Admits(out, p) <==>
              Admits(rules, p) ||
              if cidrs != [] then AnyHolds(cidrs, p.src) && PortOpens(port, port.protocol, p) else PortOpensTcp(port, p)
  {
    out := rules;
    if cidrs != [] {
      for i := 0 to |cidrs|
        invariant forall p :: Admits(out, p) <==>
                  Admits(rules, p) || (AnyHolds(cidrs[..i], p.src) && PortOpens(port, port.protocol, p))
      {
        assert cidrs[..i + 1] == cidrs[..i] + [cidrs[i]];
        AnyHoldsMore(cidrs[..i], cidrs[i]);
        var rule := RuleBody(Some(port.port), port.protocol, false, Some(cidrs[i]), None);
        assert forall p :: RuleAdmits(rule, p) <==> Holds(cidrs[i], p.src) && PortOpens(port, port.protocol, p);
        AdmitsMore(out, rule);
        out := out + [rule];
      }
      assert cidrs[..|cidrs|] == cidrs;
    } else {
      var rule4 := RuleBody(Some(port.port), Some(ProtocolOf(port)), false, None, None);
      AdmitsMore(out, rule4);
      out := out + [rule4];
      var rule6 := RuleBody(Some(port.port), Some(ProtocolOf(port)), true, None, None);
      AdmitsMore(out, rule6);
      out := out + [rule6];
    }
  }

  /** A rule for each family with no other condition. */
  method OpenAll(rules: seq<Rule>) returns (out: seq<Rule>)
    ensures forall p :: Admits(out, p)
  {
    AdmitsMore(rules, RuleBody(None, None, false, None, None));
    out := rules + [RuleBody(None, None, false, None, None)];
    AdmitsMore(out, RuleBody(None, None, true, None, None));
    out := out + [RuleBody(None, None, true, None, None)];
  }

  /** Rules for every port from the resources and CIDRs of a block without `ports`. */
  method RulesOnAnyPort(rs: seq<Resource>, cidrs: seq<Cidr>, rules: seq<Rule>) returns (out: seq<Rule>)
    ensures forall p :: Admits(out, p) <==> Admits(rules, p) || Reached(rs, p.src) || AnyHolds(cidrs, p.src)
    ensures forall r :: r in out ==>
            ForResource(rules, rs, r) || (r.namespace.None? && r.cidr.Some? && r.cidr.value in cidrs)
  {
    out := rules;
    for i := 0 to |rs|
      invariant forall p :: Admits(out, p) <==> Admits(rules, p) || Reached(rs[..i], p.src)
      invariant forall r :: r in out ==> ForResource(rules, rs, r)
    {
      assert rs[..i + 1] == rs[..i] + [rs[i]];
      ReachedMore(rs[..i], rs[i]);
      var (cidr, ns) := Details(rs[i]);
      if cidr.Some? {
        var rule := RuleBody(None, None, false, cidr, ns);
        assert forall p :: RuleAdmits(rule, p) <==> Reaches(rs[i], p.src);
        assert rs[i] in rs && ForResource(rules, rs, rule);
        AdmitsMore(out, rule);
        out := out + [rule];
      }
    }
    assert rs[..|rs|] == rs;
    for i := 0 to |cidrs|
      invariant forall p :: Admits(out, p) <==> Admits(rules, p) || Reached(rs, p.src) || AnyHolds(cidrs[..i], p.src)
      invariant forall r :: r in out ==>
                  ForResource(rules, rs, r) || (r.namespace.None? && r.cidr.Some? && r.cidr.value in cidrs)
    {
      assert cidrs[..i + 1] == cidrs[..i] + [cidrs[i]];
      AnyHoldsMore(cidrs[..i], cidrs[i]);
      var rule := RuleBody(None, None, false, Some(cidrs[i]), None);
      assert forall p :: RuleAdmits(rule, p) <==> Holds(cidrs[i], p.src);
      AdmitsMore(out, rule);
      out := out + [rule];
    }
    assert cidrs[..|cidrs|] == cidrs;
  }

  function PeersOf(b: Block): seq<Peer> {
    if b.peers.Some? then b.peers.value else []
  }

  /** `allowed_resources or allowed_cidrs or selectors` */
  ghost predicate Restricted(peers: seq<Peer>) {
    exists peer :: peer in peers && (IsSelector(peer) || (peer.IpBlock? && !Swallowed(peer)))
  }

  ghost predicate ResourcesOpen(c: Cluster, own: string, peers: seq<Peer>, a: Address) {
    SelectorsOpen(c, own, peers, a) || IpBlocksOpen(peers, a)
  }

  ghost predicate AnyClusterWide(peers: seq<Peer>) {
    exists peer :: peer in peers && ClusterWide(peer)
  }

  ghost predicate WideOpen(c: Cluster, peers: seq<Peer>, a: Address) {
    AnyClusterWide(peers) && AnyHolds(ClusterCidrs(c), a)
  }

  ghost predicate BlockPortOpens(c: Cluster, own: string, peers: seq<Peer>, port: PortSpec, p: Packet) {
    if Restricted(peers) then
      || (ResourcesOpen(c, own, peers, p.src) && PortOpensTcp(port, p))
      || (WideOpen(c, peers, p.src) && PortOpens(port, port.protocol, p))
    else PortOpensTcp(port, p)
  }

  /** What the rules made from one block admit. */
  ghost predicate BlockOpens(c: Cluster, own: string, b: Block, p: Packet) {
    if b.ports.Some? then
      exists port :: port in b.ports.value && BlockPortOpens(c, own, PeersOf(b), port, p)
    else
      ResourcesOpen(c, own, PeersOf(b), p.src) || WideOpen(c, PeersOf(b), p.src)
  }

  /** What the rules made from the policy admit. */
  ghost predicate PolicyOpens(c: Cluster, policy: Policy, p: Packet) {
    if policy.ingress == [] then policy.types == [Egress]
    else policy.ingress[0] == Block(None, None) ||
         exists b :: b in policy.ingress && BlockOpens(c, policy.namespace, b, p)
  }

  method PortRules(
    c: Cluster, own: string, ghost peers: seq<Peer>, rs: seq<Resource>, cidrs: seq<Cidr>, restricted: bool,
                   port: PortSpec, rules: seq<Rule>) returns (out: seq<Rule>)
    requires restricted <==> Restricted(peers)
    requires forall a :: Reached(rs, a) <==> ResourcesOpen(c, own, peers, a)
    requires cidrs == if AnyClusterWide(peers) then ClusterCidrs(c) else []
    ensures forall p :: Admits(out, p) <==> Admits(rules, p) || BlockPortOpens(c, own, peers, port, p)
  {
    if restricted {
      out := RulesOnNumberPort(rs, port, rules);
      if cidrs != [] {
        out := AllPodsRules(port, out, cidrs);
      }
    } else {
      out := AllPodsRules(port, rules, []);
    }
  }

  /** One iteration of the loop of `_parse_sg_rules`. */
  method BlockRules(c: Cluster, own: string, b: Block, rules: seq<Rule>) returns (out: seq<Rule>)
    ensures forall p :: Admits(out, p) <==> Admits(rules, p) || BlockOpens(c, own, b, p)
  {
    var peers := PeersOf(b);
    var allowed, selectors, rs := ParseSelectors(c, own, peers);
    var blocks := IpBlocksResources(peers);
    ReachedConcat(rs, blocks);
    rs := rs + blocks;
    var cidrs := if allowed.Some? then allowed.value else [];
    var restricted := rs != [] || cidrs != [] || selectors;
    assert restricted <==> Restricted(peers);
    if b.ports.Some? {
      out := rules;
      for i := 0 to |b.ports.value|
        invariant forall p :: Admits(out, p) <==>
                    Admits(rules, p) ||
                    exists port :: port in b.ports.value[..i] && BlockPortOpens(c, own, peers, port, p)
      {
        assert b.ports.value[..i + 1] == b.ports.value[..i] + [b.ports.value[i]];
        out := PortRules(c, own, peers, rs, cidrs, restricted, b.ports.value[i], out);
      }
      assert b.ports.value[..|b.ports.value|] == b.ports.value;
    } else if restricted {
      out := RulesOnAnyPort(rs, cidrs, rules);
    } else {
      out := rules;
      forall p ensures !BlockOpens(c, own, b, p) {
        assert !Reached(rs, p.src);
      }
    }
  }

  /** `_parse_sg_rules` for ingress */
  method ParseSgRules(c: Cluster, policy: Policy, rules: seq<Rule>) returns (out: seq<Rule>)
    ensures forall p :: Admits(out, p) <==> Admits(rules, p) || PolicyOpens(c, policy, p)
  {
    out := rules;
    if policy.ingress == [] {
      if |policy.types| == 1 && policy.types[0] == Egress {
        out := OpenAll(out);
      }
      return;
    }
    if policy.ingress[0] == Block(None, None) {
      out := OpenAll(out);
    }
    for i := 0 to |policy.ingress|
      invariant forall p :: Admits(out, p) <==>
                  || Admits(rules, p) || policy.ingress[0] == Block(None, None)
                  || exists b :: b in policy.ingress[..i] && BlockOpens(c, policy.namespace, b, p)
    {
      assert policy.ingress[..i + 1] == policy.ingress[..i] + [policy.ingress[i]];
      out := BlockRules(c, policy.namespace, policy.ingress[i], out);
    }
    assert policy.ingress[..|policy.ingress|] == policy.ingress;
  }
}
