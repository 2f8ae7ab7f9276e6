/** The rules emitted for a policy mean what the policy means. */
module NetworkPolicyMeaning {
  import opened Basics
  import opened Addresses
  import opened NetworkPolicy

  // ---- the cluster ----

  /** Pods have their addresses from the subnet of their namespace, subnets do not overlap, and all
      are cut from the pod subnet pool. */
  ghost predicate ClusterOk(c: Cluster) {
    && (forall n, m :: n in c.namespaces && m in c.namespaces && n.name == m.name ==> n == m)
    && (forall pod :: pod in c.pods && pod.ip.Some? ==> AtHome(c, pod.namespace, pod.ip.value))
    && (forall n, m, a :: n in c.namespaces && m in c.namespaces && InSubnet(n, a) && InSubnet(m, a) ==> n == m)
    && (forall n, a :: n in c.namespaces && InSubnet(n, a) ==> AnyHolds(c.podPool, a))
  }

  ghost predicate InSubnet(n: Namespace, a: Address) {
    n.cidr.Some? && Holds(n.cidr.value, a)
  }

  ghost predicate AtHome(c: Cluster, namespace: string, a: Address) {
    exists n :: n in c.namespaces && n.name == namespace && InSubnet(n, a)
  }

  /** Traffic comes from a pod or from outside of the cluster's pod and service subnets. */
  ghost predicate Source(c: Cluster, a: Address) {
    PodAt(c.pods, a) || !AnyHolds(ClusterCidrs(c), a)
  }

  // ---- peers ----

  ghost predicate PeerOpens(c: Cluster, own: string, peer: Peer, a: Address) {
    match peer
    case IpBlock(_, _) => IpBlockOpens(peer, a)
    case Select(_, _) => SelectorOpens(c, own, peer, a) || (ClusterWide(peer) && AnyHolds(ClusterCidrs(c), a))
  }

  ghost predicate AllSame(cs: seq<Cidr>) {
    forall c, d :: c in cs && d in cs ==> c == d
  }

  /** An `ipBlock` with at most one distinct `except`, smaller than the block, or selectors other
      than both a namespace and a pod requirement. */
  ghost predicate PeerOk(peer: Peer) {
    match peer
    case IpBlock(cidr, excepts) => AllSame(excepts) && forall e :: e in excepts ==> !Covers(e, cidr)
    case Select(namespaces, _) =>
      IsSelector(peer) && !(namespaces.Some? && namespaces.value.Requirements? && PicksPods(peer))
  }

  lemma {:induction false} SubnetMeaning(c: Cluster, ns: seq<Namespace>, a: Address)
    requires ClusterOk(c) && Source(c, a) && forall n :: n in ns ==> n in c.namespaces
    ensures SubnetAt(ns, a) <==>
            exists pod :: pod in c.pods && pod.ip == Some(a) && exists n :: n in ns && n.name == pod.namespace
  {
    if SubnetAt(ns, a) {
      var n :| n in ns && n.cidr.Some? && Holds(n.cidr.value, a);
      assert InSubnet(n, a);
      AnyHoldsConcat(c.podPool, [c.services], a);
      var pod :| pod in c.pods && pod.ip == Some(a);
      assert AtHome(c, pod.namespace, a);
      var h :| h in c.namespaces && h.name == pod.namespace && InSubnet(h, a);
      assert h == n;
    }
    if pod, n :| pod in c.pods && pod.ip == Some(a) && n in ns && n.name == pod.namespace {
      assert AtHome(c, pod.namespace, a);
      var h :| h in c.namespaces && h.name == pod.namespace && InSubnet(h, a);
      assert h == n;
    }
  }

  lemma {:induction false} ClusterMeaning(c: Cluster, a: Address)
    requires ClusterOk(c) && Source(c, a)
    ensures AnyHolds(ClusterCidrs(c), a) <==>
            exists pod :: pod in c.pods && pod.ip == Some(a) && exists n :: n in c.namespaces && n.name == pod.namespace
  {
    AnyHoldsConcat(c.podPool, [c.services], a);
    forall pod | pod in c.pods && pod.ip == Some(a)
      ensures AnyHolds(c.podPool, a) && exists n :: n in c.namespaces && n.name == pod.namespace
    {
      assert AtHome(c, pod.namespace, a);
      var h :| h in c.namespaces && h.name == pod.namespace && InSubnet(h, a);
    }
  }

  lemma {:induction false} PeerMeaning(c: Cluster, own: string, peer: Peer, a: Address)
    requires ClusterOk(c) && Source(c, a) && PeerOk(peer)
    ensures PeerOpens(c, own, peer, a) <==> PeerAdmits(c, own, peer, a)
  {
    if peer.IpBlock? {
      if peer.excepts != [] { assert peer.excepts[0] in peer.excepts; }
    } else {
      match peer.namespaces
      case Some(Everything) =>
        ClusterMeaning(c, a);
        forall pod | pod in c.pods && pod.ip == Some(a) ensures InScope(c, own, Some(Everything), pod.namespace) {
          assert AtHome(c, pod.namespace, a);
        }
      case Some(Requirements(_)) =>
        SubnetMeaning(c, NamespacesMatching(c, peer.namespaces.value), a);
      case None =>
        SubnetMeaning(c, NamespacesNamed(c, own), a);
        forall pod | pod in c.pods && pod.ip == Some(a) && pod.namespace == own
          ensures exists n :: n in NamespacesNamed(c, own) && n.name == pod.namespace
        {
          assert AtHome(c, pod.namespace, a);
        }
    }
  }

  // ---- blocks and policies ----

  ghost predicate AnyPeerOpens(c: Cluster, own: string, peers: seq<Peer>, a: Address) {
    exists peer :: peer in peers && PeerOpens(c, own, peer, a)
  }

  lemma {:induction false} OpenByPeers(c: Cluster, own: string, peers: seq<Peer>, a: Address)
    ensures ResourcesOpen(c, own, peers, a) || WideOpen(c, peers, a) <==> AnyPeerOpens(c, own, peers, a)
  {
    if AnyPeerOpens(c, own, peers, a) {
      var peer :| peer in peers && PeerOpens(c, own, peer, a);
      assert peer.IpBlock? ==> IpBlocksOpen(peers, a);
    }
    if SelectorsOpen(c, own, peers, a) {
      var peer :| peer in peers && peer.Select? && SelectorOpens(c, own, peer, a);
      assert PeerOpens(c, own, peer, a);
    }
    if IpBlocksOpen(peers, a) {
      var peer :| peer in peers && peer.IpBlock? && IpBlockOpens(peer, a);
      assert PeerOpens(c, own, peer, a);
    }
    if WideOpen(c, peers, a) {
      var peer :| peer in peers && ClusterWide(peer);
      assert PeerOpens(c, own, peer, a);
    }
  }

  /** No empty list, no port zero, and explicit protocols next to a peer that stands for the cluster. */
  ghost predicate BlockOk(b: Block) {
    && (b.peers.Some? ==> b.peers.value != [] && forall peer :: peer in b.peers.value ==> PeerOk(peer))
    && (b.ports.Some? ==> b.ports.value != [] && forall port :: port in b.ports.value ==> PortOk(b, port))
  }

  ghost predicate PortOk(b: Block, port: PortSpec) {
    port.port != 0 && (AnyClusterWide(PeersOf(b)) ==> port.protocol.Some?)
  }

  /** An `ipBlock` of which its excepts leave nothing. */
  predicate IsSwallowed(peer: Peer) {
    peer.IpBlock? && Swallowed(peer)
  }

  lemma {:induction false} SwallowedAdmitsNobody(c: Cluster, own: string, peer: Peer, a: Address)
    requires IsSwallowed(peer)
    ensures !PeerOpens(c, own, peer, a) && !PeerAdmits(c, own, peer, a)
  {
    forall e | e in peer.excepts ensures Holds(peer.cidr, a) ==> Holds(e, a) { Through(e, peer.cidr, a); }
    assert peer.excepts[0] in peer.excepts;
  }

  lemma {:induction false} PeersMeaning(c: Cluster, own: string, peers: seq<Peer>, a: Address)
    requires ClusterOk(c) && Source(c, a) && forall peer :: peer in peers ==> PeerOk(peer) || IsSwallowed(peer)
    ensures AnyPeerOpens(c, own, peers, a) <==> exists peer :: peer in peers && PeerAdmits(c, own, peer, a)
    ensures Restricted(peers) <==> exists peer :: peer in peers && !IsSwallowed(peer)
  {
    forall peer | peer in peers ensures PeerOpens(c, own, peer, a) <==> PeerAdmits(c, own, peer, a) {
      if IsSwallowed(peer) { SwallowedAdmitsNobody(c, own, peer, a); } else { PeerMeaning(c, own, peer, a); }
    }
  }

  lemma {:induction false} OkIsNotSwallowed(peer: Peer)
    requires PeerOk(peer)
    ensures !IsSwallowed(peer)
  {
    if peer.IpBlock? && peer.excepts != [] { assert peer.excepts[0] in peer.excepts; }
  }

  lemma {:induction false} PortMeaning(c: Cluster, own: string, b: Block, port: PortSpec, p: Packet)
    requires PortOk(b, port)
    ensures BlockPortOpens(c, own, PeersOf(b), port, p) <==>
              (Restricted(PeersOf(b)) ==> AnyPeerOpens(c, own, PeersOf(b), p.src)) && PortAdmits(port, p)
  {
    OpenByPeers(c, own, PeersOf(b), p.src);
  }

  /** What the rules of a block admit, when each peer is in the fragment or swallowed by its excepts. */
  lemma {:induction false} BlockOpensWhat(c: Cluster, own: string, b: Block, p: Packet)
    requires ClusterOk(c) && Source(c, p.src) && BlockNear(b) && b != Block(None, None)
    ensures BlockOpens(c, own, b, p) <==>
              && (b.ports.Some? ==> exists port :: port in b.ports.value && PortAdmits(port, p))
              && ((exists peer :: peer in PeersOf(b) && PeerAdmits(c, own, peer, p.src)) ||
                 (b.ports.Some? && AllSwallowed(PeersOf(b))))
  {
    OpenByPeers(c, own, PeersOf(b), p.src);
    PeersMeaning(c, own, PeersOf(b), p.src);
    forall peer | AllSwallowed(PeersOf(b)) && peer in PeersOf(b) ensures !PeerAdmits(c, own, peer, p.src) {
      SwallowedAdmitsNobody(c, own, peer, p.src);
    }
    if b.ports.Some? {
      forall port | port in b.ports.value
        ensures BlockPortOpens(c, own, PeersOf(b), port, p) <==>
                  (Restricted(PeersOf(b)) ==> AnyPeerOpens(c, own, PeersOf(b), p.src)) && PortAdmits(port, p)
      {
        PortMeaning(c, own, b, port, p);
      }
    }
  }

  /** A block whose peers are all swallowed, or that has none. */
  ghost predicate AllSwallowed(peers: seq<Peer>) {
    forall peer :: peer in peers ==> IsSwallowed(peer)
  }

  /** A block of the fragment but for peers that are swallowed. */
  ghost predicate BlockNear(b: Block) {
    && (b.peers.Some? ==> b.peers.value != [] && forall peer :: peer in b.peers.value ==>
       PeerOk(peer) || IsSwallowed(peer))
    && (b.ports.Some? ==> b.ports.value != [] && forall port :: port in b.ports.value ==> PortOk(b, port))
  }

  lemma {:induction false} BlockMeaning(c: Cluster, own: string, b: Block, p: Packet)
    requires ClusterOk(c) && Source(c, p.src) && BlockOk(b) && b != Block(None, None)
    ensures BlockOpens(c, own, b, p) <==> BlockAdmits(c, own, b, p)
  {
    BlockOpensWhat(c, own, b, p);
    if b.peers.Some? {
      assert b.peers.value[0] in b.peers.value;
      OkIsNotSwallowed(b.peers.value[0]);
    }
  }

  /** Every block is in the fragment, an empty block stands only first, and ingress rules come only
      with the policy type. */
  ghost predicate PolicyOk(policy: Policy) {
    && (Ingress in policy.types || (policy.types == [Egress] && policy.ingress == []))
    && (forall b :: b in policy.ingress ==> BlockOk(b))
    && (forall i :: 0 < i < |policy.ingress| ==> policy.ingress[i] != Block(None, None))
  }

  /** A rule of the policy, not an empty one, admits the packet. */
  ghost predicate SomeRuleAdmits(c: Cluster, policy: Policy, p: Packet) {
    exists b :: b in policy.ingress && b != Block(None, None) && BlockAdmits(c, policy.namespace, b, p)
  }

  /** The policy lets every packet in: it is not for ingress, or has an empty rule after the first. */
  ghost predicate LetsAllIn(policy: Policy) {
    Ingress !in policy.types || exists i :: 0 < i < |policy.ingress| && policy.ingress[i] == Block(None, None)
  }

  /** The rules open the packet for a reason of their own. */
  ghost predicate OpenAnyway(c: Cluster, policy: Policy, p: Packet) {
    if policy.ingress == [] then policy.types == [Egress]
    else policy.ingress[0] == Block(None, None) || SomeRuleAdmits(c, policy, p)
  }

  /** Whatever its types and wherever its empty rules are, a policy keeps its meaning at a packet
      exactly when it does not let everything in, or the rules open the packet anyway. */
  lemma {:induction false} PolicyMeaningExactly(c: Cluster, policy: Policy, p: Packet)
    requires ClusterOk(c) && Source(c, p.src) && forall b :: b in policy.ingress ==> BlockOk(b)
    ensures PolicyOpens(c, policy, p) <==> OpenAnyway(c, policy, p)
    ensures (PolicyOpens(c, policy, p) <==> PolicyAdmits(c, policy, p)) <==>
            (LetsAllIn(policy) ==> OpenAnyway(c, policy, p))
  {
    forall b | b in policy.ingress && b != Block(None, None)
      ensures BlockOpens(c, policy.namespace, b, p) <==> BlockAdmits(c, policy.namespace, b, p)
    {
      BlockMeaning(c, policy.namespace, b, p);
    }
    assert !BlockOpens(c, policy.namespace, Block(None, None), p) &&
           BlockAdmits(c, policy.namespace, Block(None, None), p);
    if policy.ingress != [] { assert policy.ingress[0] in policy.ingress; }
    if LetsAllIn(policy) { EverythingIsAdmitted(c, policy, p); } else { OnlyFirstIsEmpty(c, policy, p); }
  }

  lemma {:induction false} EverythingIsAdmitted(c: Cluster, policy: Policy, p: Packet)
    requires LetsAllIn(policy)
    ensures PolicyAdmits(c, policy, p)
  {
    if i :| 0 < i < |policy.ingress| && policy.ingress[i] == Block(None, None) {
      assert policy.ingress[i] in policy.ingress && BlockAdmits(c, policy.namespace, policy.ingress[i], p);
    }
  }

  lemma {:induction false} OnlyFirstIsEmpty(c: Cluster, policy: Policy, p: Packet)
    requires !LetsAllIn(policy)
    ensures PolicyAdmits(c, policy, p) <==> OpenAnyway(c, policy, p)
  {
    if policy.ingress != [] {
      assert policy.ingress[0] == Block(None, None) ==> BlockAdmits(c, policy.namespace, policy.ingress[0], p);
      assert policy.ingress[0] in policy.ingress;
      forall b | b in policy.ingress && b == Block(None, None) ensures policy.ingress[0] == b {
        var i :| 0 <= i < |policy.ingress| && policy.ingress[i] == b;
      }
    }
  }

  lemma {:induction false} PolicyMeaning(c: Cluster, policy: Policy, p: Packet)
    requires ClusterOk(c) && Source(c, p.src) && PolicyOk(policy)
    ensures PolicyOpens(c, policy, p) <==> PolicyAdmits(c, policy, p)
  {
    PolicyMeaningExactly(c, policy, p);
  }

  /** The ingress half of `_parse_network_policy_rules`: in the fragment the rules admit a packet
      exactly when the policy does. */
  method IngressRules(c: Cluster, policy: Policy) returns (rules: seq<Rule>)
    ensures forall p :: Admits(rules, p) <==> PolicyOpens(c, policy, p)
    ensures ClusterOk(c) && PolicyOk(policy) ==>
              forall p: Packet :: Source(c, p.src) ==> (Admits(rules, p) <==> PolicyAdmits(c, policy, p))
  {
    rules := ParseSgRules(c, policy, []);
    forall p: Packet | ClusterOk(c) && PolicyOk(policy) && Source(c, p.src)
      ensures PolicyOpens(c, policy, p) <==> PolicyAdmits(c, policy, p)
    {
      PolicyMeaning(c, policy, p);
    }
  }

  // ---- where the code and the policy part ----

  /** Several `except` entries mean what they say exactly when they are all the same: the code
      opens the block without what they have in common. */
  lemma {:induction false} ExceptsMeaning(c: Cluster, own: string, peer: Peer)
    requires peer.IpBlock? && forall e :: e in peer.excepts ==> Covers(peer.cidr, e)
    ensures (forall a :: IpBlockOpens(peer, a) <==> PeerAdmits(c, own, peer, a)) <==> AllSame(peer.excepts)
  {
    if AllSame(peer.excepts) {
      if peer.excepts != [] { assert peer.excepts[0] in peer.excepts; }
    } else if forall a :: IpBlockOpens(peer, a) <==> PeerAdmits(c, own, peer, a) {
      forall e, f | e in peer.excepts && f in peer.excepts ensures e == f {
        forall a: Address ensures Holds(e, a) <==> Holds(f, a) {
          Through(peer.cidr, e, a);
          Through(peer.cidr, f, a);
          assert IpBlockOpens(peer, a) <==> PeerAdmits(c, own, peer, a);
        }
        SameAddressesSameBlock(e, f);
      }
    }
  }

  /** A numeric port is translated exactly when it is not zero. */
  lemma {:induction false} NumberPortMeaning(port: PortSpec)
    ensures (forall p :: PortOpensTcp(port, p) <==> PortAdmits(port, p)) <==> port.port != 0
    ensures (forall p :: PortOpens(port, port.protocol, p) <==> PortAdmits(port, p)) <==>
            port.port != 0 && port.protocol.Some?
  {
    var src: Address := Address(false, Zeros(32));
    var other := Packet(src, ProtocolOf(port), port.port + 1);
    assert port.port == 0 ==>
           PortOpensTcp(port, other) && PortOpens(port, port.protocol, other) && !PortAdmits(port, other);
    var udp := Packet(src, UDP, port.port);
    assert port.protocol.None? ==> PortOpens(port, port.protocol, udp) && !PortAdmits(port, udp);
  }

  /** With requirements on namespaces and pods both, only the last matching namespace counts: the
      peer means what it says exactly when every pod it admits is in that one. */
  lemma {:induction false} BothSelectorsMeaning(c: Cluster, own: string, peer: Peer)
    requires peer.Select? && peer.namespaces.Some? && peer.namespaces.value.Requirements? && PicksPods(peer)
    requires forall x, y :: x in c.pods && y in c.pods && x.ip.Some? && x.ip == y.ip ==> x == y
    ensures (forall a :: SelectorOpens(c, own, peer, a) <==> PeerAdmits(c, own, peer, a)) <==>
            forall pod :: pod in c.pods && pod.ip.Some? && PodAdmitted(c, own, peer, pod) ==>
              var ns := NamespacesMatching(c, peer.namespaces.value);
              ns != [] && pod.namespace == ns[|ns| - 1].name
  {
    var ns := NamespacesMatching(c, peer.namespaces.value);
    if ns != [] { assert ns[|ns| - 1] in ns; }
    forall a ensures SelectorOpens(c, own, peer, a) ==> PeerAdmits(c, own, peer, a) {
      if SelectorOpens(c, own, peer, a) {
        var pod :| pod in LastNamespacePods(c, peer.pods.value, peer.namespaces.value) && pod.ip == Some(a);
        assert PodAdmitted(c, own, peer, pod);
      }
    }
    if forall a :: SelectorOpens(c, own, peer, a) <==> PeerAdmits(c, own, peer, a) {
      forall pod | pod in c.pods && pod.ip.Some? && PodAdmitted(c, own, peer, pod)
        ensures ns != [] && pod.namespace == ns[|ns| - 1].name
      {
        assert PeerAdmits(c, own, peer, pod.ip.value);
        assert SelectorOpens(c, own, peer, pod.ip.value);
      }
    }
  }

  /** Excepts that swallow every block of a rule lift its restriction: the rule keeps its meaning at
      a packet exactly when it has no ports, some peer is not swallowed, or no port admits the packet. */
  lemma {:induction false} SwallowedBlockMeaning(c: Cluster, own: string, b: Block, p: Packet)
    requires ClusterOk(c) && Source(c, p.src) && BlockNear(b) && b.peers.Some?
    ensures (BlockOpens(c, own, b, p) <==> BlockAdmits(c, own, b, p)) <==>
            !(b.ports.Some? && AllSwallowed(b.peers.value) &&
              exists port :: port in b.ports.value && PortAdmits(port, p))
  {
    BlockOpensWhat(c, own, b, p);
    forall peer | AllSwallowed(b.peers.value) && peer in b.peers.value ensures !PeerAdmits(c, own, peer, p.src) {
      SwallowedAdmitsNobody(c, own, peer, p.src);
    }
  }

  /** An empty rule after the first lets every packet in, and the rules do so exactly for packets
      that another rule admits, or when the first rule is empty too. */
  lemma {:induction false} LaterEmptyBlockIsLost(c: Cluster, policy: Policy, p: Packet, i: nat)
    requires ClusterOk(c) && Source(c, p.src) && forall b :: b in policy.ingress ==> BlockOk(b)
    requires 0 < i < |policy.ingress| && policy.ingress[i] == Block(None, None)
    ensures PolicyAdmits(c, policy, p)
    ensures PolicyOpens(c, policy, p) <==> policy.ingress[0] == Block(None, None) || SomeRuleAdmits(c, policy, p)
  {
    EverythingIsAdmitted(c, policy, p);
    PolicyMeaningExactly(c, policy, p);
  }

  /** So with ingress rules of a policy that is not for ingress; without any, it has to be for egress
      and nothing else. */
  lemma {:induction false} EgressPolicyStillRestricts(c: Cluster, policy: Policy, p: Packet)
    requires ClusterOk(c) && Source(c, p.src) && forall b :: b in policy.ingress ==> BlockOk(b)
    requires Ingress !in policy.types
    ensures PolicyAdmits(c, policy, p)
    ensures PolicyOpens(c, policy, p) <==>
              if policy.ingress == [] then policy.types == [Egress]
              else policy.ingress[0] == Block(None, None) || SomeRuleAdmits(c, policy, p)
  {
    PolicyMeaningExactly(c, policy, p);
  }
}
