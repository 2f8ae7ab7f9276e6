/** The access list of an Octavia listener, computed from the security groups of the pods behind
    it: `_create_listeners_acls` and `_update_listener_acls`. */
module ListenerAcl {
  import opened Basics
  import opened Addresses

  const MAX_PORT := 65535

  type Port = p: int | 0 <= p <= MAX_PORT

  datatype SgRule = SgRule(
    ingress: bool, protocol: Option<string>, ports: Option<(int, int)>, prefix: Option<Cidr>,
      remoteGroup: Option<string>)

  /** The rules Neutron lists for each group, and the groups of pods under no policy. */
  datatype Groups = Groups(rules: string -> seq<SgRule>, defaults: set<string>)

  // ---- what the groups say ----

  /** The rule is for ingress of that protocol to that port, and not about another group. */
  predicate Concerns(r: SgRule, protocol: string, port: Port) {
    && r.ingress && r.remoteGroup.None? && (r.protocol.Some? ==> r.protocol.value == protocol)
    && (r.ports.Some? ==> r.ports.value.0 <= port <= r.ports.value.1)
  }

  predicate RuleAdmits(r: SgRule, protocol: string, port: Port, a: Address) {
    Concerns(r, protocol, port) && (r.prefix.Some? ==> Holds(r.prefix.value, a))
  }

  /** A range that starts at port zero goes on to the last port. */
  predicate ZeroIsAll(r: SgRule) {
    r.ports.Some? && r.ports.value.0 == 0 ==> r.ports.value.1 >= MAX_PORT
  }

  ghost predicate ZerosAreAll(g: Groups) {
    forall sg, r :: r in g.rules(sg) ==> ZeroIsAll(r)
  }

  /** The groups let the source in: one of them, other than the load balancer's own, is a default
      one, or has a rule that admits it. */
  ghost predicate GroupsAdmit(
    g: Groups, sgs: seq<string>, lbSg: Option<string>, protocol: string, port: Port, a: Address) {
    exists sg :: sg in sgs && Some(sg) != lbSg &&
      (sg in g.defaults || exists r :: r in g.rules(sg) && RuleAdmits(r, protocol, port, a))
  }

  // ---- the driver ----

  /** The test of the loop body: a range that starts at zero counts as no range. */
  predicate Taken(r: SgRule, protocol: string, port: Port) {
    && r.remoteGroup.None? && (r.protocol.None? || r.protocol.value == protocol) && r.ingress
    && !(r.ports.Some? && r.ports.value.0 != 0 && !(r.ports.value.0 <= port < r.ports.value.1 + 1))
  }

  /** The ports of a rule are read as Neutron means them, for every port, exactly when a range that
      starts at zero is the whole range. */
  lemma {:induction false} PortsMeaning(r: SgRule)
    requires r.ingress && r.remoteGroup.None?
    ensures (forall protocol, port: Port :: Taken(r, protocol, port) <==> Concerns(r, protocol, port)) <==> ZeroIsAll(r)
  {
    if !ZeroIsAll(r) {
      var protocol := if r.protocol.Some? then r.protocol.value else "";
      var above: Port := if r.ports.value.1 < 0 then 0 else r.ports.value.1 + 1;
      assert Taken(r, protocol, above) && !Concerns(r, protocol, above);
    }
  }

  /** What one listener answers: nothing when it is down, and with an empty list everybody. */
  ghost predicate ListenerAdmits(up: bool, allowed: Option<seq<Cidr>>, a: Address) {
    up && (allowed.None? || allowed.value == [] || AnyHolds(allowed.value, a))
  }

  /** What the loop has gathered stands for: everybody, or the prefixes. */
  ghost predicate Gathered(open: bool, cidrs: seq<Cidr>, a: Address) {
    open || AnyHolds(cidrs, a)
  }

  ghost predicate RulesAdmit(rules: seq<SgRule>, protocol: string, port: Port, a: Address) {
    exists r :: r in rules && Taken(r, protocol, port) && (r.prefix.Some? ==> Holds(r.prefix.value, a))
  }

  /** One group's rules. */
  method GatherRules(
    rules: seq<SgRule>, protocol: string, port: Port, open0: bool, cidrs0: seq<Cidr>)
    returns (open: bool, cidrs: seq<Cidr>)
    ensures forall a :: Gathered(open, cidrs, a) <==> Gathered(open0, cidrs0, a) || RulesAdmit(rules, protocol, port, a)
  {
    open, cidrs := open0, cidrs0;
    for i := 0 to |rules|
      invariant forall a :: Gathered(open, cidrs, a) <==>
                Gathered(open0, cidrs0, a) || RulesAdmit(rules[..i], protocol, port, a)
    {
      var r := rules[i];
      assert rules[..i + 1] == rules[..i] + [r];
      if Taken(r, protocol, port) {
        if r.prefix.Some? {
          AnyHoldsMore(cidrs, r.prefix.value);
          cidrs := cidrs + [r.prefix.value];
        } else {
          open := true;
        }
      }
    }
    assert rules[..|rules|] == rules;
  }

  ghost predicate GroupsOpen(
    g: Groups, sgs: seq<string>, lbSg: Option<string>, protocol: string, port: Port, a: Address) {
    exists sg :: sg in sgs && Some(sg) != lbSg && (sg in g.defaults || RulesAdmit(g.rules(sg), protocol, port, a))
  }

  method GatherGroups(
    g: Groups, sgs: seq<string>, lbSg: Option<string>, protocol: string, port: Port)
    returns (open: bool, cidrs: seq<Cidr>)
    ensures forall a :: Gathered(open, cidrs, a) <==> GroupsOpen(g, sgs, lbSg, protocol, port, a)
  {
    open, cidrs := false, [];
    var i, stop := 0, false;
    while i < |sgs| && !stop
      invariant i <= |sgs|
      invariant !stop ==> forall a :: Gathered(open, cidrs, a) <==> GroupsOpen(g, sgs[..i], lbSg, protocol, port, a)
      invariant stop ==> open && forall a :: GroupsOpen(g, sgs, lbSg, protocol, port, a)
      decreases |sgs| - i
    {
      var sg := sgs[i];
      assert sgs[..i + 1] == sgs[..i] + [sg];
      if Some(sg) != lbSg {
        if sg in g.defaults {
          assert sg in sgs;
          open, stop := true, true;
        } else {
          open, cidrs := GatherRules(g.rules(sg), protocol, port, open, cidrs);
        }
      }
      i := i + 1;
    }
    assert sgs[..|sgs|] == sgs;
  }

  lemma {:induction false} OpenMeaning(
    g: Groups, sgs: seq<string>, lbSg: Option<string>, protocol: string, port: Port, a: Address)
    requires ZerosAreAll(g)
    ensures GroupsOpen(g, sgs, lbSg, protocol, port, a) <==> GroupsAdmit(g, sgs, lbSg, protocol, port, a)
  {
    forall sg ensures RulesAdmit(g.rules(sg), protocol, port, a) <==>
      exists r :: r in g.rules(sg) && RuleAdmits(r, protocol, port, a) {
      if RulesAdmit(g.rules(sg), protocol, port, a) {
        var r :| r in g.rules(sg) && Taken(r, protocol, port) && (r.prefix.Some? ==> Holds(r.prefix.value, a));
        assert ZeroIsAll(r);
        assert RuleAdmits(r, protocol, port, a);
      }
      if r :| r in g.rules(sg) && RuleAdmits(r, protocol, port, a) {
        assert Taken(r, protocol, port);
      }
    }
  }

  class Listener {
    var allowed: Option<seq<Cidr>>
    var up: bool

    constructor (allowed: Option<seq<Cidr>>, up: bool)
      ensures this.allowed == allowed && this.up == up
    {
      this.allowed, this.up := allowed, up;
    }

    /** `_update_listener_acls`. No list means everybody, an empty list nobody. */
    method UpdateAcls(provisioned: bool, cidrs: Option<seq<Cidr>>)
      modifies this
      ensures !provisioned ==> allowed == old(allowed) && up == old(up)
      ensures provisioned ==> forall a :: ListenerAdmits(up, allowed, a) <==> cidrs.None? || AnyHolds(cidrs.value, a)
      ensures provisioned && cidrs == Some([]) ==> !up
    {
      if provisioned {
        up := cidrs.None? || |cidrs.value| != 0;
        allowed := cidrs;
      }
    }

    /** `_create_listeners_acls`: the listener lets a source in exactly when the groups do, or when
        there are none. */
    method CreateAcls(
      g: Groups, newSgs: seq<string>, lbSgs: seq<string>, lbSg: Option<string>, protocol: string, port: Port,
      provisioned: bool)
      modifies this
      ensures !provisioned ==> allowed == old(allowed) && up == old(up)
      ensures provisioned ==>
                var sgs := if newSgs != [] then newSgs else lbSgs;
                forall a :: ListenerAdmits(up, allowed, a) <==> sgs == [] || GroupsOpen(g, sgs, lbSg, protocol, port, a)
      ensures provisioned && ZerosAreAll(g) ==>
                var sgs := if newSgs != [] then newSgs else lbSgs;
                forall a :: ListenerAdmits(up, allowed, a) <==>
                  sgs == [] || GroupsAdmit(g, sgs, lbSg, protocol, port, a)
    {
      var sgs := if newSgs != [] then newSgs else lbSgs;
      var open, cidrs := true, [];
      if sgs != [] {
        open, cidrs := GatherGroups(g, sgs, lbSg, protocol, port);
        forall a | ZerosAreAll(g) ensures Gathered(open, cidrs, a) <==> GroupsAdmit(g, sgs, lbSg, protocol, port, a) {
          OpenMeaning(g, sgs, lbSg, protocol, port, a);
        }
      }
      UpdateAcls(provisioned, if open then None else Some(cidrs));
      assert forall a :: Gathered(open, cidrs, a) <==> open || AnyHolds(cidrs, a);
    }
  }
}
