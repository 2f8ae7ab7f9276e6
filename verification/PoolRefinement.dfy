/** The methods of the pool object are runs of the driver: what a method does without interruption is
    where the steps of the driver lead when its calls succeed and nothing comes between. */
module PoolRefinement {
  import opened PortIndex
  import opened PoolProtocol
  import V = VifPool

  ghost predicate Leads(c: Config, s: State, s': State) {
    exists trace, steps :: Run(c, trace, steps) && trace[0] == s && trace[|steps|] == s'
  }

  lemma {:induction false} Stay(c: Config, s: State)
    ensures Leads(c, s, s)
  {
    assert Run(c, [s], []) && [s][0] == s;
  }

  lemma {:induction false} Go(c: Config, s: State, s1: State, step: Step, s2: State)
    requires Leads(c, s, s1) && Enabled(c, s1, step) && s2 == Apply(c, s1, step)
    ensures Leads(c, s, s2)
  {
    var trace, steps :| Run(c, trace, steps) && trace[0] == s && trace[|steps|] == s1;
    Extend(c, trace, steps, step, s2);
  }

  lemma {:induction false} Extend(c: Config, trace: seq<State>, steps: seq<Step>, step: Step, s': State)
    requires Run(c, trace, steps) && Enabled(c, trace[|steps|], step) && s' == Apply(c, trace[|steps|], step)
    ensures Leads(c, trace[0], s')
  {
    var trace', steps' := trace + [s'], steps + [step];
    forall i | 0 <= i < |steps'| ensures Follows(c, trace', steps', i) {
      if i < |steps| {
        assert Follows(c, trace, steps, i);
        assert trace'[i] == trace[i] && trace'[i + 1] == trace[i + 1] && steps'[i] == steps[i];
      } else {
        assert trace'[i] == trace[|steps|] && trace'[i + 1] == s' && steps'[i] == step;
      }
    }
    assert Run(c, trace', steps') && trace'[0] == trace[0] && trace'[|steps'|] == s';
  }

  /** The dictionaries of the object are those of the driver. */
  ghost predicate Shows(s: State, x: V.Snapshot) {
    x.pools == s.pools && x.existing.Keys == s.existing && x.recyclable == s.recyclable && x.neutron == s.neutron
  }

  /** Nothing but the dictionaries and the pass has changed. */
  ghost predicate SameElse(s: State, s': State) {
    s' == s.(pools := s'.pools, existing := s'.existing, recyclable := s'.recyclable, neutron := s'.neutron,
             pass := s'.pass)
  }

  // ---- the return pass ----

  lemma {:induction false} FilesAsMethod(s: State, x: V.Snapshot, poolMax: nat)
    requires s.pass.Passing? && s.pass.items != [] && Shows(s, x)
    requires poolMax == 0 || Size(Pool(s, s.pass.items[0].1)) < poolMax
    ensures var (p, k) := s.pass.items[0];
            Shows(FileFirst(s), V.AfterItem(poolMax, x, p, k, KeyOf(s.pass.sgCurrent, p)))
  { }

  lemma {:induction false} DropsAsMethod(s: State, x: V.Snapshot, poolMax: nat)
    requires PassAt(s, Ready) && Shows(s, x) && poolMax > 0 && Size(Pool(s, s.pass.items[0].1)) >= poolMax
    ensures var (p, k) := s.pass.items[0];
            Shows(if p in s.existing then DroppedFirst(Dropping(s), true) else Dropping(s),
                  V.AfterItem(poolMax, x, p, k, KeyOf(s.pass.sgCurrent, p)))
  {
    var (p, k) := s.pass.items[0];
    assert (x.existing - {p}).Keys == s.existing - {p};
  }

  lemma {:induction false} ReturnRun(c: Config, s0: State, s: State)
    requires Leads(c, s0, s) && PassAt(s, Ready) && HasRoom(c, s, s.pass.items[0].1)
    requires c.debug ==> s.pass.items[0].0 in s.neutron
    ensures Leads(c, s0, FileFirst(s))
  {
    if c.debug {
      var s1 := s.(pass := s.pass.(stage := Renaming));
      Go(c, s0, s, RenameItem, s1);
      Go(c, s0, s1, RenamedItem(true), FileFirst(s));
    } else {
      Go(c, s0, s, FileItem, FileFirst(s));
    }
  }

  lemma {:induction false} DropRun(c: Config, s0: State, s: State)
    requires Leads(c, s0, s) && PassAt(s, Ready) && !HasRoom(c, s, s.pass.items[0].1)
    ensures Leads(c, s0, if s.pass.items[0].0 in s.existing then DroppedFirst(Dropping(s), true) else Dropping(s))
  {
    Go(c, s0, s, DropItem, Dropping(s));
    if s.pass.items[0].0 in s.existing { Go(c, s0, Dropping(s), DroppedItem(true), DroppedFirst(Dropping(s), true)); }
  }

  lemma {:induction false} OneItem(c: Config, s0: State, s: State, x: V.Snapshot) returns (s': State)
    requires Leads(c, s0, s) && PassAt(s, Ready) && Shows(s, x) && (c.debug ==> s.pass.items[0].0 in s.neutron)
    ensures Leads(c, s0, s') && SameElse(s, s') && s'.pass == s.pass.(items := s.pass.items[1..])
    ensures var (p, k) := s.pass.items[0]; Shows(s', V.AfterItem(c.poolMax, x, p, k, KeyOf(s.pass.sgCurrent, p)))
  {
    if HasRoom(c, s, s.pass.items[0].1) {
      FilesAsMethod(s, x, c.poolMax);
      ReturnRun(c, s0, s);
      s' := FileFirst(s);
    } else {
      DropsAsMethod(s, x, c.poolMax);
      DropRun(c, s0, s);
      s' := if s.pass.items[0].0 in s.existing then DroppedFirst(Dropping(s), true) else Dropping(s);
    }
  }

  /** Neutron still has the ports of the items to come. */
  ghost predicate StillThere(s: State, items: V.Items, i: nat) {
    forall j :: i <= j < |items| ==> items[j].0 in s.neutron
  }

  lemma {:induction false} RestOfPass(
    c: Config, s0: State, s: State, x: V.Snapshot, items: V.Items, i: nat, told: V.Told) returns (s': State)
    requires i <= |items| && Leads(c, s0, s) && s.pass.Passing? && s.pass.stage == Ready && s.pass.items == items[i..]
    requires Shows(s, V.PassAfter(c.poolMax, x, items, i, told)) && V.OnceEach(items)
    requires forall j :: 0 <= j < |items| ==> KeyOf(s.pass.sgCurrent, items[j].0) == V.GroupsOf(told, items[j].0)
    requires c.debug ==> StillThere(s, items, i)
    ensures Leads(c, s0, s') && SameElse(s, s') && s'.pass == s.pass.(items := [])
    ensures Shows(s', V.PassAfter(c.poolMax, x, items, |items|, told))
    decreases |items| - i
  {
    if i == |items| {
      s' := s;
    } else {
      var x1 := V.PassAfter(c.poolMax, x, items, i, told);
      assert s.pass.items[0] == items[i];
      var s1 := OneItem(c, s0, s, x1);
      assert V.NextItem(c.poolMax, x1, items[i], told) == V.PassAfter(c.poolMax, x, items, i + 1, told);
      if c.debug { OthersStay(s, s1, x1, items, i, told, c.poolMax); }
      s' := RestOfPass(c, s0, s1, x, items, i + 1, told);
    }
  }

  lemma {:induction false} OthersStay(
    s: State, s1: State, x: V.Snapshot, items: V.Items, i: nat, told: V.Told, poolMax: nat)
    requires i < |items| && Shows(s, x) && Shows(s1, V.NextItem(poolMax, x, items[i], told))
    requires V.OnceEach(items) && StillThere(s, items, i)
    ensures StillThere(s1, items, i + 1)
  {
    forall j | i + 1 <= j < |items| ensures items[j].0 in s1.neutron {
      assert V.ItemFor(items, i, items[i].0);
      if items[j].0 == items[i].0 { assert V.ItemFor(items, j, items[i].0); }
    }
  }

  function Current(s: State, listed: set<PortId>): map<PortId, set<SgId>> {
    V.Current(V.Told(false, listed, s.neutron), s.recyclable)
  }

  function Page(s: State, listed: set<PortId>): map<PortId, set<SgId>> {
    map p | p in listed && p in s.neutron :: s.neutron[p]
  }

  lemma {:induction false} PageIsRead(c: Config, s: State, listed: set<PortId>)
    ensures var s1 := s.(pass := Listing(Page(s, listed), map[]));
            Apply(c, s1, ReadPage) == s.(pass := Listing(map[], Current(s, listed)))
  {
    var page := Page(s, listed);
    assert map[] + (map p | p in page && p in s.recyclable :: page[p]) == Current(s, listed);
  }

  /** The listing: what Neutron answers and the pass reads are the groups the method is told. */
  lemma {:induction false} ReadListing(c: Config, s: State, listed: set<PortId>)
    returns (s': State, current: map<PortId, set<SgId>>)
    requires s.pass.NoPass?
    ensures Leads(c, s, s') && s' == s.(pass := Listing(map[], current))
    ensures current == if c.debug then map[] else Current(s, listed)
  {
    Stay(c, s);
    s', current := s.(pass := Listing(map[], map[])), map[];
    Go(c, s, s, BeginListing, s');
    if !c.debug {
      var s2 := s.(pass := Listing(Page(s, listed), map[]));
      Go(c, s, s', Answer(Page(s, listed)), s2);
      PageIsRead(c, s, listed);
      s', current := s.(pass := Listing(map[], Current(s, listed))), Current(s, listed);
      Go(c, s, s2, ReadPage, s');
    }
  }

  lemma {:induction false} DifferentPorts(items: V.Items)
    requires V.OnceEach(items)
    ensures forall i, j :: 0 <= i < j < |items| ==> items[i].0 != items[j].0
  {
    forall i, j | 0 <= i < j < |items| ensures items[i].0 != items[j].0 {
      assert V.ItemFor(items, i, items[i].0);
      if items[i].0 == items[j].0 { assert V.ItemFor(items, j, items[i].0); }
    }
  }

  lemma {:induction false} Listed(c: Config, s: State, items: V.Items, listed: set<PortId>)
    returns (s': State, current: map<PortId, set<SgId>>)
    requires s.pass.NoPass? && V.Lists(items, s.recyclable)
    ensures Leads(c, s, s') && s' == s.(pass := Passing(items, current, Ready))
    ensures current == if c.debug then map[] else Current(s, listed)
  {
    var s1;
    s1, current := ReadListing(c, s, listed);
    s' := s.(pass := Passing(items, current, Ready));
    DifferentPorts(items);
    Go(c, s, s1, BeginPass(items), s');
  }

  /** A return pass of the driver does to the dictionaries what the method does. */
  lemma {:induction false} PassIsTheMethod(c: Config, s: State, x: V.Snapshot, items: V.Items, listed: set<PortId>)
    returns (s': State)
    requires s.pass.NoPass? && Shows(s, x) && V.Lists(items, s.recyclable) && (c.debug ==> StillThere(s, items, 0))
    ensures Leads(c, s, s') && SameElse(s, s') && s'.pass.NoPass?
    ensures Shows(s', V.PassAfter(c.poolMax, x, items, |items|, V.Told(c.debug, listed, s.neutron)))
  {
    var told := V.Told(c.debug, listed, s.neutron);
    var s1, current := Listed(c, s, items, listed);
    forall j | 0 <= j < |items| ensures KeyOf(current, items[j].0) == V.GroupsOf(told, items[j].0) {
      V.KeyIsTold(told, s.recyclable, items[j].0);
    }
    assert items[0..] == items;
    var s2 := RestOfPass(c, s, s1, x, items, 0, told);
    s' := s2.(pass := NoPass);
    Go(c, s, s2, EndPass, s');
  }

  // ---- requests and populations ----

  /** A request that is served pops the port of its own groups or else of the oldest group, which then gets
      the groups in Neutron. */
  lemma {:induction false} RequestIsTheMethod(c: Config, s: State, k: PoolKey, want: set<SgId>, t: nat)
    returns (s': State)
    requires t !in s.requests && Size(Pool(s, k)) > 0
    requires var gs := Pool(s, k);
             var i := Choose(gs, want);
             i < |gs| && gs[i].key != Sgs(want) ==> gs[i].ports[|gs[i].ports| - 1] in s.neutron
    ensures Leads(c, s, s')
    ensures var gs := Pool(s, k);
            var i := Choose(gs, want);
            i < |gs| &&
            var p := gs[i].ports[|gs[i].ports| - 1];
            s' == s.(pools := s.pools[k := PopAt(gs, i)],
                     neutron := if gs[i].key == Sgs(want) then s.neutron else s.neutron[p := want],
                     held := if p in s.existing then s.held + {p} else s.held)
  {
    var gs := Pool(s, k);
    ChooseFindsAPort(gs, want);
    var i := Choose(gs, want);
    Stay(c, s);
    var s1 := Popped(s, t, k, want);
    Go(c, s, s, Pop(t, k, want), s1);
    if !s1.requests[t].ready {
      var s2 := Apply(c, s1, Repair(t));
      Go(c, s, s1, Repair(t), s2);
      s1 := s2;
    }
    s' := Apply(c, s1, Finish(t));
    Go(c, s, s1, Finish(t), s');
    assert s'.requests == s.requests;
  }

  /** A population that gets its ports files them under the groups asked for, the newest group then. */
  lemma {:induction false} PopulationIsTheMethod(
    c: Config, s: State, k: PoolKey, want: set<SgId>, t: nat, ports: seq<PortId>, defaults: set<SgId>)
    returns (s': State)
    requires t !in s.populating && k !in s.locks && Size(Pool(s, k)) < c.poolMin
    requires |ports| <= Requested(c, Size(Pool(s, k))) && Distinct(ports) && forall p :: p in ports ==> p !in s.created
    ensures Leads(c, s, s') && s'.populating == s.populating && s'.locks == s.locks
    ensures var filed := FileAll(Pool(s, k), Sgs(want), ports);
            s'.pools == s.pools[k := if ports == [] then filed else MoveToEnd(filed, Sgs(want))]
    ensures s'.existing == s.existing + (set p | p in ports)
    ensures s'.neutron == s.neutron + map p | p in ports :: if want == {} then defaults else want
  {
    Stay(c, s);
    var s1 := Apply(c, s, BeginPopulate(t, k, want));
    Go(c, s, s, BeginPopulate(t, k, want), s1);
    s' := Populated(s1, t, ports, defaults);
    Go(c, s, s1, EndPopulate(t, ports, defaults), s');
    assert s'.populating == s.populating && s'.locks == s.locks;
  }

  // ---- removals ----

  /** Removal `t` of pool `k` has cleared and filed the first `n` of these ports. */
  ghost predicate Draining(
    s: State, t: nat, k: PoolKey, ports: seq<PortId>, n: nat, gs: Groups, neutron: map<PortId, set<SgId>>,
    cleared: set<SgId>)
    requires n <= |ports|
  {
    && t in s.drains && s.drains[t] == Drain(k, ports[n..]) && k in s.pools
    && s.pools[k] == FileAll(gs, NO_GROUPS, ports[..n]) && s.neutron == V.SetAll(neutron, ports[..n], cleared)
  }

  lemma {:induction false} DrainOne(
    s: State, t: nat, k: PoolKey, ports: seq<PortId>, n: nat, gs: Groups, neutron: map<PortId, set<SgId>>,
    cleared: set<SgId>)
    requires n < |ports| && Draining(s, t, k, ports, n, gs, neutron, cleared)
    ensures s.drains[t].ports != [] && s.drains[t].ports[0] == ports[n]
    ensures Draining(Drained(s, t, cleared), t, k, ports, n + 1, gs, neutron, cleared)
  {
    assert ports[n..][1..] == ports[n + 1..];
    assert ports[..n + 1][..n] == ports[..n];
    V.SetOneMore(neutron, ports, n, cleared);
  }

  lemma {:induction false} DrainRest(
    c: Config, s0: State, s: State, t: nat, k: PoolKey, ports: seq<PortId>, n: nat, gs: Groups,
    neutron: map<PortId, set<SgId>>, cleared: set<SgId>)
    returns (s': State)
    requires n <= |ports| && Leads(c, s0, s) && Draining(s, t, k, ports, n, gs, neutron, cleared)
    requires forall p :: p in ports ==> p in neutron
    ensures Leads(c, s0, s') && Draining(s', t, k, ports, |ports|, gs, neutron, cleared)
    ensures s' == s.(pools := s'.pools, neutron := s'.neutron, drains := s'.drains)
    ensures s'.pools - {k} == s.pools - {k} && s'.drains - {t} == s.drains - {t}
    decreases |ports| - n
  {
    s' := s;
    if n < |ports| {
      DrainOne(s, t, k, ports, n, gs, neutron, cleared);
      var s1 := Drained(s, t, cleared);
      assert ports[n] in ports;
      Go(c, s0, s, DrainPort(t, cleared), s1);
      s' := DrainRest(c, s0, s1, t, k, ports, n + 1, gs, neutron, cleared);
    }
  }

  lemma {:induction false} RemovalBegins(c: Config, s: State, k: PoolKey, i: nat, sg: SgId, t: nat, cleared: set<SgId>)
    returns (s': State)
    requires t !in s.drains && i < |Pool(s, k)| && Hit(Pool(s, k)[i].key, sg)
    ensures Leads(c, s, s') && s' == Apply(c, s, BeginDrain(t, k, sg, i))
    ensures Draining(s', t, k, Pool(s, k)[i].ports, 0, Without(Pool(s, k), i), s.neutron, cleared)
  {
    var ports := Pool(s, k)[i].ports;
    Stay(c, s);
    s' := Apply(c, s, BeginDrain(t, k, sg, i));
    Go(c, s, s, BeginDrain(t, k, sg, i), s');
    assert ports[0..] == ports && ports[..0] == [] && V.SetAll(s.neutron, [], cleared) == s.neutron;
  }

  lemma {:induction false} RemovalEnds(
    c: Config, s0: State, s: State, t: nat, k: PoolKey, ports: seq<PortId>, gs: Groups,
    neutron: map<PortId, set<SgId>>, cleared: set<SgId>)
    returns (s': State)
    requires Leads(c, s0, s) && Draining(s, t, k, ports, |ports|, gs, neutron, cleared)
    ensures Leads(c, s0, s') && Pool(s', k) == MoveToFront(FileAll(gs, NO_GROUPS, ports), NO_GROUPS)
    ensures s'.neutron == V.SetAll(neutron, ports, cleared) && s'.pools - {k} == s.pools - {k}
    ensures s' == s.(pools := s'.pools, drains := s.drains - {t})
  {
    assert ports[..|ports|] == ports && ports[|ports|..] == [];
    s' := DrainDone(s, t, true);
    Go(c, s0, s, EndDrain(t, true), s');
  }

  /** A removal that goes through with a group deletes it, files its ports under the empty tuple, which becomes
      the oldest group, and clears them in Neutron. */
  lemma {:induction false} RemovalIsTheMethod(
    c: Config, s: State, k: PoolKey, i: nat, sg: SgId, t: nat, cleared: set<SgId>)
    returns (s': State)
    requires t !in s.drains && i < |Pool(s, k)| && Hit(Pool(s, k)[i].key, sg)
    requires forall p :: p in Pool(s, k)[i].ports ==> p in s.neutron
    ensures Leads(c, s, s') && Pool(s', k) == V.DrainGroup(Pool(s, k), i)
    ensures s'.neutron == V.SetAll(s.neutron, Pool(s, k)[i].ports, cleared)
    ensures s' == s.(pools := s'.pools, neutron := s'.neutron) && s'.pools - {k} == s.pools - {k}
  {
    var gs, ports := Without(Pool(s, k), i), Pool(s, k)[i].ports;
    var s1 := RemovalBegins(c, s, k, i, sg, t, cleared);
    var s2 := DrainRest(c, s, s1, t, k, ports, 0, gs, s.neutron, cleared);
    s' := RemovalEnds(c, s, s2, t, k, ports, gs, s.neutron, cleared);
    assert s1.drains - {t} == s.drains;
  }
}
