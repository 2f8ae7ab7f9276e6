/** Where the ports of the pool driver go. The steps never give a port a second place; here: each port
    that was made is in a place until one of six kinds of step loses it, and then in none. */
module PoolConservation {
  import opened PortIndex
  import opened PoolProtocol

  ghost predicate Somewhere(s: State, p: PortId) {
    exists a :: At(s, a, p)
  }

  /** The step loses `p`: its request ends without it, the return pass deletes it or does not know it, a
      removal that fails had it in hand, or its pool is forgotten with it. */
  ghost predicate Loses(s: State, step: Step, p: PortId) {
    match step
    case Abort(t) => At(s, WithRequest(t), p)
    case Finish(t) => At(s, WithRequest(t), p) && p !in s.existing
    case DropItem => s.pass.Passing? && s.pass.items != [] && s.pass.items[0].0 == p && p !in s.existing
    case DroppedItem(ok) => s.pass.Passing? && s.pass.items != [] && s.pass.items[0].0 == p && ok
    case EndDrain(t, ok) => At(s, InDrain(t), p)
    case ForgetPool(k) => At(s, InPool(k), p)
    case _ => false
  }

  // ---- one step: a port that is not lost stays in a place, and no port comes from nowhere ----

  /** One pool gets another index. */
  lemma {:induction false} OnePoolFollows(s: State, s': State, k: PoolKey, gs: Groups, k': PoolKey, p: PortId)
    requires s'.pools == s.pools[k := gs]
    ensures At(s', InPool(k'), p) <==> if k' == k then p in Bag(gs) else At(s, InPool(k'), p)
  { }

  lemma {:induction false} OutOfPoolFollows(
    s: State, s': State, t: nat, k: PoolKey, gs: Groups, r: Request, a: Place, p: PortId)
    requires t !in s.requests && s' == s.(pools := s.pools[k := gs], requests := s.requests[t := r])
    requires Bag(gs) + multiset{r.port} == Bag(Pool(s, k))
    ensures At(s, a, p) ==> At(s', if p == r.port then WithRequest(t) else a, p)
    ensures At(s', a, p) ==> At(s, if a == WithRequest(t) then InPool(k) else a, p)
  {
    if a.InPool? { OnePoolFollows(s, s', k, gs, a.k, p); }
    assert p in Bag(Pool(s, k)) <==> p in Bag(gs) || p == r.port;
  }

  lemma {:induction false} PopFollows(c: Config, s: State, t: nat, k: PoolKey, want: set<SgId>, a: Place, p: PortId)
    requires DistinctKeys(Pool(s, k)) && Enabled(c, s, Pop(t, k, want))
    ensures At(s, a, p) ==> Somewhere(Popped(s, t, k, want), p)
    ensures At(Popped(s, t, k, want), a, p) ==> At(s, if a == WithRequest(t) then InPool(k) else a, p)
  {
    var gs, s' := Pool(s, k), Popped(s, t, k, want);
    PopFacts(gs, Choose(gs, want));
    OutOfPoolFollows(s, s', t, k, PopAt(gs, Choose(gs, want)), s'.requests[t], a, p);
  }

  lemma {:induction false} IntoPoolFollows(s: State, s': State, k: PoolKey, gs: Groups, q: PortId, a: Place, p: PortId)
    requires s'.pools == s.pools[k := gs] && Bag(gs) == Bag(Pool(s, k)) + multiset{q}
    requires !a.InPool? && p != q ==> (At(s, a, p) <==> At(s', a, p))
    ensures At(s, a, p) ==> At(s', if p == q then InPool(k) else a, p)
    ensures At(s', a, p) && p != q ==> At(s, a, p)
  {
    OnePoolFollows(s, s', k, gs, if a.InPool? then a.k else k, p);
    OnePoolFollows(s, s', k, gs, k, p);
    assert p in Bag(gs) <==> p in Bag(Pool(s, k)) || p == q;
  }

  lemma {:induction false} FileFollows(s: State, a: Place, p: PortId)
    requires s.pass.Passing? && s.pass.items != [] && DistinctKeys(Pool(s, s.pass.items[0].1))
    ensures At(s, a, p) ==> Somewhere(FileFirst(s), p)
    ensures At(FileFirst(s), a, p) && p != s.pass.items[0].0 ==> At(s, a, p)
  {
    var (q, k) := s.pass.items[0];
    var key := KeyOf(s.pass.sgCurrent, q);
    var gs := File(Pool(s, k), key, q);
    FileFacts(Pool(s, k), key, q);
    MoveFacts(gs, key);
    IntoPoolFollows(s, FileFirst(s), k, MoveToEnd(gs, key), q, a, p);
  }

  lemma {:induction false} PassFollows(c: Config, s: State, step: Step, a: Place, p: PortId)
    requires Tidy(s) && Enabled(c, s, step) && OfPass(step) && At(s, a, p) && !Loses(s, step, p)
    ensures Somewhere(Apply(c, s, step), p)
  {
    if step.FileItem? || step == RenamedItem(true) {
      assert Apply(c, s, step) == FileFirst(s);
      FileFollows(s, a, p);
    } else {
      PassLeavesPlaces(c, s, step, a, p);
    }
  }

  lemma {:induction false} PassLeavesPlaces(c: Config, s: State, step: Step, a: Place, p: PortId)
    requires Enabled(c, s, step) && OfPass(step) && !step.FileItem? && step != RenamedItem(true)
    ensures At(Apply(c, s, step), a, p) ==> At(s, a, p)
    ensures At(s, a, p) && !Loses(s, step, p) ==> At(Apply(c, s, step), a, p)
  { }

  lemma {:induction false} PassAdds(c: Config, s: State, step: Step, a: Place, p: PortId)
    requires Tidy(s) && PassTidy(s) && Enabled(c, s, step) && OfPass(step) && At(Apply(c, s, step), a, p)
    ensures Somewhere(s, p)
  {
    if step.FileItem? || step == RenamedItem(true) {
      FileFollows(s, a, p);
      assert At(s, Recycled, s.pass.items[0].0);
    } else {
      PassLeavesPlaces(c, s, step, a, p);
    }
  }

  /** A port that is granted or released moves, and no other. */
  lemma {:induction false} RequestMoves(c: Config, s: State, step: Step, a: Place, p: PortId)
    requires Enabled(c, s, step) && OfRequest(step) && !step.Pop? && At(s, a, p) && !Loses(s, step, p)
    ensures At(Apply(c, s, step), if step.Finish? && a == WithRequest(step.t) then WithPod
                                  else if step.Release? && p == step.p then Recycled else a, p)
  { }

  lemma {:induction false} RequestMovesBack(c: Config, s: State, step: Step, a: Place, p: PortId)
    requires Enabled(c, s, step) && OfRequest(step) && !step.Pop? && At(Apply(c, s, step), a, p)
    ensures At(s, a, p) || (step.Finish? && At(s, WithRequest(step.t), p)) || (step.Release? && At(s, WithPod, p))
  { }

  lemma {:induction false} RequestFollows(c: Config, s: State, step: Step, a: Place, p: PortId)
    requires Tidy(s) && Enabled(c, s, step) && OfRequest(step)
    ensures At(s, a, p) && !Loses(s, step, p) ==> Somewhere(Apply(c, s, step), p)
  {
    if step.Pop? {
      PopFollows(c, s, step.t, step.k, step.want, a, p);
    } else if At(s, a, p) && !Loses(s, step, p) {
      RequestMoves(c, s, step, a, p);
    }
  }

  lemma {:induction false} RequestAdds(c: Config, s: State, step: Step, a: Place, p: PortId)
    requires Tidy(s) && Enabled(c, s, step) && OfRequest(step) && At(Apply(c, s, step), a, p)
    ensures Somewhere(s, p)
  {
    if step.Pop? {
      PopFollows(c, s, step.t, step.k, step.want, a, p);
    } else {
      RequestMovesBack(c, s, step, a, p);
    }
  }

  lemma {:induction false} OthersInDrain(s: State, t: nat, sgs: set<SgId>, a: Place, p: PortId)
    requires t in s.drains && s.drains[t].ports != [] && p != s.drains[t].ports[0] && !a.InPool?
    ensures At(s, a, p) <==> At(Drained(s, t, sgs), a, p)
  { }

  lemma {:induction false} DrainPortFollows(s: State, t: nat, sgs: set<SgId>, a: Place, p: PortId)
    requires t in s.drains && s.drains[t].ports != [] && DistinctKeys(Pool(s, s.drains[t].pool))
    ensures At(s, a, p) ==> Somewhere(Drained(s, t, sgs), p)
    ensures At(Drained(s, t, sgs), a, p) ==> At(s, if p == s.drains[t].ports[0] then InDrain(t) else a, p)
  {
    var d := s.drains[t];
    FileFacts(Pool(s, d.pool), NO_GROUPS, d.ports[0]);
    if !a.InPool? && p != d.ports[0] { OthersInDrain(s, t, sgs, a, p); }
    assert At(s, InDrain(t), d.ports[0]);
    IntoPoolFollows(s, Drained(s, t, sgs), d.pool, File(Pool(s, d.pool), NO_GROUPS, d.ports[0]), d.ports[0], a, p);
  }

  lemma {:induction false} DrainDoneFollows(s: State, t: nat, ok: bool, a: Place, p: PortId)
    requires t in s.drains && DistinctKeys(Pool(s, s.drains[t].pool))
    ensures At(DrainDone(s, t, ok), a, p) <==> At(s, a, p) && a != InDrain(t)
  {
    MoveFacts(Pool(s, s.drains[t].pool), NO_GROUPS);
  }

  lemma {:induction false} IntoDrainFollows(
    s: State, s': State, t: nat, k: PoolKey, gs: Groups, ports: seq<PortId>, a: Place, p: PortId)
    requires t !in s.drains && s' == s.(pools := s.pools[k := gs], drains := s.drains[t := Drain(k, ports)])
    requires Bag(gs) + multiset(ports) == Bag(Pool(s, k))
    ensures At(s, a, p) ==> At(s', if p in ports then InDrain(t) else a, p)
    ensures At(s', a, p) ==> At(s, if a == InDrain(t) then InPool(k) else a, p)
  {
    if a.InPool? { OnePoolFollows(s, s', k, gs, a.k, p); }
    assert p in Bag(Pool(s, k)) <==> p in Bag(gs) || p in ports;
  }

  lemma {:induction false} BeginDrainFollows(
    c: Config, s: State, t: nat, k: PoolKey, sg: SgId, i: nat, a: Place, p: PortId)
    requires DistinctKeys(Pool(s, k)) && Enabled(c, s, BeginDrain(t, k, sg, i))
    ensures var s' := Apply(c, s, BeginDrain(t, k, sg, i));
            && (At(s, a, p) ==> Somewhere(s', p))
            && (At(s', a, p) ==> At(s, if a == InDrain(t) then InPool(k) else a, p))
  {
    WithoutFacts(Pool(s, k), i);
    IntoDrainFollows(s, Apply(c, s, BeginDrain(t, k, sg, i)), t, k, Without(Pool(s, k), i), Pool(s, k)[i].ports, a, p);
  }

  lemma {:induction false} DrainFollows(c: Config, s: State, step: Step, a: Place, p: PortId)
    requires Tidy(s) && Enabled(c, s, step) && OfDrain(step)
    ensures At(s, a, p) && !Loses(s, step, p) ==> Somewhere(Apply(c, s, step), p)
    ensures At(Apply(c, s, step), a, p) ==> Somewhere(s, p)
  {
    match step
    case DrainPort(t, sgs) => DrainPortFollows(s, t, sgs, a, p);
    case BeginDrain(t, k, sg, i) => BeginDrainFollows(c, s, t, k, sg, i, a, p);
    case EndDrain(t, ok) => DrainDoneFollows(s, t, ok, a, p);
  }

  lemma {:induction false} PopulatedFollows(
    s: State, t: nat, ports: seq<PortId>, defaults: set<SgId>, a: Place, p: PortId)
    requires t in s.populating && DistinctKeys(Pool(s, s.populating[t].pool))
    ensures At(s, a, p) ==> At(Populated(s, t, ports, defaults), a, p)
    ensures At(Populated(s, t, ports, defaults), a, p) && p !in ports ==> At(s, a, p)
    ensures p in ports ==> At(Populated(s, t, ports, defaults), InPool(s.populating[t].pool), p)
  {
    var j, s' := s.populating[t], Populated(s, t, ports, defaults);
    var gs := FileAll(Pool(s, j.pool), Sgs(j.want), ports);
    FileAllFacts(Pool(s, j.pool), Sgs(j.want), ports);
    MoveFacts(gs, Sgs(j.want));
    MadeFollows(s, s', j.pool, if ports == [] then gs else MoveToEnd(gs, Sgs(j.want)), ports, a, p);
  }

  lemma {:induction false} MadeFollows(
    s: State, s': State, k: PoolKey, gs: Groups, ports: seq<PortId>, a: Place, p: PortId)
    requires s'.pools == s.pools[k := gs] && Bag(gs) == Bag(Pool(s, k)) + multiset(ports)
    requires s'.recyclable == s.recyclable && s'.held == s.held && s'.requests == s.requests && s'.drains == s.drains
    ensures At(s, a, p) ==> At(s', a, p)
    ensures At(s', a, p) && p !in ports ==> At(s, a, p)
    ensures p in ports ==> At(s', InPool(k), p)
  {
    OnePoolFollows(s, s', k, gs, if a.InPool? then a.k else k, p);
    OnePoolFollows(s, s', k, gs, k, p);
    assert p in Bag(gs) <==> p in Bag(Pool(s, k)) || p in ports;
  }

  lemma {:induction false} PoolFollows(c: Config, s: State, step: Step, a: Place, p: PortId)
    requires Enabled(c, s, step) && OfPool(step) && !step.EndPopulate?
    ensures At(Apply(c, s, step), a, p) <==> At(s, a, p) && !(step.ForgetPool? && a == InPool(step.k))
  { }

  lemma {:induction false} StepFollows(c: Config, s: State, step: Step, a: Place, p: PortId)
    requires Tidy(s) && Enabled(c, s, step) && At(s, a, p) && !Loses(s, step, p)
    ensures Somewhere(Apply(c, s, step), p)
  {
    if OfPass(step) {
      PassFollows(c, s, step, a, p);
    } else if OfDrain(step) {
      DrainFollows(c, s, step, a, p);
    } else if OfRequest(step) {
      RequestFollows(c, s, step, a, p);
    } else if step.EndPopulate? {
      PopulatedFollows(s, step.t, step.ports, step.defaults, a, p);
    } else {
      PoolFollows(c, s, step, a, p);
    }
  }

  lemma {:induction false} StepAdds(c: Config, s: State, step: Step, a: Place, p: PortId)
    requires Tidy(s) && PassTidy(s) && Enabled(c, s, step) && At(Apply(c, s, step), a, p)
    ensures Somewhere(s, p) || (step.EndPopulate? && p in step.ports)
  {
    if OfPass(step) {
      PassAdds(c, s, step, a, p);
    } else if OfDrain(step) {
      DrainFollows(c, s, step, a, p);
    } else if OfRequest(step) {
      RequestAdds(c, s, step, a, p);
    } else if step.EndPopulate? {
      PopulatedFollows(s, step.t, step.ports, step.defaults, a, p);
    } else {
      PoolFollows(c, s, step, a, p);
    }
  }

  // ---- one step: a port that is lost is nowhere ----

  ghost function LostFrom(step: Step): Place {
    match step
    case EndDrain(t, ok) => InDrain(t)
    case ForgetPool(k) => InPool(k)
    case Abort(t) => WithRequest(t)
    case Finish(t) => WithRequest(t)
    case _ => Recycled
  }

  /** The place it is lost from has it no more, and no other place has got it. */
  lemma {:induction false} LostLeaves(c: Config, s: State, step: Step, a: Place, p: PortId)
    requires Tidy(s) && Enabled(c, s, step) && Loses(s, step, p) && At(Apply(c, s, step), a, p)
    ensures At(s, a, p) && a != LostFrom(step)
  {
    if step.EndDrain? { DrainDoneFollows(s, step.t, step.ok, a, p); }
    if step.ForgetPool? { PoolFollows(c, s, step, a, p); }
  }

  lemma {:induction false} LosesOwned(c: Config, s: State, step: Step, p: PortId)
    requires PassTidy(s) && Enabled(c, s, step) && Loses(s, step, p)
    ensures At(s, LostFrom(step), p)
  { }

  lemma {:induction false} LostIsNowhere(c: Config, s: State, step: Step, p: PortId)
    requires Ownership(s) && PassTidy(s) && Enabled(c, s, step) && Loses(s, step, p)
    ensures !Somewhere(Apply(c, s, step), p)
  {
    if a :| At(Apply(c, s, step), a, p) {
      LostLeaves(c, s, step, a, p);
      LosesOwned(c, s, step, p);
    }
  }

  /** A port that was made before is in a place after the step if and only if it was in one and the step
      does not lose it; the ports that a population makes are. */
  lemma {:induction false} StepLosesExactly(c: Config, s: State, step: Step, p: PortId)
    requires Ownership(s) && PassTidy(s) && Enabled(c, s, step) && p in Apply(c, s, step).created
    ensures if p in s.created then Somewhere(Apply(c, s, step), p) <==> Somewhere(s, p) && !Loses(s, step, p)
            else Somewhere(Apply(c, s, step), p) && !Loses(s, step, p)
  {
    if Loses(s, step, p) {
      LosesOwned(c, s, step, p);
      LostIsNowhere(c, s, step, p);
    } else if p in s.created {
      if a :| At(s, a, p) { StepFollows(c, s, step, a, p); }
      if a :| At(Apply(c, s, step), a, p) { StepAdds(c, s, step, a, p); }
    } else {
      OnlyPopulationsMake(c, s, step);
      PopulatedFollows(s, step.t, step.ports, step.defaults, Recycled, p);
    }
  }

  lemma {:induction false} OnlyPopulationsMake(c: Config, s: State, step: Step)
    requires Enabled(c, s, step)
    ensures !step.EndPopulate? ==> Apply(c, s, step).created == s.created
    ensures step.EndPopulate? ==> Apply(c, s, step).created == s.created + (set p | p in step.ports)
  { }

  // ---- whole runs ----

  ghost predicate LostBefore(trace: seq<State>, steps: seq<Step>, n: nat, p: PortId)
    requires n <= |steps| < |trace|
  {
    exists i :: 0 <= i < n && Loses(trace[i], steps[i], p)
  }

  /** Conservation: in every state of every run from the fresh driver, a port that was made is in a place
      if and only if no step has lost it. */
  lemma {:induction false} PortIsLostExactly(c: Config, trace: seq<State>, steps: seq<Step>, n: nat, p: PortId)
    requires Run(c, trace, steps) && trace[0] == EMPTY && n <= |steps| && p in trace[n].created
    ensures Somewhere(trace[n], p) <==> !LostBefore(trace, steps, n, p)
  {
    EmptyIsSafe();
    assert n > 0;
    RunIsSound(c, trace, steps, n - 1);
    assert Follows(c, trace, steps, n - 1);
    StepLosesExactly(c, trace[n - 1], steps[n - 1], p);
    if p in trace[n - 1].created {
      PortIsLostExactly(c, trace, steps, n - 1, p);
    } else {
      NotLostBefore(c, trace, steps, n - 1, p);
    }
  }

  /** What is not made cannot be lost. */
  lemma {:induction false} NotLostBefore(c: Config, trace: seq<State>, steps: seq<Step>, n: nat, p: PortId)
    requires Run(c, trace, steps) && trace[0] == EMPTY && n <= |steps| && p !in trace[n].created
    ensures !LostBefore(trace, steps, n, p)
  {
    if n > 0 {
      EmptyIsSafe();
      RunIsSound(c, trace, steps, n - 1);
      assert Follows(c, trace, steps, n - 1);
      OnlyPopulationsMake(c, trace[n - 1], steps[n - 1]);
      NotLostBefore(c, trace, steps, n - 1, p);
      if Loses(trace[n - 1], steps[n - 1], p) { LosesOwned(c, trace[n - 1], steps[n - 1], p); }
    }
  }

  // ---- ports that Neutron keeps ----

  /** The step takes the port out of the known VIFs: a return pass finds the pool of its first port full, or a
      pool deletion collects the port. */
  ghost predicate Forgets(c: Config, s: State, step: Step, p: PortId) {
    match step
    case DropItem =>
      && s.pass.Passing? && s.pass.items != [] && s.pass.items[0].0 == p
      && 0 < c.poolMax <= Size(Pool(s, s.pass.items[0].1))
    case Collect(k) => p in Bag(Pool(s, k))
    case _ => false
  }

  lemma {:induction false} KnownInPass(c: Config, s: State, step: Step, p: PortId)
    requires Enabled(c, s, step) && p in s.existing && OfPass(step)
    ensures p in Apply(c, s, step).existing <==> !Forgets(c, s, step, p)
  { }

  lemma {:induction false} KnownInRequests(c: Config, s: State, step: Step, p: PortId)
    requires Enabled(c, s, step) && p in s.existing && (OfRequest(step) || OfDrain(step))
    ensures p in Apply(c, s, step).existing && !Forgets(c, s, step, p)
  { }

  /** A VIF is known until such a step, and no longer. */
  lemma {:induction false} KnownUntil(c: Config, s: State, step: Step, p: PortId)
    requires Enabled(c, s, step) && p in s.existing
    ensures p in Apply(c, s, step).existing <==> !Forgets(c, s, step, p)
  {
    if OfPass(step) {
      KnownInPass(c, s, step, p);
    } else if OfRequest(step) || OfDrain(step) {
      KnownInRequests(c, s, step, p);
    }
  }

  /** When its deletion fails, the pass ends with the port still recyclable and in Neutron, but not known. */
  lemma {:induction false} FailedDeletion(c: Config, s: State)
    requires Sound(s) && Enabled(c, s, DroppedItem(false))
    ensures var s', p := Apply(c, s, DroppedItem(false)), s.pass.items[0].0;
            s' == s.(pass := NoPass) && p in s'.recyclable && p !in s'.existing
  { }

  /** Neutron has the port, no place of the driver does, and no deletion has it on its list. */
  ghost predicate Leaked(s: State, p: PortId) {
    p in s.created && p in s.neutron && !Somewhere(s, p) && p !in s.doomed && p !in s.existing
  }

  lemma {:induction false} LosingLeaves(c: Config, s: State, step: Step, p: PortId)
    requires Enabled(c, s, step) && Loses(s, step, p)
    ensures var s' := Apply(c, s, step);
            && (p in s'.existing <==> p in s.existing) && (p in s'.doomed <==> p in s.doomed)
            && (p in s'.neutron <==> p in s.neutron && !step.DroppedItem?)
  { }

  /** A port leaks if and only if the step loses one that is not known and on no deletion's list, other than
      by deleting it in Neutron. */
  lemma {:induction false} LeaksExactly(c: Config, s: State, step: Step, p: PortId)
    requires Sound(s) && Enabled(c, s, step) && p in s.created && Somewhere(s, p)
    ensures Leaked(Apply(c, s, step), p) <==>
            Loses(s, step, p) && !step.DroppedItem? && p in s.neutron && p !in s.existing && p !in s.doomed
  {
    OnlyPopulationsMake(c, s, step);
    StepLosesExactly(c, s, step, p);
    if Loses(s, step, p) { LosingLeaves(c, s, step, p); }
  }

  /** The next pass that finds the pool full leaks it. */
  lemma {:induction false} LeaksNext(c: Config, s: State)
    requires Sound(s) && Enabled(c, s, DropItem)
    requires s.pass.items[0].0 in s.neutron && s.pass.items[0].0 !in s.existing
    ensures Leaked(Apply(c, s, DropItem), s.pass.items[0].0)
  {
    var p := s.pass.items[0].0;
    assert At(s, Recycled, p) && Loses(s, DropItem, p);
    LostIsNowhere(c, s, DropItem, p);
  }

  lemma {:induction false} NowhereAtAll(s: State, p: PortId)
    requires !Somewhere(s, p)
    ensures p !in s.recyclable && p !in s.held && (forall k :: p !in Bag(Pool(s, k)))
    ensures forall t :: t in s.requests ==> s.requests[t].port != p
    ensures forall t :: t in s.drains ==> p !in s.drains[t].ports
  {
    assert !At(s, Recycled, p) && !At(s, WithPod, p);
    forall k ensures p !in Bag(Pool(s, k)) { assert !At(s, InPool(k), p); }
    forall t | t in s.requests ensures s.requests[t].port != p { assert !At(s, WithRequest(t), p); }
    forall t | t in s.drains ensures p !in s.drains[t].ports { assert !At(s, InDrain(t), p); }
  }

  /** Nobody deletes or registers it. */
  ghost predicate LeftAlone(s: State, p: PortId) {
    p in s.neutron && p !in s.doomed && p !in s.existing
  }

  lemma {:induction false} PassLeavesAlone(c: Config, s: State, step: Step, p: PortId)
    requires PassTidy(s) && Enabled(c, s, step) && OfPass(step) && LeftAlone(s, p) && p !in s.recyclable
    ensures LeftAlone(Apply(c, s, step), p)
  { }

  lemma {:induction false} OthersLeaveAlone(c: Config, s: State, step: Step, p: PortId)
    requires Enabled(c, s, step) && (OfRequest(step) || OfDrain(step)) && LeftAlone(s, p) && p !in s.held
    ensures LeftAlone(Apply(c, s, step), p)
  { }

  lemma {:induction false} PoolsLeaveAlone(c: Config, s: State, step: Step, p: PortId)
    requires Enabled(c, s, step) && OfPool(step) && LeftAlone(s, p) && p in s.created
    requires step.Collect? ==> p !in Bag(Pool(s, step.k))
    ensures LeftAlone(Apply(c, s, step), p)
  { }

  lemma {:induction false} StepKeepsLeaked(c: Config, s: State, step: Step, p: PortId)
    requires Sound(s) && Enabled(c, s, step) && Leaked(s, p)
    ensures Leaked(Apply(c, s, step), p)
  {
    NowhereAtAll(s, p);
    if OfPass(step) {
      PassLeavesAlone(c, s, step, p);
    } else if OfPool(step) {
      PoolsLeaveAlone(c, s, step, p);
    } else {
      OthersLeaveAlone(c, s, step, p);
    }
    OnlyPopulationsMake(c, s, step);
    if a :| At(Apply(c, s, step), a, p) { StepAdds(c, s, step, a, p); }
  }

  /** A leaked port stays in Neutron, out of every place, for the rest of the run. */
  lemma {:induction false} LeakedForGood(c: Config, trace: seq<State>, steps: seq<Step>, i: nat, n: nat, p: PortId)
    requires Run(c, trace, steps) && Sound(trace[0]) && i <= n <= |steps| && Leaked(trace[i], p)
    ensures Leaked(trace[n], p)
  {
    if i < n {
      LeakedForGood(c, trace, steps, i, n - 1, p);
      RunIsSound(c, trace, steps, n - 1);
      assert Follows(c, trace, steps, n - 1);
      StepKeepsLeaked(c, trace[n - 1], steps[n - 1], p);
    }
  }
}
