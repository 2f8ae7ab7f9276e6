/** Runs of ordinary steps from the fresh driver: a port listed before its groups were changed, and the
    largest size of a pool. */
module PoolRuns {
  import opened PortIndex
  import opened PoolProtocol
  import opened PoolSize

  ghost predicate Reachable(c: Config, s: State) {
    exists trace, steps :: OrdinaryRun(c, trace, steps) && trace[0] == EMPTY && trace[|steps|] == s
  }

  lemma {:induction false} EmptyIsReachable(c: Config)
    ensures Reachable(c, EMPTY)
  {
    EmptyIsSafe();
    assert OrdinaryRun(c, [EMPTY], []) && [EMPTY][0] == EMPTY;
  }

  lemma {:induction false} ReachStep(c: Config, s: State, step: Step, s': State)
    requires Reachable(c, s) && Enabled(c, s, step) && s' == Apply(c, s, step) && Ordinary(step)
    ensures Reachable(c, s')
  {
    var trace, steps :| OrdinaryRun(c, trace, steps) && trace[0] == EMPTY && trace[|steps|] == s;
    OneMoreStep(c, trace, steps, step, s');
  }

  lemma {:induction false} OneMoreStep(c: Config, trace: seq<State>, steps: seq<Step>, step: Step, s': State)
    requires OrdinaryRun(c, trace, steps) && trace[0] == EMPTY && Ordinary(step)
    requires Enabled(c, trace[|steps|], step) && s' == Apply(c, trace[|steps|], step)
    ensures Reachable(c, s')
  {
    var trace', steps' := trace + [s'], steps + [step];
    forall i | 0 <= i < |steps'| ensures Follows(c, trace', steps', i) {
      if i < |steps| {
        assert Follows(c, trace, steps, i);
        assert trace'[i] == trace[i] && trace'[i + 1] == trace[i + 1] && steps'[i] == steps[i];
      } else {
        assert trace'[i] == trace[|steps|] && trace'[i + 1] == s' && steps'[i] == step;
      }
    }
    assert OrdinaryRun(c, trace', steps') && trace'[0] == EMPTY && trace'[|steps'|] == s';
  }

  lemma {:induction false} ReachableIsSound(c: Config, s: State)
    requires Reachable(c, s)
    ensures Sound(s)
  {
    var trace, steps :| OrdinaryRun(c, trace, steps) && trace[0] == EMPTY && trace[|steps|] == s;
    RunIsSound(c, trace, steps, |steps|);
  }

  // ---- a pod holds a port ----

  /** The pool `k` has one group with these ports, one port is known and nothing is under way. */
  ghost function One(k: PoolKey, p: PortId, ids: set<SgId>, pooled: bool): State {
    EMPTY.(pools := map[k := [Group(Sgs(ids), if pooled then [p] else [])]],
           existing := {p}, neutron := map[p := ids], created := {p})
  }

  lemma {:induction false} FiledAlone(key: SgKey, p: PortId)
    ensures FileAll([], key, [p]) == [Group(key, [p])] == File([Group(key, [])], key, p)
    ensures MoveToEnd([Group(key, [p])], key) == [Group(key, [p])]
  {
    var one := [p];
    FileAllLast([], key, one);
    assert one[..|one| - 1] == [];
    assert FileAll([], key, one) == File([], key, p);
    assert [] + [p] == [p];
  }

  lemma {:induction false} TakenAlone(ids: set<SgId>, p: PortId)
    ensures Choose([Group(Sgs(ids), [p])], ids) == 0 && PopAt([Group(Sgs(ids), [p])], 0) == [Group(Sgs(ids), [])]
    ensures Size([Group(Sgs(ids), [])]) == 0
  {
    var one := [p];
    assert one[..|one| - 1] == [];
  }

  ghost function Populating(c: Config, k: PoolKey, ids: set<SgId>): State
    requires c.poolMin >= 1
  {
    EMPTY.(populating := map[0 := Population(k, ids, Requested(c, 0))], locks := {k})
  }

  lemma {:induction false} PopulatingIsReachable(c: Config, k: PoolKey, ids: set<SgId>)
    requires c.poolMin >= 1
    ensures Reachable(c, Populating(c, k, ids))
  {
    EmptyIsReachable(c);
    ReachStep(c, EMPTY, BeginPopulate(0, k, ids), Populating(c, k, ids));
  }

  lemma {:induction false} PopulatedWithOne(c: Config, k: PoolKey, p: PortId, ids: set<SgId>)
    requires c.poolMin >= 1
    ensures Populated(Populating(c, k, ids), 0, [p], ids) == One(k, p, ids, true)
  {
    FiledAlone(Sgs(ids), p);
    var one := [p];
    assert (set q | q in one) == {p} && (map q | q in one :: ids) == map[p := ids];
    assert EMPTY.existing + {p} == {p} && EMPTY.neutron + map[p := ids] == map[p := ids];
  }

  lemma {:induction false} PooledIsReachable(c: Config, k: PoolKey, p: PortId, ids: set<SgId>)
    requires c.poolMin >= 1
    ensures Reachable(c, One(k, p, ids, true))
  {
    PopulatingIsReachable(c, k, ids);
    PopulatedWithOne(c, k, p, ids);
    ReachStep(c, Populating(c, k, ids), EndPopulate(0, [p], ids), One(k, p, ids, true));
  }

  lemma {:induction false} HeldIsReachable(c: Config, k: PoolKey, p: PortId, ids: set<SgId>)
    requires c.poolMin >= 1
    ensures Reachable(c, One(k, p, ids, false).(held := {p}))
  {
    PooledIsReachable(c, k, p, ids);
    TakenAlone(ids, p);
    var s3 := One(k, p, ids, false).(requests := map[0 := Request(p, ids, true)]);
    ReachStep(c, One(k, p, ids, true), Pop(0, k, ids), s3);
    ReachStep(c, s3, Finish(0), One(k, p, ids, false).(held := {p}));
  }

  // ---- a listing that is out of date ----

  /** The port `p`, held with groups `a`, is listed; then its groups become `b` and it is released. */
  ghost function Listed(k: PoolKey, p: PortId, a: set<SgId>, answer: map<PortId, set<SgId>>): State {
    One(k, p, a, false).(held := {p}, pass := Listing(answer, map[]))
  }

  ghost function Released(k: PoolKey, p: PortId, a: set<SgId>, b: set<SgId>, pass: Pass): State {
    One(k, p, a, false).(neutron := map[p := b], recyclable := map[p := k], pass := pass)
  }

  lemma {:induction false} ListedIsReachable(c: Config, k: PoolKey, p: PortId, a: set<SgId>)
    requires c.poolMin >= 1 && !c.debug
    ensures Reachable(c, Listed(k, p, a, map[p := a]))
  {
    HeldIsReachable(c, k, p, a);
    ReachStep(c, One(k, p, a, false).(held := {p}), BeginListing, Listed(k, p, a, map[]));
    ReachStep(c, Listed(k, p, a, map[]), Answer(map[p := a]), Listed(k, p, a, map[p := a]));
  }

  lemma {:induction false} ReleasedIsReachable(c: Config, k: PoolKey, p: PortId, a: set<SgId>, b: set<SgId>)
    requires c.poolMin >= 1 && !c.debug
    ensures Reachable(c, Released(k, p, a, b, Listing(map[p := a], map[])))
  {
    ListedIsReachable(c, k, p, a);
    var s := Listed(k, p, a, map[p := a]).(neutron := map[p := b]);
    ReachStep(c, Listed(k, p, a, map[p := a]), UpdateHeld(p, b), s);
    var s' := Released(k, p, a, b, Listing(map[p := a], map[]));
    assert s.held - {p} == {} && s.existing + {p} == {p};
    ReachStep(c, s, Release(p, k), s');
  }

  lemma {:induction false} PassIsReachable(c: Config, k: PoolKey, p: PortId, a: set<SgId>, b: set<SgId>)
    requires c.poolMin >= 1 && !c.debug
    ensures Reachable(c, Released(k, p, a, b, Passing([(p, k)], map[p := a], Ready)))
  {
    ReleasedIsReachable(c, k, p, a, b);
    var s := Released(k, p, a, b, Listing(map[p := a], map[]));
    var s' := Released(k, p, a, b, Listing(map[], map[p := a]));
    assert (map[] + map q | q in s.pass.answer && q in s.recyclable :: s.pass.answer[q]) == map[p := a];
    ReachStep(c, s, ReadPage, s');
    ReachStep(c, s', BeginPass([(p, k)]), Released(k, p, a, b, Passing([(p, k)], map[p := a], Ready)));
  }

  lemma {:induction false} MisfiledIsReachable(c: Config, k: PoolKey, p: PortId, a: set<SgId>, b: set<SgId>)
    requires c.poolMin >= 1 && !c.debug
    ensures Reachable(c, One(k, p, a, true).(neutron := map[p := b], pass := Passing([], map[p := a], Ready)))
  {
    PassIsReachable(c, k, p, a, b);
    var s := Released(k, p, a, b, Passing([(p, k)], map[p := a], Ready));
    FiledAlone(Sgs(a), p);
    TakenAlone(a, p);
    assert [(p, k)][1..] == [];
    ReachStep(c, s, FileItem, One(k, p, a, true).(neutron := map[p := b], pass := Passing([], map[p := a], Ready)));
  }

  /** The request of a pod for groups `a` is about to return a port that Neutron has with groups `b`. */
  lemma {:induction false} WrongGroupsAreGranted(
    c: Config, k: PoolKey, p: PortId, a: set<SgId>, b: set<SgId>) returns (s: State)
    requires c.poolMin >= 1 && !c.debug && a != {} && a != b
    ensures Reachable(c, s) && Enabled(c, s, Finish(0)) && s.requests[0] == Request(p, a, true) && p in s.existing
    ensures p in s.neutron && s.neutron[p] == b && !IndexAgrees(s)
  {
    MisfiledIsReachable(c, k, p, a, b);
    TakenAlone(a, p);
    var s0 := One(k, p, a, true).(neutron := map[p := b], pass := Passing([], map[p := a], Ready));
    s := s0.(pools := map[k := [Group(Sgs(a), [])]], requests := map[0 := Request(p, a, true)]);
    ReachStep(c, s0, Pop(0, k, a), s);
    assert !RequestAgrees(s, s.requests[0]);
  }

  // ---- the largest size ----

  /** A step from a reachable state changes the size as it does anywhere. */
  lemma {:induction false} SizeStep(c: Config, s: State, step: Step, s': State, k: PoolKey)
    requires Reachable(c, s) && Enabled(c, s, step) && s' == Apply(c, s, step) && Ordinary(step)
    ensures Reachable(c, s') && Size(Pool(s', k)) == Size(Pool(s, k)) + Growth(s, step, k)
  {
    ReachableIsSound(c, s);
    StepGrowth(c, s, step, k);
    ReachStep(c, s, step, s');
  }

  lemma {:induction false} LongerThanAll(used: set<PortId>) returns (n: nat)
    ensures forall p :: p in used ==> |p| < n
  {
    if used == {} {
      n := 0;
    } else {
      var p :| p in used;
      n := LongerThanAll(used - {p});
      n := Max(n, |p| + 1);
    }
  }

  /** Neutron can always make more ports. */
  lemma {:induction false} NewPorts(used: set<PortId>, n: nat) returns (ports: seq<PortId>)
    ensures |ports| == n && Distinct(ports) && forall p :: p in ports ==> p !in used
  {
    var len := LongerThanAll(used);
    ports := seq(n, i requires 0 <= i < n => seq(len + i, _ => 'x'));
    forall i, j | 0 <= i < j < n ensures ports[i] != ports[j] { assert |ports[i]| == len + i < len + j == |ports[j]|; }
    forall p | p in ports ensures p !in used {
      var i :| 0 <= i < n && p == ports[i];
      assert |p| == len + i;
    }
  }

  ghost function Begun(c: Config, s: State, k: PoolKey): State
    requires Enabled(c, s, BeginPopulate(0, k, {}))
  {
    Apply(c, s, BeginPopulate(0, k, {}))
  }

  /** No request or population is under way, and no removal. */
  ghost predicate Calm(s: State) {
    s.populating == map[] && s.locks == {} && s.requests == map[] && s.drains == map[]
  }

  /** The ports of a population arrive. */
  lemma {:induction false} PopulationEnds(c: Config, s: State, k: PoolKey, ports: seq<PortId>) returns (s': State)
    requires Reachable(c, s) && 0 in s.populating && s.populating[0].pool == k
    requires |ports| <= s.populating[0].count && Distinct(ports) && forall p :: p in ports ==> p !in s.created
    ensures Reachable(c, s') && Size(Pool(s', k)) == Size(Pool(s, k)) + |ports| && s' == Populated(s, 0, ports, {})
  {
    s' := Populated(s, 0, ports, {});
    SizeStep(c, s, EndPopulate(0, ports, {}), s', k);
  }

  lemma {:induction false} PopulateOnce(c: Config, s: State, k: PoolKey, n: nat) returns (s': State, ports: seq<PortId>)
    requires Reachable(c, s) && Calm(s) && Size(Pool(s, k)) < c.poolMin && n <= Requested(c, Size(Pool(s, k)))
    ensures Reachable(c, s') && Calm(s') && Size(Pool(s', k)) == Size(Pool(s, k)) + n && |ports| == n
    ensures s'.pass == s.pass && s'.recyclable == s.recyclable && s.neutron.Keys <= s'.neutron.Keys
    ensures forall p :: p in ports ==> p !in s.created && p in s'.existing
    ensures Bag(Pool(s', k)) == Bag(Pool(s, k)) + multiset(ports)
  {
    var s1 := Begun(c, s, k);
    SizeStep(c, s, BeginPopulate(0, k, {}), s1, k);
    ports := NewPorts(s1.created, n);
    s' := PopulationEnds(c, s1, k, ports);
    ReachableIsSound(c, s1);
    FileAllFacts(Pool(s1, k), Sgs({}), ports);
    MoveFacts(FileAll(Pool(s1, k), Sgs({}), ports), Sgs({}));
  }

  /** With nothing else under way, a pool is populated up to one below the minimum and then once more. */
  lemma {:induction false} BatchAtMinimum(c: Config, k: PoolKey) returns (s: State)
    requires c.poolMin >= 1
    ensures Reachable(c, s) && Size(Pool(s, k)) == c.poolMin - 1 + c.batch
  {
    EmptyIsReachable(c);
    var ports;
    s, ports := PopulateOnce(c, EMPTY, k, c.poolMin - 1);
    s, ports := PopulateOnce(c, s, k, c.batch);
  }

  // ---- ports on their way back ----

  /** These ports wait to be returned to the empty pool `k`. */
  ghost predicate Awaiting(c: Config, s: State, k: PoolKey, ports: seq<PortId>) {
    && Reachable(c, s) && Calm(s) && s.pass == NoPass && Size(Pool(s, k)) == 0 && Distinct(ports)
    && forall p :: p in ports ==> p in s.recyclable && s.recyclable[p] == k && p in s.neutron
  }

  /** The only port of the pool is popped for a request. */
  lemma {:induction false} PopTheOne(c: Config, s: State, k: PoolKey, p: PortId) returns (s': State)
    requires Reachable(c, s) && Calm(s) && Bag(Pool(s, k)) == multiset{p} && Size(Pool(s, k)) == 1
    ensures Reachable(c, s') && Size(Pool(s', k)) == 0 && 0 in s'.requests && s'.requests[0].port == p
    ensures s' == s.(pools := s'.pools, requests := map[0 := s'.requests[0]])
  {
    ReachableIsSound(c, s);
    ChooseFindsAPort(Pool(s, k), {});
    PopFacts(Pool(s, k), Choose(Pool(s, k), {}));
    s' := Popped(s, 0, k, {});
    SizeStep(c, s, Pop(0, k, {}), s', k);
    assert s'.requests[0].port in multiset{p};
  }

  /** The popped port has the groups that were asked for. */
  lemma {:induction false} MadeReady(c: Config, s: State) returns (s': State)
    requires Reachable(c, s) && s.requests.Keys == {0} && s.requests[0].port in s.neutron
    ensures Reachable(c, s') && s'.requests == map[0 := s.requests[0].(ready := true)]
    ensures s' == s.(requests := s'.requests, neutron := s'.neutron) && s'.neutron.Keys == s.neutron.Keys
  {
    s' := s;
    if !s.requests[0].ready {
      s' := Apply(c, s, Repair(0));
      ReachStep(c, s, Repair(0), s');
    }
  }

  /** The pod that asked for it gets it and gives it back. */
  lemma {:induction false} HeldAndReleased(c: Config, s: State, k: PoolKey, p: PortId) returns (s': State)
    requires Reachable(c, s) && s.requests.Keys == {0} && s.requests[0].port == p && p in s.existing && p in s.neutron
    ensures Reachable(c, s') && s'.pools == s.pools && s'.requests == map[] && s'.recyclable == s.recyclable[p := k]
    ensures s'.neutron.Keys == s.neutron.Keys && s'.pass == s.pass && s'.drains == s.drains
    ensures s'.populating == s.populating && s'.locks == s.locks
  {
    var s1 := MadeReady(c, s);
    var s2 := s1.(requests := map[], held := s1.held + {p});
    ReachStep(c, s1, Finish(0), s2);
    s' := Apply(c, s2, Release(p, k));
    ReachStep(c, s2, Release(p, k), s');
  }

  /** The empty pool gets a port. */
  lemma {:induction false} PopulateTheOne(c: Config, s: State, k: PoolKey) returns (s': State, p: PortId)
    requires c.poolMin >= 1 && Reachable(c, s) && Calm(s) && Size(Pool(s, k)) == 0
    ensures Reachable(c, s') && Calm(s') && Size(Pool(s', k)) == 1 && Bag(Pool(s', k)) == multiset{p}
    ensures s'.pass == s.pass && s'.recyclable == s.recyclable && s.neutron.Keys <= s'.neutron.Keys
    ensures p !in s.created && p in s'.existing && p in s'.neutron
  {
    var made;
    s', made := PopulateOnce(c, s, k, 1);
    p := made[0];
    SizeIsBag(Pool(s, k));
    assert made == [p];
    ReachableIsSound(c, s');
  }

  lemma {:induction false} NotYetAwaiting(s: State, p: PortId)
    requires Tidy(s) && p !in s.created
    ensures p !in s.recyclable
  {
    if p in s.recyclable { assert At(s, Recycled, p); }
  }

  lemma {:induction false} OneMoreAwaiting(
    c: Config, s: State, k: PoolKey, ports: seq<PortId>) returns (s': State, p: PortId)
    requires c.poolMin >= 1 && Awaiting(c, s, k, ports)
    ensures Awaiting(c, s', k, ports + [p])
  {
    s', p := PopulateTheOne(c, s, k);
    s' := PopTheOne(c, s', k, p);
    s' := HeldAndReleased(c, s', k, p);
    ReachableIsSound(c, s);
    NotYetAwaiting(s, p);
  }

  lemma {:induction false} ManyAwaiting(c: Config, k: PoolKey, n: nat) returns (s: State, ports: seq<PortId>)
    requires c.poolMin >= 1
    ensures Awaiting(c, s, k, ports) && |ports| == n
  {
    if n == 0 {
      EmptyIsReachable(c);
      s, ports := EMPTY, [];
    } else {
      var p;
      s, ports := ManyAwaiting(c, k, n - 1);
      s, p := OneMoreAwaiting(c, s, k, ports);
      ports := ports + [p];
    }
  }

  ghost function Items(ports: seq<PortId>, k: PoolKey): seq<(PortId, PoolKey)> {
    seq(|ports|, i requires 0 <= i < |ports| => (ports[i], k))
  }

  /** The pass begins. */
  lemma {:induction false} PassBegins(c: Config, s: State, k: PoolKey, ports: seq<PortId>) returns (s': State)
    requires Awaiting(c, s, k, ports)
    ensures Reachable(c, s') && s' == s.(pass := Passing(Items(ports, k), map[], Ready))
  {
    var s1 := s.(pass := Listing(map[], map[]));
    ReachStep(c, s, BeginListing, s1);
    s' := s.(pass := Passing(Items(ports, k), map[], Ready));
    ReachStep(c, s1, BeginPass(Items(ports, k)), s');
  }

  /** The first port of the pass is returned. */
  lemma {:induction false} FileOne(c: Config, s: State, k: PoolKey) returns (s': State)
    requires Reachable(c, s) && PassAt(s, Ready) && s.pass.items[0].1 == k && s.pass.items[0].0 in s.neutron
    requires Size(Pool(s, k)) < c.poolMax
    ensures Reachable(c, s') && Size(Pool(s', k)) == Size(Pool(s, k)) + 1 && s' == FileFirst(s)
  {
    s' := FileFirst(s);
    if c.debug {
      var s1 := s.(pass := s.pass.(stage := Renaming));
      SizeStep(c, s, RenameItem, s1, k);
      SizeStep(c, s1, RenamedItem(true), s', k);
    } else {
      SizeStep(c, s, FileItem, s', k);
    }
  }

  lemma {:induction false} FileRest(c: Config, s: State, k: PoolKey) returns (s': State)
    requires Reachable(c, s) && s.pass.Passing? && s.pass.stage == Ready &&
             Size(Pool(s, k)) + |s.pass.items| <= c.poolMax
    requires forall i :: 0 <= i < |s.pass.items| ==> s.pass.items[i].1 == k && s.pass.items[i].0 in s.neutron
    ensures Reachable(c, s') && Size(Pool(s', k)) == Size(Pool(s, k)) + |s.pass.items|
    ensures s'.populating == s.populating && s'.created == s.created
    decreases |s.pass.items|
  {
    s' := s;
    if s.pass.items != [] {
      s' := FileOne(c, s, k);
      s' := FileRest(c, s', k);
    }
  }

  /** A population of the empty pool is under way while a pass fills it up to its maximum. */
  lemma {:induction false} FilledMeanwhile(c: Config, k: PoolKey) returns (s: State)
    requires c.poolMin >= 1
    ensures Reachable(c, s) && Size(Pool(s, k)) == c.poolMax + Max(c.batch, c.poolMin)
  {
    var ports;
    s, ports := ManyAwaiting(c, k, c.poolMax);
    s := PassBegins(c, s, k, ports);
    var s1 := Begun(c, s, k);
    SizeStep(c, s, BeginPopulate(0, k, {}), s1, k);
    s := FileRest(c, s1, k);
    var made := NewPorts(s.created, Max(c.batch, c.poolMin));
    s := PopulationEnds(c, s, k, made);
  }

  /** With `port_debug`: there is room for the first port of a pass, and it waits for its new name. */
  lemma {:induction false} Checked(c: Config, k: PoolKey) returns (s: State)
    requires c.poolMin >= 1 && c.poolMax >= 1 && c.debug
    ensures Reachable(c, s) && Calm(s) && Size(Pool(s, k)) == 0 && PassAt(s, Renaming)
    ensures s.pass.items[0].1 == k && s.pass.items[0].0 in s.neutron
  {
    var ports;
    s, ports := ManyAwaiting(c, k, 1);
    var s1 := PassBegins(c, s, k, ports);
    s := s1.(pass := s1.pass.(stage := Renaming));
    SizeStep(c, s1, RenameItem, s, k);
  }

  /** It is filed while a population that started right below the minimum is under way. */
  lemma {:induction false} RenamedMeanwhile(c: Config, k: PoolKey) returns (s: State)
    requires c.poolMin >= 1 && c.poolMax >= 1 && c.debug
    ensures Reachable(c, s) && Size(Pool(s, k)) == c.poolMin + c.batch
  {
    s := Checked(c, k);
    var made;
    s, made := PopulateOnce(c, s, k, c.poolMin - 1);
    s := FiledWhilePopulating(c, s, k);
    made := NewPorts(s.created, c.batch);
    s := PopulationEnds(c, s, k, made);
  }

  lemma {:induction false} FiledWhilePopulating(c: Config, s: State, k: PoolKey) returns (s': State)
    requires Reachable(c, s) && Calm(s) && Size(Pool(s, k)) < c.poolMin && PassAt(s, Renaming)
    requires s.pass.items[0].1 == k && s.pass.items[0].0 in s.neutron
    ensures Reachable(c, s') && Size(Pool(s', k)) == Size(Pool(s, k)) + 1
    ensures s'.populating == map[0 := Population(k, {}, Requested(c, Size(Pool(s, k))))]
  {
    var s1 := Begun(c, s, k);
    SizeStep(c, s, BeginPopulate(0, k, {}), s1, k);
    s' := FileFirst(s1);
    SizeStep(c, s1, RenamedItem(true), s', k);
  }

  /** The bound is the best one: a pool of the fresh driver reaches it, whatever the configuration. */
  lemma {:induction false} BoundIsReached(c: Config, k: PoolKey) returns (s: State)
    requires c.poolMin >= 1 && c.poolMax >= 1
    ensures Reachable(c, s) && Size(Pool(s, k)) == Bound(c)
  {
    if Bound(c) == c.poolMax + Max(c.batch, c.poolMin) {
      s := FilledMeanwhile(c, k);
    } else if c.debug {
      s := RenamedMeanwhile(c, k);
    } else {
      s := BatchAtMinimum(c, k);
    }
  }

  // ---- the bound without port_debug ----

  /** Returns up to the maximum or a population from right below the minimum, and a full population. */
  function PlainBound(c: Config): int {
    Max(c.poolMax, c.poolMin - 1) + Max(c.batch, c.poolMin)
  }

  /** In every run of ordinary steps each size is at most the larger of the initial one and `bound`. */
  ghost predicate Bounded(c: Config, bound: int) {
    forall trace, steps, n: nat, k ::
      OrdinaryRun(c, trace, steps) && n < |trace| ==> Size(Pool(trace[n], k)) <= Max(Size(Pool(trace[0], k)), bound)
  }

  /** That bound holds in every run if and only if a port on its way back is not counted, or the maximum
      makes room for it, or a full batch is smaller than the minimum. */
  lemma {:induction false} PlainBoundExactly(c: Config)
    requires c.poolMax >= 1
    ensures Bounded(c, PlainBound(c)) <==> !c.debug || c.poolMin <= c.poolMax || c.batch < c.poolMin
  {
    if !c.debug || c.poolMin <= c.poolMax || c.batch < c.poolMin {
      forall trace, steps, n: nat, k | OrdinaryRun(c, trace, steps) && n < |trace|
        ensures Size(Pool(trace[n], k)) <= Max(Size(Pool(trace[0], k)), PlainBound(c))
      {
        PoolStaysWithinBound(c, trace, steps, n, k);
      }
    } else {
      var s := BoundIsReached(c, PoolKey("", "", ""));
      Exceeded(c, s, PoolKey("", "", ""), PlainBound(c));
    }
  }

  lemma {:induction false} Exceeded(c: Config, s: State, k: PoolKey, bound: nat)
    requires Reachable(c, s) && Size(Pool(s, k)) > bound
    ensures !Bounded(c, bound)
  {
    var trace, steps :| OrdinaryRun(c, trace, steps) && trace[0] == EMPTY && trace[|steps|] == s;
    assert Pool(trace[0], k) == [] && |steps| < |trace|;
  }

  /** A maximum of one, a minimum and a batch of two: with `port_debug` a pool gets four ports. */
  lemma {:induction false} DebugPoolOutgrows(k: PoolKey) returns (s: State)
    ensures var c := Config(1, 2, 2, true);
            Reachable(c, s) && Size(Pool(s, k)) == 4 && PlainBound(c) == 3 && !Bounded(c, 3)
  {
    var c := Config(1, 2, 2, true);
    s := BoundIsReached(c, k);
    Exceeded(c, s, k, 3);
  }
}
