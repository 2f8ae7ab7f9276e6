/** How large a pool can get while requests, populations and return passes interleave. */
module PoolSize {
  import opened PortIndex
  import opened PoolProtocol

  function Max(a: int, b: int): int { if a < b then b else a }

  /** The largest size. A population that starts in an empty pool asks for the larger of the batch and
      the minimum while returns fill the pool up to its maximum; one that starts right below the
      minimum asks for a batch, and with `port_debug` a port whose room was checked before may still
      be on its way. */
  function Bound(c: Config): int {
    Max(c.poolMax + Max(c.batch, c.poolMin), c.poolMin - 1 + (if c.debug then 1 else 0) + c.batch)
  }

  /** One when the return pass has checked the room of pool `k` and not filed its port yet. */
  ghost function Promised(s: State, k: PoolKey): nat {
    if PassAt(s, Renaming) && s.pass.items[0].1 == k then 1 else 0
  }

  /** `k` has at most one population, which holds its lock and asked for no more than the larger
      of the batch and the minimum. */
  ghost predicate Locked(c: Config, s: State) {
    && (forall t :: t in s.populating ==>
       s.populating[t].pool in s.locks && s.populating[t].count <= Max(c.batch, c.poolMin))
    && (forall t, t' :: t in s.populating && t' in s.populating && s.populating[t].pool == s.populating[t'].pool ==>
       t == t')
    && (!c.debug ==> !PassAt(s, Renaming))
  }

  /** The pool is within the bound, and so it will be with the ports that were asked for. */
  ghost predicate Within(c: Config, s: State, k: PoolKey, initial: nat) {
    && Size(Pool(s, k)) + Promised(s, k) <= Max(initial, Bound(c))
    && forall t :: t in s.populating && s.populating[t].pool == k ==>
         Size(Pool(s, k)) + Promised(s, k) + s.populating[t].count <= Bound(c)
  }

  /** Neither a pool deletion nor a security-group removal. */
  predicate Ordinary(step: Step) {
    !step.BeginDrain? && !step.DrainPort? && !step.EndDrain? && !step.Collect? && !step.ForgetPool?
  }

  /** How each ordinary step changes the size of a pool. */
  function Growth(s: State, step: Step, k: PoolKey): int
    requires step.EndPopulate? ==> step.t in s.populating
    requires step.FileItem? || step.RenamedItem? ==> s.pass.Passing? && s.pass.items != []
  {
    match step
    case Pop(t, k', want) => if k' == k then -1 else 0
    case EndPopulate(t, ports, defaults) => if s.populating[t].pool == k then |ports| else 0
    case FileItem => if s.pass.items[0].1 == k then 1 else 0
    case RenamedItem(ok) => if ok && s.pass.items[0].1 == k then 1 else 0
    case _ => 0
  }

  lemma {:induction false} PopShrinks(gs: Groups, i: nat)
    requires DistinctKeys(gs) && i < |gs| && gs[i].ports != []
    ensures Size(PopAt(gs, i)) == Size(gs) - 1
  {
    PopFacts(gs, i);
    SizeIsBag(gs);
    SizeIsBag(PopAt(gs, i));
    assert |Bag(PopAt(gs, i)) + multiset{gs[i].ports[|gs[i].ports| - 1]}| == |Bag(PopAt(gs, i))| + 1;
  }

  lemma {:induction false} FilingGrows(gs: Groups, key: SgKey, ports: seq<PortId>)
    requires DistinctKeys(gs)
    ensures Size(FileAll(gs, key, ports)) == Size(MoveToEnd(FileAll(gs, key, ports), key)) == Size(gs) + |ports|
  {
    var filed := FileAll(gs, key, ports);
    FileAllFacts(gs, key, ports);
    MoveFacts(filed, key);
    SizeIsBag(gs);
    SizeIsBag(filed);
    SizeIsBag(MoveToEnd(filed, key));
  }

  lemma {:induction false} FileGrowth(s: State, k: PoolKey)
    requires Tidy(s) && s.pass.Passing? && s.pass.items != []
    ensures Size(Pool(FileFirst(s), k)) == Size(Pool(s, k)) + if s.pass.items[0].1 == k then 1 else 0
  {
    var (p, k') := s.pass.items[0];
    var key := KeyOf(s.pass.sgCurrent, p);
    FilingGrows(Pool(s, k'), key, [p]);
    assert FileAll(Pool(s, k'), key, [p]) == File(Pool(s, k'), key, p) by {
      assert [p][..0] == [];
    }
  }

  lemma {:induction false} PassGrowth(c: Config, s: State, step: Step, k: PoolKey)
    requires Tidy(s) && Enabled(c, s, step) && OfPass(step)
    ensures Size(Pool(Apply(c, s, step), k)) == Size(Pool(s, k)) + Growth(s, step, k)
  {
    if step.FileItem? || (step.RenamedItem? && step.ok) {
      FileGrowth(s, k);
    } else {
      assert Apply(c, s, step).pools == s.pools;
    }
  }

  lemma {:induction false} RequestGrowth(c: Config, s: State, step: Step, k: PoolKey)
    requires Tidy(s) && Enabled(c, s, step) && OfRequest(step)
    ensures Size(Pool(Apply(c, s, step), k)) == Size(Pool(s, k)) + Growth(s, step, k)
  {
    if step.Pop? {
      PopShrinks(Pool(s, step.k), Choose(Pool(s, step.k), step.want));
    } else {
      assert Apply(c, s, step).pools == s.pools;
    }
  }

  lemma {:induction false} PopulateGrowth(c: Config, s: State, step: Step, k: PoolKey)
    requires Tidy(s) && Enabled(c, s, step) && (step.BeginPopulate? || step.EndPopulate? || step.DeleteDoomed?)
    ensures Size(Pool(Apply(c, s, step), k)) == Size(Pool(s, k)) + Growth(s, step, k)
  {
    if step.EndPopulate? {
      FilingGrows(Pool(s, s.populating[step.t].pool), Sgs(s.populating[step.t].want), step.ports);
    } else {
      assert Apply(c, s, step).pools == s.pools;
    }
  }

  lemma {:induction false} StepGrowth(c: Config, s: State, step: Step, k: PoolKey)
    requires Tidy(s) && Enabled(c, s, step) && Ordinary(step)
    ensures Size(Pool(Apply(c, s, step), k)) == Size(Pool(s, k)) + Growth(s, step, k)
  {
    if OfPass(step) {
      PassGrowth(c, s, step, k);
    } else if OfRequest(step) {
      RequestGrowth(c, s, step, k);
    } else if !step.Elsewhere? {
      PopulateGrowth(c, s, step, k);
    }
  }

  lemma {:induction false} BeginKeepsLocked(c: Config, s: State, t: nat, k: PoolKey, want: set<SgId>)
    requires Locked(c, s) && Enabled(c, s, BeginPopulate(t, k, want))
    ensures Locked(c, Apply(c, s, BeginPopulate(t, k, want)))
  {
    assert forall t' :: t' in s.populating ==> s.populating[t'].pool != k;
  }

  lemma {:induction false} EndKeepsLocked(c: Config, s: State, t: nat, ports: seq<PortId>, defaults: set<SgId>)
    requires Locked(c, s) && Enabled(c, s, EndPopulate(t, ports, defaults))
    ensures Locked(c, Apply(c, s, EndPopulate(t, ports, defaults)))
  {
    var s' := Apply(c, s, EndPopulate(t, ports, defaults));
    assert forall t' :: t' in s'.populating ==> s.populating[t'].pool != s.populating[t].pool;
  }

  lemma {:induction false} PassLeavesLocks(c: Config, s: State, step: Step)
    requires Enabled(c, s, step) && OfPass(step)
    ensures var s' := Apply(c, s, step);
            s'.populating == s.populating && s'.locks == s.locks &&
              (!c.debug && !PassAt(s, Renaming) ==> !PassAt(s', Renaming))
  { }

  lemma {:induction false} RequestsLeaveLocks(c: Config, s: State, step: Step)
    requires Enabled(c, s, step) && Ordinary(step) && !OfPass(step) && !step.BeginPopulate? && !step.EndPopulate?
    ensures var s' := Apply(c, s, step); s'.populating == s.populating && s'.locks == s.locks && s'.pass == s.pass
  { }

  lemma {:induction false} StepKeepsLocked(c: Config, s: State, step: Step)
    requires Locked(c, s) && Enabled(c, s, step) && Ordinary(step)
    ensures Locked(c, Apply(c, s, step))
  {
    if step.BeginPopulate? {
      BeginKeepsLocked(c, s, step.t, step.k, step.want);
    } else if step.EndPopulate? {
      EndKeepsLocked(c, s, step.t, step.ports, step.defaults);
    } else if OfPass(step) {
      PassLeavesLocks(c, s, step);
    } else {
      RequestsLeaveLocks(c, s, step);
    }
  }

  lemma {:induction false} PassKeepsWithin(c: Config, s: State, step: Step, k: PoolKey, initial: nat)
    requires c.poolMax > 0 && Tidy(s) && Locked(c, s) && Within(c, s, k, initial) && Enabled(c, s, step) && OfPass(step)
    ensures Within(c, Apply(c, s, step), k, initial)
  {
    PassGrowth(c, s, step, k);
    PassLeavesLocks(c, s, step);
  }

  lemma {:induction false} RequestKeepsWithin(c: Config, s: State, step: Step, k: PoolKey, initial: nat)
    requires Tidy(s) && Within(c, s, k, initial) && Enabled(c, s, step) && OfRequest(step)
    ensures Within(c, Apply(c, s, step), k, initial)
  {
    RequestGrowth(c, s, step, k);
    RequestsLeaveLocks(c, s, step);
    assert Promised(Apply(c, s, step), k) == Promised(s, k);
  }

  lemma {:induction false} PopulationFits(c: Config, size: nat, promised: nat)
    requires c.poolMax > 0 && size < c.poolMin && promised <= if c.debug then 1 else 0
    ensures size + promised + Requested(c, size) <= Bound(c)
  { }

  lemma {:induction false} PopulateKeepsWithin(
    c: Config, s: State, t: nat, k': PoolKey, want: set<SgId>, k: PoolKey, initial: nat)
    requires c.poolMax > 0 && Tidy(s) && Locked(c, s) && Within(c, s, k, initial) &&
             Enabled(c, s, BeginPopulate(t, k', want))
    ensures Within(c, Apply(c, s, BeginPopulate(t, k', want)), k, initial)
  {
    var s' := Apply(c, s, BeginPopulate(t, k', want));
    PopulationFits(c, Size(Pool(s, k')), Promised(s, k'));
    assert s'.pools == s.pools && Promised(s', k) == Promised(s, k);
  }

  lemma {:induction false} PopulatedWithin(
    c: Config, s: State, t: nat, ports: seq<PortId>, defaults: set<SgId>, k: PoolKey, initial: nat)
    requires Tidy(s) && Locked(c, s) && Within(c, s, k, initial) && Enabled(c, s, EndPopulate(t, ports, defaults))
    ensures Within(c, Apply(c, s, EndPopulate(t, ports, defaults)), k, initial)
  {
    var s' := Apply(c, s, EndPopulate(t, ports, defaults));
    PopulateGrowth(c, s, EndPopulate(t, ports, defaults), k);
    assert Promised(s', k) == Promised(s, k) && s'.populating == s.populating - {t};
  }

  lemma {:induction false} StepKeepsWithin(c: Config, s: State, step: Step, k: PoolKey, initial: nat)
    requires c.poolMax > 0
    requires Tidy(s) && Locked(c, s) && Within(c, s, k, initial) && Enabled(c, s, step) && Ordinary(step)
    ensures Within(c, Apply(c, s, step), k, initial)
  {
    if OfPass(step) {
      PassKeepsWithin(c, s, step, k, initial);
    } else if OfRequest(step) {
      RequestKeepsWithin(c, s, step, k, initial);
    } else if step.EndPopulate? {
      PopulatedWithin(c, s, step.t, step.ports, step.defaults, k, initial);
    } else if step.BeginPopulate? {
      PopulateKeepsWithin(c, s, step.t, step.k, step.want, k, initial);
    } else {
      RequestsLeaveLocks(c, s, step);
      StepGrowth(c, s, step, k);
    }
  }

  /** A run of ordinary steps from a driver at rest. */
  ghost predicate OrdinaryRun(c: Config, trace: seq<State>, steps: seq<Step>) {
    && Run(c, trace, steps) && Sound(trace[0])
    && trace[0].populating == map[] && trace[0].locks == {} && trace[0].pass == NoPass
    && forall i :: 0 <= i < |steps| ==> Ordinary(steps[i])
  }

  /** Every size a pool reaches is at most the larger of its initial size and the bound. */
  lemma {:induction false} PoolStaysWithinBound(c: Config, trace: seq<State>, steps: seq<Step>, n: nat, k: PoolKey)
    requires c.poolMax > 0 && OrdinaryRun(c, trace, steps) && n < |trace|
    ensures Size(Pool(trace[n], k)) <= Max(Size(Pool(trace[0], k)), Bound(c))
  {
    PoolInvariant(c, trace, steps, n, k);
  }

  lemma {:induction false} PoolInvariant(c: Config, trace: seq<State>, steps: seq<Step>, n: nat, k: PoolKey)
    requires c.poolMax > 0 && OrdinaryRun(c, trace, steps) && n < |trace|
    ensures Locked(c, trace[n]) && Within(c, trace[n], k, Size(Pool(trace[0], k)))
  {
    if n > 0 {
      PoolInvariant(c, trace, steps, n - 1, k);
      RunIsSound(c, trace, steps, n - 1);
      assert Follows(c, trace, steps, n - 1);
      StepKeepsLocked(c, trace[n - 1], steps[n - 1]);
      StepKeepsWithin(c, trace[n - 1], steps[n - 1], k, Size(Pool(trace[0], k)));
    }
  }
}
