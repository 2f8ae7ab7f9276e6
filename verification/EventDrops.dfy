/** When a worker of the event queue ends, what `_done` then drops, and what a worker gets done
    while nothing makes it end. */
module EventDrops {
  import opened Basics
  import opened EventQueue

  /** The handler raises, or the grace period is over. */
  predicate Ends(step: Step, q: nat) {
    step == Raise(q) || step == Timeout(q)
  }

  /** Step `i` ended the worker of `q`, which `_done` has not cleared away before `n`. */
  ghost predicate EndedBy(steps: seq<Step>, i: nat, n: nat, q: nat) {
    i < n <= |steps| && Ends(steps[i], q) && forall m :: i < m < n ==> steps[m] != Done(q)
  }

  lemma {:induction false} EndedStays(s: State, step: Step, q: nat)
    requires OneWorker(s) && Enabled(s, step) && At(s, q, Exited) && step != Done(q)
    ensures At(Apply(s, step), q, Exited) && q < |s.queues| && q < |Apply(s, step).queues|
    ensures Apply(s, step).queues[q] == s.queues[q] + PutBy(s, step, q)
  { }

  /** What the step puts into queue `q`. */
  function PutBy(s: State, step: Step, q: nat): seq<Item> {
    if step.Put? && step.i < |s.pending| && s.pending[step.i].queue == q then
      [Item(s.pending[step.i].event, s.tickets)]
    else []
  }

  lemma {:induction false} OneWorkerAt(depth: nat, states: seq<State>, steps: seq<Step>, n: nat)
    requires Run(states, steps) && states[0] == Init(depth) && n <= |steps|
    ensures OneWorker(states[n])
  {
    RunIsSafe(depth, states, steps, n);
  }

  lemma {:induction false} OverBecause(s: State, step: Step, q: nat)
    requires Enabled(s, step) && At(Apply(s, step), q, Exited)
    ensures Ends(step, q) || (At(s, q, Exited) && step != Done(q))
  { }

  lemma {:induction false} OverStep(s: State, step: Step, steps: seq<Step>, n: nat, n': nat, q: nat)
    requires OneWorker(s) && Enabled(s, step) && n < |steps| && steps[n] == step && n' == n + 1
    requires At(s, q, Exited) <==> exists i: nat :: EndedBy(steps, i, n, q)
    ensures At(Apply(s, step), q, Exited) <==> exists i: nat :: EndedBy(steps, i, n', q)
  {
    if At(Apply(s, step), q, Exited) {
      OverBecause(s, step, q);
      if Ends(step, q) {
        assert EndedBy(steps, n, n', q);
      } else {
        var i: nat :| EndedBy(steps, i, n, q);
        assert EndedBy(steps, i, n', q);
      }
    }
    if i: nat :| EndedBy(steps, i, n', q) {
      if i < n {
        assert EndedBy(steps, i, n, q);
        EndedStays(s, step, q);
      }
    }
  }

  /** A worker is over if and only if its handler raised or its queue was empty for the grace period, and
      `_done` has not run since. */
  lemma {:induction false} OverExactly(depth: nat, states: seq<State>, steps: seq<Step>, n: nat, q: nat)
    requires Run(states, steps) && states[0] == Init(depth) && n <= |steps|
    ensures At(states[n], q, Exited) <==> exists i: nat :: EndedBy(steps, i, n, q)
  {
    if n > 0 {
      OneWorkerAt(depth, states, steps, n - 1);
      OverExactly(depth, states, steps, n - 1, q);
      OverStep(states[n - 1], steps[n - 1], steps, n - 1, n, q);
    }
  }

  /** What callers have put into queue `q` since step `i`. */
  ghost function PutSince(states: seq<State>, steps: seq<Step>, i: nat, n: nat, q: nat): seq<Item>
    requires n <= |steps| < |states|
    decreases n
  {
    if n <= i + 1 then [] else PutSince(states, steps, i, n - 1, q) + PutBy(states[n - 1], steps[n - 1], q)
  }

  lemma {:induction false} EndedAt(depth: nat, states: seq<State>, steps: seq<Step>, i: nat, n: nat, q: nat)
    requires Run(states, steps) && states[0] == Init(depth) && EndedBy(steps, i, n, q)
    ensures OneWorker(states[n]) && At(states[n], q, Exited)
  {
    OneWorkerAt(depth, states, steps, n);
    OverExactly(depth, states, steps, n, q);
  }

  ghost predicate Queued(s: State, q: nat, base: seq<Item>, put: seq<Item>) {
    q < |s.queues| && s.queues[q] == base + put
  }

  lemma {:induction false} QueueStep(s: State, step: Step, q: nat, base: seq<Item>, put: seq<Item>)
    requires OneWorker(s) && Enabled(s, step) && At(s, q, Exited) && step != Done(q) && Queued(s, q, base, put)
    ensures Queued(Apply(s, step), q, base, put + PutBy(s, step, q))
  {
    EndedStays(s, step, q);
    assert (base + put) + PutBy(s, step, q) == base + (put + PutBy(s, step, q));
  }

  lemma {:induction false} QueueSinceEnd(depth: nat, states: seq<State>, steps: seq<Step>, i: nat, n: nat, q: nat)
    requires Run(states, steps) && states[0] == Init(depth) && EndedBy(steps, i, n, q)
    ensures q < |states[i].queues| && Queued(states[n], q, states[i].queues[q], PutSince(states, steps, i, n, q))
  {
    if n == i + 1 {
      OneWorkerAt(depth, states, steps, i);
      EndKeepsQueue(states[i], steps[i], q);
    } else {
      var s, step := states[n - 1], steps[n - 1];
      assert EndedBy(steps, i, n - 1, q);
      QueueSinceEnd(depth, states, steps, i, n - 1, q);
      EndedAt(depth, states, steps, i, n - 1, q);
      var base, put := states[i].queues[q], PutSince(states, steps, i, n - 1, q);
      QueueStep(s, step, q, base, put);
      assert PutSince(states, steps, i, n, q) == put + PutBy(s, step, q);
      assert states[n] == Apply(s, step);
    }
  }

  lemma {:induction false} EndKeepsQueue(s: State, step: Step, q: nat)
    requires OneWorker(s) && Enabled(s, step) && Ends(step, q)
    ensures q < |s.queues| && Queued(Apply(s, step), q, s.queues[q], [])
  { }

  /** `_done` drops exactly what was queued when the handler raised and what was put since the worker
      ended, in that order; a queue that ran into the grace period was empty. */
  lemma {:induction false} DroppedExactly(depth: nat, states: seq<State>, steps: seq<Step>, n: nat) returns (i: nat)
    requires Run(states, steps) && states[0] == Init(depth) && n < |steps| && steps[n].Done?
    ensures var q := steps[n].q;
            && EndedBy(steps, i, n, q) && q < |states[i].queues|
            && (steps[i].Timeout? ==> states[i].queues[q] == [])
            && states[n + 1].dropped ==
               states[n].dropped + states[i].queues[q] + PutSince(states, steps, i, n, q)
  {
    var q := steps[n].q;
    OneWorkerAt(depth, states, steps, n);
    OverExactly(depth, states, steps, n, q);
    i :| EndedBy(steps, i, n, q);
    QueueSinceEnd(depth, states, steps, i, n, q);
    assert states[n].registered == Some(q);
  }

  /** At step `n`, `_done` comes after a handler that raised with events queued, or after a put to the
      queue whose worker had ended. */
  ghost predicate DropsAt(states: seq<State>, steps: seq<Step>, n: nat)
    requires Run(states, steps) && n < |steps|
  {
    && steps[n].Done?
    && exists i: nat :: EndedBy(steps, i, n, steps[n].q) &&
                   (RaisesEarly(states, steps, i, steps[n].q) ||
                     exists m: nat :: PutsLate(states, steps, i, m, n, steps[n].q))
  }

  /** The handler raises with events queued. */
  ghost predicate RaisesEarly(states: seq<State>, steps: seq<Step>, i: nat, q: nat)
    requires i < |steps| < |states|
  {
    steps[i] == Raise(q) && q < |states[i].queues| && states[i].queues[q] != []
  }

  ghost predicate PutsLate(states: seq<State>, steps: seq<Step>, i: nat, m: nat, n: nat, q: nat)
    requires n <= |steps| < |states|
  {
    i < m < n && PutBy(states[m], steps[m], q) != []
  }

  lemma {:induction false} PutSinceSome(states: seq<State>, steps: seq<Step>, i: nat, n: nat, q: nat)
    requires i < n <= |steps| < |states|
    ensures PutSince(states, steps, i, n, q) != [] <==> exists m: nat :: PutsLate(states, steps, i, m, n, q)
  {
    if n > i + 1 {
      var k := n - 1;
      PutSinceSome(states, steps, i, k, q);
      if PutBy(states[n - 1], steps[n - 1], q) != [] {
        assert PutsLate(states, steps, i, n - 1, n, q);
      } else {
        assert PutSince(states, steps, i, n, q) == PutSince(states, steps, i, k, q);
        if m: nat :| PutsLate(states, steps, i, m, n, q) { assert PutsLate(states, steps, i, m, k, q); }
        if m: nat :| PutsLate(states, steps, i, m, k, q) { assert PutsLate(states, steps, i, m, n, q); }
      }
    }
  }

  lemma {:induction false} OneEnd(depth: nat, states: seq<State>, steps: seq<Step>, i: nat, j: nat, n: nat, q: nat)
    requires Run(states, steps) && states[0] == Init(depth) && EndedBy(steps, i, n, q) && EndedBy(steps, j, n, q)
    ensures i == j
  {
    var a, b := if i < j then i else j, if i < j then j else i;
    if a < b {
      assert EndedBy(steps, a, b, q);
      OverExactly(depth, states, steps, b, q);
      assert false;
    }
  }

  /** Events are dropped by a step if and only if it is such a `_done`. */
  lemma {:induction false} DropsExactly(depth: nat, states: seq<State>, steps: seq<Step>, n: nat)
    requires Run(states, steps) && states[0] == Init(depth) && n < |steps|
    ensures states[n + 1].dropped != states[n].dropped <==> DropsAt(states, steps, n)
  {
    if steps[n].Done? {
      var q := steps[n].q;
      var i := DroppedExactly(depth, states, steps, n);
      PutSinceSome(states, steps, i, n, q);
      forall j: nat | EndedBy(steps, j, n, q) ensures j == i { OneEnd(depth, states, steps, i, j, n, q); }
      assert states[n + 1].dropped != states[n].dropped <==>
             states[i].queues[q] != [] || PutSince(states, steps, i, n, q) != [];
      assert steps[i].Raise? || steps[i].Timeout?;
    }
  }

  ghost predicate NothingDrops(states: seq<State>, steps: seq<Step>, n: nat)
    requires Run(states, steps) && n <= |steps|
  {
    forall m :: 0 <= m < n ==> !DropsAt(states, steps, m)
  }

  /** So nothing is ever dropped if and only if no handler raises with events queued and no event is put
      between the end of a worker and its `_done`. */
  lemma {:induction false} NoneDropped(depth: nat, states: seq<State>, steps: seq<Step>, n: nat)
    requires Run(states, steps) && states[0] == Init(depth) && n <= |steps|
    ensures states[n].dropped == [] <==> NothingDrops(states, steps, n)
  {
    if n > 0 {
      NoneDropped(depth, states, steps, n - 1);
      DropsExactly(depth, states, steps, n - 1);
      assert states[n - 1].dropped <= states[n].dropped;
      assert NothingDrops(states, steps, n) <==> NothingDrops(states, steps, n - 1) && !DropsAt(states, steps, n - 1);
    }
  }

  // ---- what is handled ----

  /** `x` is in queue `q`, or it has been taken out and so has everything before it. */
  ghost predicate QueuedOrTaken(s: State, q: nat, x: Item) {
    q < |s.queues| && (x in s.queues[q] || OnlyLater(s, q, x.ticket))
  }

  ghost predicate OnlyLater(s: State, q: nat, ticket: nat)
    requires q < |s.queues|
  {
    && (forall y :: y in s.queues[q] ==> y.ticket > ticket)
    && (q in s.workers && s.workers[q].Holding? ==> s.workers[q].item.ticket >= ticket)
  }

  lemma {:induction false} TakeKeeps(s: State, q: nat, x: Item, q': nat)
    requires q' < |s.queues| && s.queues[q'] != [] && Increasing(s.queues[q']) && QueuedOrTaken(s, q, x)
    ensures QueuedOrTaken(Take(s, q'), q, x)
  {
    var queue := s.queues[q'];
    if q == q' && x in queue && x !in queue[1..] {
      assert queue[0] == x;
      forall y | y in queue[1..] ensures y.ticket > x.ticket {
        var i :| 0 <= i < |queue[1..]| && queue[1..][i] == y;
        assert queue[i + 1] == y;
      }
    }
  }

  lemma {:induction false} OthersKeep(s: State, step: Step, q: nat, x: Item)
    requires Enabled(s, step) && !step.Get? && !step.Supersede? && QueuedOrTaken(s, q, x) && x.ticket < s.tickets
    requires step.Call? && s.registered.None? ==> s.workers == map[]
    ensures QueuedOrTaken(Apply(s, step), q, x)
  {
    if step.Put? && s.pending[step.i].queue == q {
      var item := Item(s.pending[step.i].event, s.tickets);
      assert forall y :: y in s.queues[q] + [item] <==> y in s.queues[q] || y == item;
    }
  }

  lemma {:induction false} TailInOrder(all: seq<Item>, tail: seq<Item>)
    requires Increasing(all) && |tail| <= |all| && all[|all| - |tail|..] == tail
    ensures Increasing(tail)
  {
    forall i | 0 <= i < |tail| ensures all[|all| - |tail| + i] == tail[i] { }
  }

  lemma {:induction false} WorkingQueueInOrder(depth: nat, states: seq<State>, steps: seq<Step>, n: nat, q: nat)
    requires Run(states, steps) && states[0] == Init(depth) && n <= |steps| && q in states[n].workers
    ensures q < |states[n].queues| && Increasing(states[n].queues[q])
  {
    RunIsSafe(depth, states, steps, n);
    var s := states[n];
    assert s.registered == Some(q);
    TailInOrder(s.handled + InWork(s), s.queues[q]);
  }

  lemma {:induction false} StepKeepsQueued(s: State, step: Step, q: nat, x: Item)
    requires OneWorker(s) && Enabled(s, step) && QueuedOrTaken(s, q, x) && x.ticket < s.tickets
    requires step.Get? || step.Supersede? ==> Increasing(s.queues[step.q])
    ensures QueuedOrTaken(Apply(s, step), q, x) && x.ticket < Apply(s, step).tickets
  {
    if step.Get? {
      TakeKeeps(s, q, x, step.q);
    } else if step.Supersede? {
      TakeKeeps(s.(superseded := s.superseded + [s.workers[step.q].item]), q, x, step.q);
    } else {
      OthersKeep(s, step, q, x);
    }
  }

  lemma {:induction false} PutIsQueued(s: State, step: Step, q: nat, x: Item)
    requires OneWorker(s) && Enabled(s, step) && PutBy(s, step, q) == [x]
    ensures QueuedOrTaken(Apply(s, step), q, x) && x.ticket < Apply(s, step).tickets
  {
    var queue := Apply(s, step).queues[q];
    assert queue[|queue| - 1] == x;
  }

  lemma {:induction false} PutIsQueuedOrTaken(
    depth: nat, states: seq<State>, steps: seq<Step>, m: nat, n: nat, q: nat, x: Item)
    requires Run(states, steps) && states[0] == Init(depth) && m < n <= |steps|
    requires PutBy(states[m], steps[m], q) == [x]
    ensures QueuedOrTaken(states[n], q, x) && x.ticket < states[n].tickets
  {
    var k := n - 1;
    OneWorkerAt(depth, states, steps, k);
    if m == k {
      PutIsQueued(states[k], steps[k], q, x);
    } else {
      PutIsQueuedOrTaken(depth, states, steps, m, k, q, x);
      if steps[k].Get? || steps[k].Supersede? { WorkingQueueInOrder(depth, states, steps, k, steps[k].q); }
      StepKeepsQueued(states[k], steps[k], q, x);
    }
  }

  /** The event that is handled is the last one put into its queue so far. */
  lemma {:induction false} HandlesLatest(depth: nat, states: seq<State>, steps: seq<Step>, m: nat, n: nat, x: Item)
    requires Run(states, steps) && states[0] == Init(depth) && m < n < |steps| && steps[n].Handle?
    requires PutBy(states[m], steps[m], steps[n].q) == [x]
    ensures x.ticket <= states[n].workers[steps[n].q].item.ticket
  {
    assert Enabled(states[n], steps[n]);
    PutIsQueuedOrTaken(depth, states, steps, m, n, steps[n].q, x);
  }

  /** No queue gets longer than its depth. */
  lemma {:induction false} QueuesWithinDepth(depth: nat, states: seq<State>, steps: seq<Step>, n: nat, q: nat)
    requires Run(states, steps) && states[0] == Init(depth) && n <= |steps| && q < |states[n].queues| && depth > 0
    ensures |states[n].queues[q]| <= depth && states[n].depth == depth
  {
    if n > 0 && q < |states[n - 1].queues| { QueuesWithinDepth(depth, states, steps, n - 1, q); }
    DepthStays(depth, states, steps, n);
  }

  lemma {:induction false} DepthStays(depth: nat, states: seq<State>, steps: seq<Step>, n: nat)
    requires Run(states, steps) && states[0] == Init(depth) && n <= |steps|
    ensures states[n].depth == depth
  {
    if n > 0 { DepthStays(depth, states, steps, n - 1); }
  }

  // ---- progress of a worker ----

  ghost predicate Leads(s: State, s': State) {
    exists states, steps :: Run(states, steps) && states[0] == s && states[|steps|] == s'
  }

  lemma {:induction false} Go(s: State, s1: State, step: Step, s2: State)
    requires Leads(s, s1) && Enabled(s1, step) && s2 == Apply(s1, step)
    ensures Leads(s, s2)
  {
    var states, steps :| Run(states, steps) && states[0] == s && states[|steps|] == s1;
    var states', steps' := states + [s2], steps + [step];
    forall i | 0 <= i < |steps'|
      ensures Enabled(states'[i], steps'[i]) && states'[i + 1] == Apply(states'[i], steps'[i])
    {
      if i < |steps| { assert states'[i] == states[i] && states'[i + 1] == states[i + 1] && steps'[i] == steps[i]; }
    }
    assert Run(states', steps') && states'[0] == s && states'[|steps'|] == s2;
  }

  lemma {:induction false} Stay(s: State)
    ensures Leads(s, s)
  {
    assert Run([s], []) && [s][0] == s;
  }

  /** The worker of `q` holds the last of its events and the others are superseded. */
  ghost function Skipped(s: State, q: nat, all: seq<Item>): State
    requires all != [] && q < |s.queues|
  {
    s.(queues := s.queues[q := []], superseded := s.superseded + all[..|all| - 1],
       workers := s.workers[q := Holding(all[|all| - 1])])
  }

  lemma {:induction false} SkippedOneMore(s: State, q: nat)
    requires q < |s.queues| && q in s.workers && s.workers[q].Holding? && s.queues[q] != []
    ensures var s1 := Apply(s, Supersede(q));
            && [s1.workers[q].item] + s1.queues[q] == s.queues[q]
            && Skipped(s1, q, s.queues[q]) == Skipped(s, q, [s.workers[q].item] + s.queues[q])
  {
    var queue, first := s.queues[q], s.workers[q].item;
    var all := [first] + queue;
    assert all[..|all| - 1] == [first] + queue[..|queue| - 1];
    assert s.superseded + [first] + queue[..|queue| - 1] == s.superseded + all[..|all| - 1];
  }

  lemma {:induction false} SkipStale(s0: State, s: State, q: nat) returns (s': State)
    requires Leads(s0, s) && q < |s.queues| && q in s.workers && s.workers[q].Holding?
    ensures Leads(s0, s') && s' == Skipped(s, q, [s.workers[q].item] + s.queues[q])
    decreases if q < |s.queues| then |s.queues[q]| else 0
  {
    if s.queues[q] == [] {
      s' := s;
      var all := [s.workers[q].item] + s.queues[q];
      assert s.queues[q := []] == s.queues && s.superseded + all[..|all| - 1] == s.superseded;
      assert s.workers[q := Holding(all[|all| - 1])] == s.workers;
    } else {
      Go(s0, s, Supersede(q), Apply(s, Supersede(q)));
      SkippedOneMore(s, q);
      s' := SkipStale(s0, Apply(s, Supersede(q)), q);
    }
  }

  /** A waiting worker with events queued gets to where the last of them is handled, the others are
      superseded and it waits again. */
  lemma {:induction false} QueueIsWorkedOff(s: State, q: nat) returns (s': State)
    requires At(s, q, Waiting) && q < |s.queues| && s.queues[q] != []
    ensures Leads(s, s')
    ensures var all := s.queues[q];
            s' == s.(queues := s.queues[q := []], superseded := s.superseded + all[..|all| - 1],
                     handled := s.handled + [all[|all| - 1]])
  {
    var all := s.queues[q];
    Stay(s);
    var s1 := Apply(s, Get(q));
    Go(s, s, Get(q), s1);
    var s2 := SkipStale(s, s1, q);
    assert [s1.workers[q].item] + s1.queues[q] == all && s1.queues[q := []] == s.queues[q := []];
    var s3 := Apply(s2, Handle(q));
    Go(s, s2, Handle(q), s3);
    s' := Apply(s3, Return(q));
    Go(s, s3, Return(q), s');
    assert s'.workers == s.workers;
  }

  /** And one with nothing queued ends after the grace period, its group idle again and nothing lost. */
  lemma {:induction false} IdleWorkerEnds(s: State, q: nat) returns (s': State)
    requires OneWorker(s) && At(s, q, Waiting) && s.queues[q] == []
    ensures Leads(s, s') && s' == s.(registered := None, workers := map[])
  {
    Stay(s);
    var s1 := s.(workers := s.workers[q := Exited]);
    Go(s, s, Timeout(q), s1);
    s' := Apply(s1, Done(q));
    Go(s, s1, Done(q), s');
    assert s.workers.Keys == {q} && s'.workers == map[] && s.dropped + [] == s.dropped;
  }
}
