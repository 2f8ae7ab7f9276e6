/** The per-object event queue of `Async`: callers, one worker thread per group and the callback
    that runs when the worker ends, as interleaved steps. The state is that of one group; groups
    share nothing but the dictionary they are keys of. */
module EventQueue {
  import opened Basics

  /** The n-th accepted event; `injected` ones come from the reconciler. */
  datatype Event = Event(call: nat, injected: bool)

  /** An event in the order of the `put`s. */
  datatype Item = Item(event: Event, ticket: nat)

  /** A caller that has looked up its queue and not yet put its event there. */
  datatype Pending = Pending(event: Event, queue: nat)

  /** Where the thread of a queue is: in `queue.get`, skipping stale events, in the handler, or over. */
  datatype Worker = Waiting | Holding(item: Item) | Handling | Exited

  /** Queues are known by their index in `queues`; `creators` are the events they were made for.
      `puts` are the events by ticket. */
  datatype State = State(
    depth: nat, registered: Option<nat>, queues: seq<seq<Item>>, creators: seq<nat>, workers: map<nat, Worker>,
    pending: seq<Pending>, calls: nat, tickets: nat, puts: seq<nat>,
    handled: seq<Item>, superseded: seq<Item>, dropped: seq<Item>, stranded: seq<Item>)

  datatype Step =
    | Call(injected: bool)     // the locked part of __call__
    | Put(i: nat)              // queue.put of the i-th pending caller
    | Get(q: nat)              // the first queue.get returns
    | Supersede(q: nat)        // the inner loop takes a newer event
    | Handle(q: nat)           // the queue is empty, the handler is called
    | Return(q: nat)           // the handler returns
    | Raise(q: nat)            // the handler raises
    | Timeout(q: nat)          // the grace period is over with nothing to get
    | Done(q: nat)             // _done

  predicate At(s: State, q: nat, w: Worker) {
    q in s.workers && s.workers[q] == w
  }

  predicate Enabled(s: State, step: Step) {
    match step
    case Call(_) => true
    case Put(i) => i < |s.pending| && s.pending[i].queue < |s.queues| &&
                   (s.depth == 0 || |s.queues[s.pending[i].queue]| < s.depth)
    case Get(q) => At(s, q, Waiting) && q < |s.queues| && s.queues[q] != []
    case Supersede(q) => q in s.workers && s.workers[q].Holding? && q < |s.queues| && s.queues[q] != []
    case Handle(q) => q in s.workers && s.workers[q].Holding? && q < |s.queues| && s.queues[q] == []
    case Return(q) => At(s, q, Handling)
    case Raise(q) => At(s, q, Handling)
    case Timeout(q) => At(s, q, Waiting) && q < |s.queues| && s.queues[q] == []
    case Done(q) => At(s, q, Exited) && s.registered.Some? && s.registered.value < |s.queues|
  }

  function Apply(s: State, step: Step): State
    requires Enabled(s, step)
  {
    match step
    case Call(injected) => Accept(s, injected)
    case Put(i) =>
      var p := s.pending[i];
      var item := Item(p.event, s.tickets);
      var s' := s.(pending := s.pending[..i] + s.pending[i + 1..], tickets := s.tickets + 1,
                   puts := s.puts + [p.event.call],
                   queues := s.queues[p.queue := s.queues[p.queue] + [item]]);
      if s.registered == Some(p.queue) then s' else s'.(stranded := s.stranded + [item])
    case Get(q) => Take(s, q)
    case Supersede(q) => Take(s.(superseded := s.superseded + [s.workers[q].item]), q)
    case Handle(q) => s.(workers := s.workers[q := Handling], handled := s.handled + [s.workers[q].item])
    case Return(q) => s.(workers := s.workers[q := Waiting])
    case Raise(q) => s.(workers := s.workers[q := Exited])
    case Timeout(q) => s.(workers := s.workers[q := Exited])
    case Done(q) =>
      s.(registered := None, workers := s.workers - {q}, dropped := s.dropped + s.queues[s.registered.value])
  }

  /** Under the group's lock: find the queue or make one with a worker of its own. An injected
      event is for a group without a queue only. */
  function Accept(s: State, injected: bool): State {
    var event := Event(s.calls, injected);
    if s.registered.Some? then
      if injected then s
      else s.(calls := s.calls + 1, pending := s.pending + [Pending(event, s.registered.value)])
    else
      var q := |s.queues|;
      s.(calls := s.calls + 1, pending := s.pending + [Pending(event, q)], registered := Some(q),
         queues := s.queues + [[]], creators := s.creators + [s.calls], workers := s.workers[q := Waiting])
  }

  function Take(s: State, q: nat): State
    requires q < |s.queues| && s.queues[q] != []
  {
    s.(workers := s.workers[q := Holding(s.queues[q][0])], queues := s.queues[q := s.queues[q][1..]])
  }

  function Init(depth: nat): State {
    State(depth, None, [], [], map[], [], 0, 0, [], [], [], [], [])
  }

  ghost predicate Run(states: seq<State>, steps: seq<Step>) {
    && |states| == |steps| + 1
    && forall i :: 0 <= i < |steps| ==> Enabled(states[i], steps[i]) && states[i + 1] == Apply(states[i], steps[i])
  }

  // ---- one worker ----

  /** The group has a worker exactly when it has a queue, and then it is the worker of that queue. */
  ghost predicate OneWorker(s: State) {
    && (s.registered.Some? ==> s.registered.value < |s.queues|)
    && s.workers.Keys == (if s.registered.Some? then {s.registered.value} else {})
    && |s.creators| == |s.queues|
    && forall i :: 0 <= i < |s.pending| ==> s.pending[i].queue < |s.queues|
  }

  lemma {:induction false} StepKeepsOneWorker(s: State, step: Step)
    requires OneWorker(s) && Enabled(s, step)
    ensures OneWorker(Apply(s, step))
  {
    var s' := Apply(s, step);
    forall i | 0 <= i < |s'.pending| ensures s'.pending[i].queue < |s'.queues| {
      if step.Put? { assert s'.pending[i] == s.pending[if i < step.i then i else i + 1]; }
      else if i < |s.pending| { assert s'.pending[i] == s.pending[i]; }
    }
  }

  // ---- conservation ----

  function Calls(items: seq<Item>): seq<nat> {
    seq(|items|, i requires 0 <= i < |items| => items[i].event.call)
  }

  function Callers(pending: seq<Pending>): seq<nat> {
    seq(|pending|, i requires 0 <= i < |pending| => pending[i].event.call)
  }

  /** The events in the registered queue and in the hands of its worker. */
  function InWork(s: State): seq<Item> {
    if s.registered.Some? && s.registered.value < |s.queues| then
      var q := s.registered.value;
      (if q in s.workers && s.workers[q].Holding? then [s.workers[q].item] else []) + s.queues[q]
    else []
  }

  /** Every place an accepted event can be in. */
  ghost function Everywhere(s: State): multiset<nat> {
    multiset(Callers(s.pending)) + multiset(Calls(InWork(s))) + multiset(Calls(s.handled)) +
    multiset(Calls(s.superseded)) + multiset(Calls(s.dropped)) + multiset(Calls(s.stranded))
  }

  function UpTo(n: nat): seq<nat> {
    seq(n, i => i)
  }

  /** Each accepted event is in exactly one place. */
  ghost predicate Conserved(s: State) {
    Everywhere(s) == multiset(UpTo(s.calls))
  }

  lemma {:induction false} CallsConcat(a: seq<Item>, b: seq<Item>)
    ensures multiset(Calls(a + b)) == multiset(Calls(a)) + multiset(Calls(b))
  {
    assert Calls(a + b) == Calls(a) + Calls(b);
  }

  lemma {:induction false} OneGone(s: seq<nat>, i: nat)
    requires i < |s|
    ensures multiset(s[..i] + s[i + 1..]) + multiset{s[i]} == multiset(s)
  {
    assert s == s[..i] + [s[i]] + s[i + 1..];
  }

  lemma {:induction false} CallMoves(s: State, injected: bool)
    requires OneWorker(s)
    ensures var s' := Accept(s, injected);
            && InWork(s') == InWork(s)
            && (s' != s ==>
                  UpTo(s'.calls) == UpTo(s.calls) + [s.calls] && Callers(s'.pending) == Callers(s.pending) + [s.calls])
  { }

  lemma {:induction false} CallConserves(s: State, injected: bool)
    requires OneWorker(s) && Conserved(s)
    ensures Conserved(Accept(s, injected))
  {
    CallMoves(s, injected);
  }

  lemma {:induction false} PutInWork(s: State, i: nat)
    requires OneWorker(s) && Enabled(s, Put(i))
    ensures InWork(Apply(s, Put(i))) ==
              if s.registered == Some(s.pending[i].queue) then InWork(s) + [Item(s.pending[i].event, s.tickets)]
              else InWork(s)
  { }

  lemma {:induction false} PutCallers(s: State, i: nat)
    requires Enabled(s, Put(i))
    ensures multiset(Callers(Apply(s, Put(i)).pending)) + multiset{s.pending[i].event.call} ==
            multiset(Callers(s.pending))
  {
    OneGone(Callers(s.pending), i);
    assert Callers(Apply(s, Put(i)).pending) == Callers(s.pending)[..i] + Callers(s.pending)[i + 1..];
  }

  lemma {:induction false} CallsOne(items: seq<Item>, item: Item)
    ensures multiset(Calls(items + [item])) == multiset(Calls(items)) + multiset{item.event.call}
    ensures multiset(Calls([item] + items)) == multiset(Calls(items)) + multiset{item.event.call}
  {
    CallsConcat(items, [item]);
    CallsConcat([item], items);
    assert Calls([item]) == [item.event.call];
  }

  lemma {:induction false} PutConserves(s: State, i: nat)
    requires OneWorker(s) && Conserved(s) && Enabled(s, Put(i))
    ensures Conserved(Apply(s, Put(i)))
  {
    var item := Item(s.pending[i].event, s.tickets);
    PutCallers(s, i);
    PutInWork(s, i);
    CallsOne(InWork(s), item);
    CallsOne(s.stranded, item);
  }

  lemma {:induction false} SupersedeConserves(s: State, q: nat)
    requires OneWorker(s) && Conserved(s) && Enabled(s, Supersede(q))
    ensures Conserved(Apply(s, Supersede(q)))
  {
    var s', item := Apply(s, Supersede(q)), s.workers[q].item;
    assert InWork(s) == [item] + InWork(s');
    CallsOne(InWork(s'), item);
    CallsOne(s.superseded, item);
  }

  lemma {:induction false} HandleConserves(s: State, q: nat)
    requires OneWorker(s) && Conserved(s) && Enabled(s, Handle(q))
    ensures Conserved(Apply(s, Handle(q)))
  {
    HandleMoves(s, q);
    CallsOne([], s.workers[q].item);
    CallsOne(s.handled, s.workers[q].item);
    assert [s.workers[q].item] + [] == [s.workers[q].item];
  }

  lemma {:induction false} HandleMoves(s: State, q: nat)
    requires OneWorker(s) && Enabled(s, Handle(q))
    ensures InWork(Apply(s, Handle(q))) == [] && InWork(s) == [s.workers[q].item]
  { }

  lemma {:induction false} DoneConserves(s: State, q: nat)
    requires OneWorker(s) && Conserved(s) && Enabled(s, Done(q))
    ensures Conserved(Apply(s, Done(q)))
  {
    var s' := Apply(s, Done(q));
    assert InWork(s) == s.queues[q] && InWork(s') == [];
    CallsConcat(s.dropped, s.queues[q]);
    assert Calls([]) == [];
  }

  /** A step that moves no event. */
  predicate Quiet(step: Step) {
    step.Get? || step.Return? || step.Raise? || step.Timeout?
  }

  lemma {:induction false} QuietInWork(s: State, step: Step)
    requires OneWorker(s) && Enabled(s, step) && (Quiet(step) || step.Call?)
    ensures InWork(Apply(s, step)) == InWork(s)
  {
    if step.Get? { assert s.queues[step.q] == [s.queues[step.q][0]] + s.queues[step.q][1..]; }
  }

  lemma {:induction false} QuietConserves(s: State, step: Step)
    requires OneWorker(s) && Conserved(s) && Enabled(s, step) && Quiet(step)
    ensures Conserved(Apply(s, step))
  {
    QuietInWork(s, step);
  }

  lemma {:induction false} StepConserves(s: State, step: Step)
    requires OneWorker(s) && Conserved(s) && Enabled(s, step)
    ensures Conserved(Apply(s, step))
  {
    match step
    case Call(injected) => CallConserves(s, injected);
    case Put(i) => PutConserves(s, i);
    case Supersede(q) => SupersedeConserves(s, q);
    case Handle(q) => HandleConserves(s, q);
    case Done(q) => DoneConserves(s, q);
    case _ => QuietConserves(s, step);
  }

  // ---- order ----

  ghost predicate Increasing(items: seq<Item>) {
    forall i, j :: 0 <= i < j < |items| ==> items[i].ticket < items[j].ticket
  }

  /** The items handled so far, then the one in the worker's hands and those in its queue, are in
      the order in which they were put, and so are those of any queue. */
  ghost predicate InOrder(s: State) {
    && Increasing(s.handled + InWork(s))
    && (forall i :: 0 <= i < |s.handled| ==> s.handled[i].ticket < s.tickets)
    && (forall q, i :: 0 <= q < |s.queues| && 0 <= i < |s.queues[q]| ==> s.queues[q][i].ticket < s.tickets)
    && (forall q :: q in s.workers && s.workers[q].Holding? ==> s.workers[q].item.ticket < s.tickets)
  }

  lemma {:induction false} OneMoreInOrder(items: seq<Item>, item: Item)
    requires Increasing(items) && forall i :: 0 <= i < |items| ==> items[i].ticket < item.ticket
    ensures Increasing(items + [item])
  { }

  lemma {:induction false} InWorkIsOld(s: State, i: nat)
    requires OneWorker(s) && InOrder(s) && i < |s.handled + InWork(s)|
    ensures (s.handled + InWork(s))[i].ticket < s.tickets
  { }

  lemma {:induction false} PutInOrder(s: State, i: nat)
    requires OneWorker(s) && InOrder(s) && Enabled(s, Put(i))
    ensures InOrder(Apply(s, Put(i)))
  {
    var s', item := Apply(s, Put(i)), Item(s.pending[i].event, s.tickets);
    PutInWork(s, i);
    var all := s.handled + InWork(s);
    forall j | 0 <= j < |all| ensures all[j].ticket < item.ticket { InWorkIsOld(s, j); }
    OneMoreInOrder(all, item);
    assert s'.handled + InWork(s') == if InWork(s') == InWork(s) then all else all + [item];
  }

  lemma {:induction false} SupersedeInOrder(s: State, q: nat)
    requires OneWorker(s) && InOrder(s) && Enabled(s, Supersede(q))
    ensures InOrder(Apply(s, Supersede(q)))
  {
    var s' := Apply(s, Supersede(q));
    assert InWork(s) == [s.workers[q].item] + InWork(s');
    var a, b := s.handled + InWork(s), s'.handled + InWork(s');
    assert forall i :: 0 <= i < |b| ==> b[i] == a[if i < |s.handled| then i else i + 1];
  }

  lemma {:induction false} HandleInOrder(s: State, q: nat)
    requires OneWorker(s) && InOrder(s) && Enabled(s, Handle(q))
    ensures InOrder(Apply(s, Handle(q)))
  {
    var s' := Apply(s, Handle(q));
    assert s'.handled + InWork(s') == s.handled + InWork(s);
  }

  lemma {:induction false} DoneInOrder(s: State, q: nat)
    requires OneWorker(s) && InOrder(s) && Enabled(s, Done(q))
    ensures InOrder(Apply(s, Done(q)))
  {
    var s' := Apply(s, Done(q));
    assert s'.handled + InWork(s') == s.handled;
    assert forall i :: 0 <= i < |s.handled| ==> s.handled[i] == (s.handled + InWork(s))[i];
  }

  lemma {:induction false} CallInOrder(s: State, injected: bool)
    requires OneWorker(s) && InOrder(s)
    ensures InOrder(Accept(s, injected))
  {
    CallMoves(s, injected);
  }

  lemma {:induction false} GetInOrder(s: State, q: nat)
    requires OneWorker(s) && InOrder(s) && Enabled(s, Get(q))
    ensures InOrder(Apply(s, Get(q)))
  {
    QuietInWork(s, Get(q));
  }

  lemma {:induction false} QuietInOrder(s: State, step: Step)
    requires OneWorker(s) && InOrder(s) && Enabled(s, step) && (step.Return? || step.Raise? || step.Timeout?)
    ensures InOrder(Apply(s, step))
  {
    QuietInWork(s, step);
    var s' := Apply(s, step);
    assert s'.handled == s.handled && s'.queues == s.queues && s'.tickets == s.tickets;
    assert forall q :: q in s'.workers ==> !s'.workers[q].Holding? || (q in s.workers && s.workers[q] == s'.workers[q]);
  }

  lemma {:induction false} StepKeepsOrder(s: State, step: Step)
    requires OneWorker(s) && InOrder(s) && Enabled(s, step)
    ensures InOrder(Apply(s, step))
  {
    match step
    case Call(injected) => CallInOrder(s, injected);
    case Put(i) => PutInOrder(s, i);
    case Get(q) => GetInOrder(s, q);
    case Supersede(q) => SupersedeInOrder(s, q);
    case Handle(q) => HandleInOrder(s, q);
    case Done(q) => DoneInOrder(s, q);
    case _ => QuietInOrder(s, step);
  }

  /** A superseded event gave way to a later one, handled or about to be. */
  ghost predicate LaterOneTaken(s: State) {
    forall i :: 0 <= i < |s.superseded| ==> Overtaken(s, s.superseded[i])
  }

  ghost predicate Overtaken(s: State, x: Item) {
    || (exists j :: 0 <= j < |s.handled| && x.ticket < s.handled[j].ticket)
    || (exists q :: q in s.workers && s.workers[q].Holding? && x.ticket < s.workers[q].item.ticket)
  }

  lemma {:induction false} OvertakenStays(s: State, step: Step, x: Item)
    requires OneWorker(s) && InOrder(s) && Enabled(s, step) && Overtaken(s, x)
    ensures Overtaken(Apply(s, step), x)
  {
    var s' := Apply(s, step);
    if j :| 0 <= j < |s.handled| && x.ticket < s.handled[j].ticket {
      assert s'.handled[j] == s.handled[j];
    } else {
      var q :| q in s.workers && s.workers[q].Holding? && x.ticket < s.workers[q].item.ticket;
      match step {
        case Supersede(_) =>
          var all := s.handled + InWork(s);
          assert all[|s.handled|] == s.workers[q].item && all[|s.handled| + 1] == s.queues[q][0];
          assert s'.workers[q].item == s.queues[q][0];
        case Handle(_) =>
          assert s'.handled[|s.handled|] == s.workers[q].item;
        case _ =>
          assert s'.workers[q] == s.workers[q];
      }
    }
  }

  lemma {:induction false} StepKeepsLater(s: State, step: Step)
    requires OneWorker(s) && InOrder(s) && LaterOneTaken(s) && Enabled(s, step)
    ensures LaterOneTaken(Apply(s, step))
  {
    var s' := Apply(s, step);
    forall i | 0 <= i < |s'.superseded| ensures Overtaken(s', s'.superseded[i]) {
      if i < |s.superseded| {
        assert s'.superseded[i] == s.superseded[i];
        OvertakenStays(s, step, s.superseded[i]);
      } else {
        var q := step.q;
        var all := s.handled + InWork(s);
        assert all[|s.handled|] == s.workers[q].item && all[|s.handled| + 1] == s.queues[q][0];
        assert s'.superseded[i] == s.workers[q].item && s'.workers[q].item == s.queues[q][0];
      }
    }
  }

  // ---- injected events ----

  /** An injected event that waits for a queue or in it is the one the queue was made for. */
  ghost predicate InjectedFirst(s: State) {
    InjectedCallers(s) && InjectedItems(s)
  }

  ghost predicate InjectedCallers(s: State) {
    forall i :: 0 <= i < |s.pending| && s.pending[i].event.injected ==>
      MadeFor(s, s.pending[i].queue, s.pending[i].event)
  }

  ghost predicate InjectedItems(s: State) {
    forall q, i :: 0 <= q < |s.queues| && 0 <= i < |s.queues[q]| && s.queues[q][i].event.injected ==>
      MadeFor(s, q, s.queues[q][i].event)
  }

  ghost predicate MadeFor(s: State, q: nat, event: Event) {
    q < |s.creators| && s.creators[q] == event.call
  }

  lemma {:induction false} StepKeepsInjectedCallers(s: State, step: Step)
    requires OneWorker(s) && InjectedCallers(s) && Enabled(s, step)
    ensures InjectedCallers(Apply(s, step))
  {
    var s' := Apply(s, step);
    forall i | 0 <= i < |s'.pending| && s'.pending[i].event.injected
      ensures MadeFor(s', s'.pending[i].queue, s'.pending[i].event)
    {
      if step.Put? { assert s'.pending[i] == s.pending[if i < step.i then i else i + 1]; }
      else if i < |s.pending| { assert s'.pending[i] == s.pending[i]; }
    }
  }

  lemma {:induction false} StepKeepsInjectedItems(s: State, step: Step)
    requires OneWorker(s) && InjectedFirst(s) && Enabled(s, step)
    ensures InjectedItems(Apply(s, step))
  {
    var s' := Apply(s, step);
    forall q, i | 0 <= q < |s'.queues| && 0 <= i < |s'.queues[q]| && s'.queues[q][i].event.injected
      ensures MadeFor(s', q, s'.queues[q][i].event)
    {
      if step.Get? || step.Supersede? {
        assert s'.queues[q][i] == s.queues[q][if q == step.q then i + 1 else i];
      } else if step.Put? {
        assert q != s.pending[step.i].queue || i < |s.queues[q]| ==> s'.queues[q][i] == s.queues[q][i];
      }
    }
  }

  // ---- stranded events ----

  /** Nobody is left to look at a queue that is not registered. */
  ghost predicate StrandedInRetired(s: State) {
    forall i :: 0 <= i < |s.stranded| ==> InRetired(s, s.stranded[i])
  }

  ghost predicate InRetired(s: State, x: Item) {
    exists q :: 0 <= q < |s.queues| && s.registered != Some(q) && x in s.queues[q]
  }

  lemma {:induction false} StepKeepsStranded(s: State, step: Step)
    requires OneWorker(s) && StrandedInRetired(s) && Enabled(s, step)
    ensures StrandedInRetired(Apply(s, step))
  {
    var s' := Apply(s, step);
    forall i | 0 <= i < |s'.stranded| ensures InRetired(s', s'.stranded[i]) {
      if i < |s.stranded| {
        assert InRetired(s, s.stranded[i]);
        var q :| 0 <= q < |s.queues| && s.registered != Some(q) && s.stranded[i] in s.queues[q];
        assert s.stranded[i] in s'.queues[q];
      } else {
        var q := s.pending[step.i].queue;
        assert s'.stranded[i] in s'.queues[q];
      }
    }
  }

  // ---- whole runs ----

  ghost predicate Safe(s: State) {
    OneWorker(s) && Conserved(s) && InOrder(s) && LaterOneTaken(s) && InjectedFirst(s) && StrandedInRetired(s)
  }

  lemma {:induction false} InitIsSafe(depth: nat)
    ensures Safe(Init(depth))
  {
    var s := Init(depth);
    assert Calls([]) == [] && Callers([]) == [] && UpTo(0) == [];
    assert InWork(s) == [];
  }

  lemma {:induction false} StepIsSafe(s: State, step: Step)
    requires Safe(s) && Enabled(s, step)
    ensures Safe(Apply(s, step))
  {
    StepKeepsOneWorker(s, step);
    StepConserves(s, step);
    StepKeepsOrder(s, step);
    StepKeepsLater(s, step);
    StepKeepsInjectedCallers(s, step);
    StepKeepsInjectedItems(s, step);
    StepKeepsStranded(s, step);
  }

  lemma {:induction false} RunIsSafe(depth: nat, states: seq<State>, steps: seq<Step>, n: nat)
    requires Run(states, steps) && states[0] == Init(depth) && n <= |steps|
    ensures Safe(states[n])
  {
    if n == 0 {
      InitIsSafe(depth);
    } else {
      RunIsSafe(depth, states, steps, n - 1);
      StepIsSafe(states[n - 1], steps[n - 1]);
    }
  }

  /** Each accepted event is in one place and in one place only, in every reachable state. */
  lemma {:induction false} EachEventInOnePlace(depth: nat, states: seq<State>, steps: seq<Step>, n: nat, call: nat)
    requires Run(states, steps) && states[0] == Init(depth) && n <= |steps|
    ensures Everywhere(states[n])[call] == if call < states[n].calls then 1 else 0
  {
    RunIsSafe(depth, states, steps, n);
    OnceUpTo(states[n].calls, call);
  }

  lemma {:induction false} OnceUpTo(n: nat, call: nat)
    ensures multiset(UpTo(n))[call] == if call < n then 1 else 0
  {
    if n > 0 {
      OnceUpTo(n - 1, call);
      assert UpTo(n) == UpTo(n - 1) + [n - 1];
    }
  }

  /** Handled events are handled in the order of their `put`s, none of them twice. */
  lemma {:induction false} HandledInOrder(depth: nat, states: seq<State>, steps: seq<Step>, n: nat)
    requires Run(states, steps) && states[0] == Init(depth) && n <= |steps|
    ensures Increasing(states[n].handled)
  {
    RunIsSafe(depth, states, steps, n);
    var s := states[n];
    assert forall i :: 0 <= i < |s.handled| ==> s.handled[i] == (s.handled + InWork(s))[i];
  }

  // ---- order of the calls ----

  /** `puts` tells the event of each item in a queue, in hand or handled. */
  ghost predicate PutsTell(s: State) {
    && |s.puts| == s.tickets
    && (forall i :: 0 <= i < |s.handled| ==> Told(s, s.handled[i]))
    && (forall q, i :: 0 <= q < |s.queues| && 0 <= i < |s.queues[q]| ==> Told(s, s.queues[q][i]))
    && (forall q :: q in s.workers && s.workers[q].Holding? ==> Told(s, s.workers[q].item))
  }

  ghost predicate Told(s: State, x: Item) {
    x.ticket < |s.puts| && s.puts[x.ticket] == x.event.call
  }

  lemma {:induction false} StepKeepsTold(s: State, step: Step)
    requires OneWorker(s) && PutsTell(s) && Enabled(s, step)
    ensures PutsTell(Apply(s, step))
  {
    var s' := Apply(s, step);
    forall x | Told(s, x) ensures Told(s', x) { }
    forall q, i | 0 <= q < |s'.queues| && 0 <= i < |s'.queues[q]| ensures Told(s', s'.queues[q][i]) {
      if step.Get? || step.Supersede? {
        assert s'.queues[q][i] == s.queues[q][if q == step.q then i + 1 else i];
      } else if step.Put? && q == s.pending[step.i].queue && i == |s.queues[q]| {
        assert s'.puts[s.tickets] == s.pending[step.i].event.call;
      } else {
        assert s'.queues[q][i] == s.queues[q][i];
      }
    }
    forall i | 0 <= i < |s'.handled| ensures Told(s', s'.handled[i]) {
      if i < |s.handled| { assert s'.handled[i] == s.handled[i]; }
    }
  }

  /** Callers of the group come one after the other, each with its `put` before the next call. */
  ghost predicate OneCaller(states: seq<State>, steps: seq<Step>) {
    |states| == |steps| + 1 && forall i :: 0 <= i < |steps| && steps[i].Call? ==> states[i].pending == []
  }

  /** The `put`s so far are in the order of the calls, and so is the one to come. */
  ghost predicate PutsInCallOrder(s: State) {
    && |s.pending| <= 1
    && (forall i, j :: 0 <= i < j < |s.puts| ==> s.puts[i] < s.puts[j])
    && (forall i :: 0 <= i < |s.puts| ==> s.puts[i] < if s.pending == [] then s.calls else s.pending[0].event.call)
    && (s.pending != [] ==> s.pending[0].event.call < s.calls)
  }

  lemma {:induction false} StepKeepsCallOrder(s: State, step: Step)
    requires PutsInCallOrder(s) && Enabled(s, step) && (step.Call? ==> s.pending == [])
    ensures PutsInCallOrder(Apply(s, step))
  {
    if step.Put? { assert s.pending[..step.i] + s.pending[step.i + 1..] == []; }
    else if !step.Call? {
      assert Apply(s, step).pending == s.pending && Apply(s, step).puts == s.puts && Apply(s, step).calls == s.calls;
    }
  }

  lemma {:induction false} CallsInOrder(depth: nat, states: seq<State>, steps: seq<Step>, n: nat)
    requires Run(states, steps) && states[0] == Init(depth) && n <= |steps| && OneCaller(states, steps)
    ensures PutsTell(states[n]) && PutsInCallOrder(states[n])
  {
    if n > 0 {
      CallsInOrder(depth, states, steps, n - 1);
      RunIsSafe(depth, states, steps, n - 1);
      StepKeepsTold(states[n - 1], steps[n - 1]);
      StepKeepsCallOrder(states[n - 1], steps[n - 1]);
    }
  }

  /** With one caller at a time, events are handled in the order of the calls, over all workers. */
  lemma {:induction false} HandledInCallOrder(depth: nat, states: seq<State>, steps: seq<Step>, n: nat, i: nat, j: nat)
    requires Run(states, steps) && states[0] == Init(depth) && n <= |steps| && OneCaller(states, steps)
    requires i < j < |states[n].handled|
    ensures states[n].handled[i].event.call < states[n].handled[j].event.call
  {
    CallsInOrder(depth, states, steps, n);
    HandledInOrder(depth, states, steps, n);
    var s := states[n];
    assert Told(s, s.handled[i]) && Told(s, s.handled[j]);
  }

  // ---- when an event is stranded ----

  /** The queue of a pending caller was registered when it was looked up. */
  lemma {:induction false} LookedUp(
    depth: nat, states: seq<State>, steps: seq<Step>, n: nat, p: Pending) returns (m: nat)
    requires Run(states, steps) && states[0] == Init(depth) && n <= |steps| && p in states[n].pending
    ensures m < n && IsLookup(states, steps, m, p) && states[m + 1].registered == Some(p.queue)
  {
    var s, s' := states[n - 1], states[n];
    if p in s.pending {
      m := LookedUp(depth, states, steps, n - 1, p);
    } else {
      m := n - 1;
    }
  }

  ghost predicate IsLookup(states: seq<State>, steps: seq<Step>, m: nat, p: Pending) {
    m < |steps| && m + 1 < |states| && steps[m].Call? && p !in states[m].pending && p in states[m + 1].pending
  }

  lemma {:induction false} OnlyDoneRetires(
    states: seq<State>, steps: seq<Step>, m: nat, n: nat, q: nat) returns (k: nat)
    requires Run(states, steps) && m <= n <= |steps| && states[m].registered == Some(q) &&
             states[n].registered != Some(q)
    ensures m <= k < n && steps[k].Done? && states[k].registered == Some(q)
  {
    if states[n - 1].registered != Some(q) {
      k := OnlyDoneRetires(states, steps, m, n - 1, q);
    } else {
      k := n - 1;
    }
  }

  /** A queue that is not registered is never registered again: a new one gets a new identity. */
  lemma {:induction false} RetiredStays(states: seq<State>, steps: seq<Step>, k: nat, n: nat, q: nat)
    requires Run(states, steps) && k <= n <= |steps| && q < |states[k].queues| && states[k].registered != Some(q)
    ensures q < |states[n].queues| && states[n].registered != Some(q)
  {
    if k < n { RetiredStays(states, steps, k, n - 1, q); }
  }

  /** The `put` of step `i` comes after a `_done` that came after the lookup. */
  ghost predicate PutTooLate(states: seq<State>, steps: seq<Step>, i: nat)
    requires Run(states, steps) && i < |steps|
  {
    steps[i].Put? && exists m, k :: PopsBetween(states, steps, m, k, i)
  }

  ghost predicate PopsBetween(states: seq<State>, steps: seq<Step>, m: nat, k: nat, i: nat)
    requires Run(states, steps) && i < |steps| && steps[i].Put?
  {
    var p := states[i].pending[steps[i].i];
    m < k < i && IsLookup(states, steps, m, p) && steps[k].Done? && states[k].registered == Some(p.queue)
  }

  /** A step strands an event if and only if it is a `put` with `_done` between it and the lookup. */
  lemma {:induction false} StrandedExactlyByDone(depth: nat, states: seq<State>, steps: seq<Step>, i: nat)
    requires Run(states, steps) && states[0] == Init(depth) && i < |steps|
    ensures states[i + 1].stranded != states[i].stranded <==> PutTooLate(states, steps, i)
  {
    if steps[i].Put? {
      var p := states[i].pending[steps[i].i];
      if states[i].registered != Some(p.queue) {
        var m := LookedUp(depth, states, steps, i, p);
        var k := OnlyDoneRetires(states, steps, m + 1, i, p.queue);
        assert PopsBetween(states, steps, m, k, i);
      }
      forall m: nat, k: nat | PopsBetween(states, steps, m, k, i) ensures states[i].registered != Some(p.queue) {
        RunIsSafe(depth, states, steps, k);
        RetiredStays(states, steps, k + 1, i, p.queue);
      }
    }
  }

  ghost predicate NoLatePut(states: seq<State>, steps: seq<Step>, n: nat)
    requires Run(states, steps) && n <= |steps|
  {
    n == 0 || (NoLatePut(states, steps, n - 1) && !PutTooLate(states, steps, n - 1))
  }

  /** So in a run where `_done` never comes between a lookup and its `put`, each accepted event is
      pending, queued, in hand, handled, superseded or dropped; and in any other run one is not. */
  lemma {:induction false} NoneStranded(depth: nat, states: seq<State>, steps: seq<Step>, n: nat)
    requires Run(states, steps) && states[0] == Init(depth) && n <= |steps|
    ensures states[n].stranded == [] <==> NoLatePut(states, steps, n)
  {
    if n == 0 {
      assert states[0].stranded == [];
    } else {
      NoneStranded(depth, states, steps, n - 1);
      StrandedExactlyByDone(depth, states, steps, n - 1);
      StrandedGrows(states, steps, n - 1);
    }
  }

  lemma {:induction false} StrandedGrows(states: seq<State>, steps: seq<Step>, n: nat)
    requires Run(states, steps) && n < |steps|
    ensures states[n].stranded <= states[n + 1].stranded
  { }

  /** A run that strands an event: the handler raises while the second caller has its queue and has
      not yet put its event there. */
  ghost function Script(): seq<Step> {
    [Call(false), Put(0), Get(0), Handle(0), Call(false), Raise(0), Done(0), Put(0)]
  }

  ghost function Moment(depth: nat, i: nat): State
    requires i <= 8
  {
    var x0, x1 := Item(Event(0, false), 0), Item(Event(1, false), 1);
    State(depth,
          if 0 < i < 7 then Some(0) else None,
          if i == 0 then [] else if i == 2 then [[x0]] else if i == 8 then [[x1]] else [[]],
          if i == 0 then [] else [0],
          if i == 0 || i >= 7 then map[] else
            map[0 := if i <= 2 then Waiting else if i == 3 then Holding(x0) else if i <= 5 then Handling else Exited],
          if i == 1 then [Pending(x0.event, 0)] else if 5 <= i <= 7 then [Pending(x1.event, 0)] else [],
          if i == 0 then 0 else if i < 5 then 1 else 2,
          if i < 2 then 0 else if i < 8 then 1 else 2,
          if i < 2 then [] else if i < 8 then [0] else [0, 1],
          if i < 4 then [] else [x0], [], [], if i < 8 then [] else [x1])
  }

  ghost predicate Follows(s: State, step: Step, s': State) {
    Enabled(s, step) && Apply(s, step) == s'
  }

  lemma {:induction false} MomentPut(depth: nat, i: nat)
    requires depth > 0 && (i == 1 || i == 7)
    ensures Follows(Moment(depth, i), Script()[i], Moment(depth, i + 1))
  {
    var s := Moment(depth, i);
    assert s.pending[..0] + s.pending[1..] == [];
    assert s.queues[0] + [Item(s.pending[0].event, s.tickets)] == [Item(s.pending[0].event, s.tickets)];
  }

  lemma {:induction false} MomentCall(depth: nat, i: nat)
    requires i == 0 || i == 4
    ensures Follows(Moment(depth, i), Script()[i], Moment(depth, i + 1))
  { }

  lemma {:induction false} MomentTaken(depth: nat, i: nat)
    requires i == 2 || i == 3
    ensures Follows(Moment(depth, i), Script()[i], Moment(depth, i + 1))
  {
    if i == 2 { assert Moment(depth, 2).queues[0][1..] == []; }
  }

  lemma {:induction false} MomentOver(depth: nat, i: nat)
    requires i == 5 || i == 6
    ensures Follows(Moment(depth, i), Script()[i], Moment(depth, i + 1))
  { }

  lemma {:induction false} MomentStep(depth: nat, i: nat)
    requires depth > 0 && i < 8
    ensures Follows(Moment(depth, i), Script()[i], Moment(depth, i + 1))
  {
    if i == 1 || i == 7 {
      MomentPut(depth, i);
    } else if i == 0 || i == 4 {
      MomentCall(depth, i);
    } else if i < 4 {
      MomentTaken(depth, i);
    } else {
      MomentOver(depth, i);
    }
  }

  lemma {:induction false} StrandingRun(depth: nat) returns (states: seq<State>, steps: seq<Step>)
    requires depth > 0
    ensures Run(states, steps) && states[0] == Init(depth)
    ensures states[|steps|].stranded == [Item(Event(1, false), 1)] && states[|steps|].registered.None?
  {
    steps := Script();
    states := seq(9, i requires 0 <= i < 9 => Moment(depth, i));
    forall i | 0 <= i < 8 ensures Enabled(states[i], steps[i]) && states[i + 1] == Apply(states[i], steps[i]) {
      MomentStep(depth, i);
    }
  }

  /** An injected event changes nothing while the group has a queue. */
  lemma {:induction false} InjectedIsIgnored(depth: nat, states: seq<State>, steps: seq<Step>, n: nat, i: nat)
    requires Run(states, steps) && states[0] == Init(depth) && n <= |steps| && states[n].registered.Some?
    ensures Apply(states[n], Call(true)) == states[n]
    ensures var q := states[n].registered.value;
            q < |states[n].queues| && (i < |states[n].queues[q]| && states[n].queues[q][i].event.injected ==>
                                         MadeFor(states[n], q, states[n].queues[q][i].event))
  {
    RunIsSafe(depth, states, steps, n);
  }
}
