/** The life of a pod's KuryrPort and its VIFs, for one pod name: the pod handler and the KuryrPort
    handler, each one event at a time and each remote call one step, next to users who create,
    complete, delete and forcibly remove pods, delete KuryrPorts by hand, and a controller that may
    stop anywhere. Handlers start from the objects as stored. */
module PortLifecycle {
  import opened Basics

  type Vif = nat

  datatype Pod = Pod(uid: nat, deleting: bool, completed: bool, finalizer: bool)

  /** A KuryrPort always has its finalizer: it is created with it and gone without it. */
  datatype KuryrPort = KuryrPort(id: nat, podUid: nat, deleting: bool, vifs: set<Vif>)

  /** The pod handler between two calls; `uid` is that of the pod its event is about, and `Drop` is
      about to take the pod's finalizer away. */
  datatype PodHandler =
    | Idle | AddFinalizer(uid: nat) | GetPort(uid: nat) | CreatePort(uid: nat)
    | FinalGet | Annotate | DeletePort | Drop

  /** The KuryrPort handler between two calls. `orphan` is a KuryrPort without its pod. */
  datatype PortHandler =
    | Rest
    | DeleteOrphan
    | Request                                      // about to ask for the main VIF
    | More(vifs: set<Vif>)                         // about to ask for an additional one
    | Record(vifs: set<Vif>)
    | Return(vifs: set<Vif>)                       // recording failed, the VIFs are given back
    | Release(orphan: bool, todo: set<Vif>)
    | DropPod(orphan: bool)
    | DropPort(orphan: bool)

  /** `failed` are VIFs of orphans whose release failed, `lost` those a stop or a failed return left,
      `abandoned` those an additional request that raised left. `gone` are the KuryrPorts that
      disappeared, each with whether it was an orphan. */
  datatype State = State(
    pod: Option<Pod>, port: Option<KuryrPort>, ph: PodHandler, kh: PortHandler, uids: nat, ids: nat,
    requested: set<Vif>, released: set<Vif>, failed: set<Vif>, lost: set<Vif>, abandoned: set<Vif>,
    gone: seq<(KuryrPort, bool)>)

  datatype Step =
    | CreatePod | CompletePod | DeletePod | ForcePod | DeletePortByHand | Crash
    | PodPresent | PodFinalize | PodStep(ok: bool)
    | PortPresent | PortFinalize | PortStep(v: Vif, ok: bool, last: bool)

  /** An object with a deletion timestamp is gone with its last finalizer. */
  function WithoutFinalizer(pod: Option<Pod>): Option<Pod> {
    if pod.None? || pod.value.deleting then None else Some(pod.value.(finalizer := false))
  }

  predicate SamePod(s: State) {
    s.pod.Some? && s.port.Some? && s.pod.value.uid == s.port.value.podUid
  }

  /** The pod of the stored KuryrPort is neither deleting nor completed. */
  predicate PodRuns(s: State) {
    SamePod(s) && !s.pod.value.deleting && !s.pod.value.completed
  }

  ghost predicate Enabled(s: State, step: Step) {
    match step
    case CreatePod => s.pod.None?
    case CompletePod => s.pod.Some?
    case DeletePod => s.pod.Some?
    case ForcePod => s.pod.Some?
    case DeletePortByHand => s.port.Some?
    case Crash => true
    case PodPresent => s.ph.Idle? && s.pod.Some? && !s.pod.value.deleting && !s.pod.value.completed
    case PodFinalize => s.ph.Idle? && s.pod.Some? && (s.pod.value.deleting || s.pod.value.completed)
    case PodStep(_) => !s.ph.Idle?
    case PortPresent => s.kh.Rest? && s.port.Some? && !s.port.value.deleting && s.port.value.vifs == {}
    case PortFinalize => s.kh.Rest? && s.port.Some? && s.port.value.deleting
    case PortStep(v, ok, last) =>
      match s.kh {
        case Rest => false
        case Request => v !in s.requested
        case More(_) => v !in s.requested
        case Return(todo) => v in todo || todo == {}
        case Release(_, todo) => v in todo || todo == {}
        case _ => true
      }
  }

  /** What the next call of the pod handler does; one that fails ends the handling of the event. */
  function PodStepOf(s: State): State
    requires !s.ph.Idle?
  {
    match s.ph
    case AddFinalizer(uid) =>
      if s.pod.Some? && (!s.pod.value.deleting || s.pod.value.finalizer) then
        s.(pod := Some(s.pod.value.(finalizer := true)), ph := GetPort(uid))
      else s.(ph := Idle)
    case GetPort(uid) => s.(ph := if s.port.Some? then Idle else CreatePort(uid))
    case CreatePort(uid) =>
      if s.port.Some? then s.(ph := Idle)
      else s.(port := Some(KuryrPort(s.ids, uid, false, {})), ids := s.ids + 1, ph := Idle)
    case FinalGet =>
      s.(ph := if s.port.None? then Drop else if s.port.value.deleting then Annotate else DeletePort)
    case Annotate => s.(ph := if s.port.None? then Drop else Idle)
    case DeletePort =>
      if s.port.None? then s.(ph := Drop) else s.(port := Some(s.port.value.(deleting := true)), ph := Idle)
    case Drop => s.(pod := WithoutFinalizer(s.pod), ph := Idle)
  }

  /** The finalizer taken from the KuryrPort: it is gone. */
  function PortGone(s: State, orphan: bool): State {
    if s.port.Some? then s.(port := None, kh := Rest, gone := s.gone + [(s.port.value, orphan)]) else s.(kh := Rest)
  }

  /** `ok` tells whether the call succeeds; `last`, whether there is no additional VIF to ask for. */
  function PortStepOf(s: State, v: Vif, ok: bool, last: bool): State
    requires !s.kh.Rest?
  {
    match s.kh
    case DeleteOrphan =>
      if ok && s.port.Some? then s.(port := Some(s.port.value.(deleting := true)), kh := Rest) else s.(kh := Rest)
    case Request =>
      if ok then s.(requested := s.requested + {v}, kh := More({v})) else s.(kh := Rest)
    case More(mine) =>
      if last then s.(kh := Record(mine))
      else if ok then s.(requested := s.requested + {v}, kh := More(mine + {v}))
      else s.(abandoned := s.abandoned + mine, kh := Rest)
    case Record(mine) =>
      if ok && s.port.Some? then s.(port := Some(s.port.value.(vifs := mine)), kh := Rest) else s.(kh := Return(mine))
    case Return(todo) =>
      if todo == {} then s.(kh := Rest)
      else if ok then s.(released := s.released + {v}, kh := Return(todo - {v}))
      else s.(lost := s.lost + todo, kh := Rest)
    case Release(orphan, todo) =>
      if todo == {} then s.(kh := DropPod(orphan))
      else if ok then s.(released := s.released + {v}, kh := Release(orphan, todo - {v}))
      else if orphan then s.(failed := s.failed + {v}, kh := Release(orphan, todo - {v}))
      else s.(kh := Rest)
    case DropPod(orphan) =>
      if !ok then s.(kh := Rest)
      else s.(pod := if orphan then s.pod else WithoutFinalizer(s.pod), kh := DropPort(orphan))
    case DropPort(orphan) => if ok then PortGone(s, orphan) else s.(kh := Rest)
  }

  ghost function Apply(s: State, step: Step): State
    requires Enabled(s, step)
  {
    match step
    case CreatePod => s.(pod := Some(Pod(s.uids, false, false, false)), uids := s.uids + 1)
    case CompletePod => s.(pod := Some(s.pod.value.(completed := true)))
    case DeletePod => s.(pod := if s.pod.value.finalizer then Some(s.pod.value.(deleting := true)) else None)
    case ForcePod => s.(pod := None)
    case DeletePortByHand => s.(port := Some(s.port.value.(deleting := true)))
    case Crash => s.(ph := Idle, kh := Rest, lost := s.lost + InHand(s))
    case PodPresent => s.(ph := AddFinalizer(s.pod.value.uid))
    case PodFinalize => s.(ph := FinalGet)
    case PodStep(ok) => if ok then PodStepOf(s) else s.(ph := Idle)
    case PortPresent => s.(kh := if SamePod(s) then Request else DeleteOrphan)
    case PortFinalize =>
      if PodRuns(s) then s
      else if !SamePod(s) && s.port.value.vifs == {} then s.(kh := DropPort(true))
      else s.(kh := Release(!SamePod(s), s.port.value.vifs))
    case PortStep(v, ok, last) => PortStepOf(s, v, ok, last)
  }

  /** VIFs the handler has and no object names. */
  function InHand(s: State): set<Vif> {
    match s.kh
    case More(vifs) => vifs
    case Record(vifs) => vifs
    case Return(vifs) => vifs
    case _ => {}
  }

  function Init(): State {
    State(None, None, Idle, Rest, 0, 0, {}, {}, {}, {}, {}, [])
  }

  ghost predicate Run(states: seq<State>, steps: seq<Step>) {
    && |states| == |steps| + 1 && states[0] == Init()
    && forall i :: 0 <= i < |steps| ==> Enabled(states[i], steps[i]) && states[i + 1] == Apply(states[i], steps[i])
  }

  // ---- invariants ----

  /** Uids are fresh; a KuryrPort is of a pod that was. */
  ghost predicate Fresh(s: State) {
    && (s.pod.Some? ==> s.pod.value.uid < s.uids) && (s.port.Some? ==> s.port.value.podUid < s.uids)
    && (s.ph.AddFinalizer? || s.ph.GetPort? || s.ph.CreatePort? ==> s.ph.uid < s.uids)
  }

  /** The pod handler takes the finalizer away only from a pod without a KuryrPort. */
  ghost predicate DropsAlone(s: State) {
    s.ph.Drop? ==> s.port.None?
  }

  /** What the KuryrPort handler is about, while it is about it. */
  ghost predicate HandlerKnows(s: State) {
    match s.kh
    case Release(orphan, todo) =>
      && s.port.Some? && !PodRuns(s) && (orphan ==> !SamePod(s)) && todo <= s.port.value.vifs
      && Handled(s, orphan, s.port.value.vifs - todo)
    case DropPod(orphan) =>
      s.port.Some? && !PodRuns(s) && (orphan ==> !SamePod(s)) && Handled(s, orphan, s.port.value.vifs)
    case DropPort(orphan) =>
      s.port.Some? && !PodRuns(s) && (orphan ==> !SamePod(s)) && Handled(s, orphan, s.port.value.vifs)
    case Request => s.port.Some? && s.port.value.vifs == {}
    case More(vifs) => s.port.Some? && s.port.value.vifs == {} && vifs != {}
    case Record(_) => s.port.Some? && s.port.value.vifs == {}
    case _ => true
  }

  /** Released, or tried and failed for an orphan. */
  ghost predicate Handled(s: State, orphan: bool, vifs: set<Vif>) {
    vifs <= if orphan then s.released + s.failed else s.released
  }

  ghost predicate GoneInOrder(s: State) {
    forall i :: 0 <= i < |s.gone| ==> Handled(s, s.gone[i].1, s.gone[i].0.vifs)
  }

  /** Every VIF ever requested is named by the KuryrPort, in the handler's hands, released, or lost
      to a failed release, a stop or a failed additional request. */
  ghost predicate NoneForgotten(s: State) {
    s.requested <= (if s.port.Some? then s.port.value.vifs else {}) +
                   InHand(s) + s.released + s.failed + s.lost + s.abandoned
  }

  ghost predicate Safe(s: State) {
    Fresh(s) && DropsAlone(s) && HandlerKnows(s) && GoneInOrder(s) && NoneForgotten(s)
  }

  lemma {:induction false} StepKeepsFresh(s: State, step: Step)
    requires Fresh(s) && Enabled(s, step)
    ensures Fresh(Apply(s, step))
  { }

  lemma {:induction false} StepKeepsDropsAlone(s: State, step: Step)
    requires DropsAlone(s) && Enabled(s, step)
    ensures DropsAlone(Apply(s, step))
  { }

  lemma {:induction false} StepKeepsKnown(s: State, step: Step)
    requires Fresh(s) && HandlerKnows(s) && Enabled(s, step)
    ensures HandlerKnows(Apply(s, step))
  {
    if step.PortStep? && s.kh.Release? && s.kh.todo != {} {
      assert s.port.value.vifs - (s.kh.todo - {step.v}) == (s.port.value.vifs - s.kh.todo) + {step.v};
    }
  }

  lemma {:induction false} StepKeepsGone(s: State, step: Step)
    requires HandlerKnows(s) && GoneInOrder(s) && Enabled(s, step)
    ensures GoneInOrder(Apply(s, step))
  {
    var s' := Apply(s, step);
    forall i | 0 <= i < |s'.gone| ensures Handled(s', s'.gone[i].1, s'.gone[i].0.vifs) {
      if i < |s.gone| { assert s'.gone[i] == s.gone[i]; }
    }
  }

  lemma {:induction false} StepForgetsNone(s: State, step: Step)
    requires HandlerKnows(s) && NoneForgotten(s) && Enabled(s, step)
    ensures NoneForgotten(Apply(s, step))
  { }

  lemma {:induction false} StepIsSafe(s: State, step: Step)
    requires Safe(s) && Enabled(s, step)
    ensures Safe(Apply(s, step))
  {
    StepKeepsFresh(s, step);
    StepKeepsDropsAlone(s, step);
    StepKeepsKnown(s, step);
    StepKeepsGone(s, step);
    StepForgetsNone(s, step);
  }

  lemma {:induction false} RunIsSafe(states: seq<State>, steps: seq<Step>, n: nat)
    requires Run(states, steps) && n <= |steps|
    ensures Safe(states[n])
  {
    if n > 0 {
      RunIsSafe(states, steps, n - 1);
      StepIsSafe(states[n - 1], steps[n - 1]);
    }
  }

  // ---- what follows for every run ----

  /** A KuryrPort disappears only after each VIF it named was released, or for an orphan after its
      release was tried. */
  lemma {:induction false} GoneAfterRelease(states: seq<State>, steps: seq<Step>, n: nat)
    requires Run(states, steps) && n < |steps| && states[n].port.Some? && states[n + 1].port != states[n].port
    ensures var kp, s' := states[n].port.value, states[n + 1];
            if s'.port.Some? then
              s'.port.value.id == kp.id && s'.port.value.podUid == kp.podUid &&
              (kp.vifs == {} || s'.port.value.vifs == kp.vifs)
            else
              && !PodRuns(states[n])
              && kp.vifs <= s'.released + s'.failed
              && (SamePod(states[n]) ==> kp.vifs <= s'.released)
  {
    RunIsSafe(states, steps, n);
    StepOnPort(states[n], steps[n]);
  }

  lemma {:induction false} StepOnPort(s: State, step: Step)
    requires HandlerKnows(s) && Enabled(s, step) && s.port.Some?
    ensures var kp, s' := s.port.value, Apply(s, step);
            if s'.port.Some? then
              s'.port.value.id == kp.id && s'.port.value.podUid == kp.podUid &&
              (kp.vifs == {} || s'.port.value.vifs == kp.vifs)
            else s.kh.DropPort? && s'.released == s.released && s'.failed == s.failed
  { }

  /** Finalization releases nothing of a pod that runs. */
  lemma {:induction false} NothingReleasedWhilePodRuns(states: seq<State>, steps: seq<Step>, n: nat)
    requires Run(states, steps) && n < |steps| && PodRuns(states[n])
    ensures states[n + 1].released == states[n].released || states[n].kh.Return?
    ensures states[n + 1].failed == states[n].failed && states[n + 1].gone == states[n].gone
  {
    RunIsSafe(states, steps, n);
  }

  /** The pod handler takes the pod's finalizer away only when there is no KuryrPort. */
  lemma {:induction false} PodDroppedWithoutPort(states: seq<State>, steps: seq<Step>, n: nat)
    requires Run(states, steps) && n < |steps| && steps[n].PodStep?
    requires states[n].pod.Some? && states[n].pod.value.finalizer
    requires states[n + 1].pod.Some? ==> !states[n + 1].pod.value.finalizer
    ensures states[n].port.None?
  {
    RunIsSafe(states, steps, n);
  }

  // ---- what the handlers do to the pod ----

  /** The KuryrPort handler has been at work since it began to finalize at `i`. */
  ghost predicate Finalizing(states: seq<State>, steps: seq<Step>, i: nat, n: nat)
    requires Run(states, steps) && n <= |steps|
  {
    i < n && steps[i].PortFinalize? && forall m :: i < m <= n ==> !states[m].kh.Rest?
  }

  /** While it finalizes, it knows whether the pod of the KuryrPort's uid was there when it began. */
  lemma {:induction false} OrphanFromTheStart(states: seq<State>, steps: seq<Step>, i: nat, n: nat)
    requires Run(states, steps) && n <= |steps| && Finalizing(states, steps, i, n)
    ensures match states[n].kh
            case Release(orphan, _) => orphan <==> !SamePod(states[i])
            case DropPod(orphan) => orphan <==> !SamePod(states[i])
            case DropPort(orphan) => orphan <==> !SamePod(states[i])
            case _ => false
  {
    if n > i + 1 { OrphanFromTheStart(states, steps, i, n - 1); }
  }

  /** What finalization does to the stored pod. One that began without the pod of the KuryrPort's uid
      leaves it alone. Any other leaves it alone until all VIFs are released, and then takes its
      finalizer, a pod of the KuryrPort's uid being deleted or completed by then. */
  lemma {:induction false} FinalizationOnPod(states: seq<State>, steps: seq<Step>, i: nat, n: nat)
    requires Run(states, steps) && n < |steps| && Finalizing(states, steps, i, n) && steps[n].PortStep?
    ensures var s, s' := states[n], states[n + 1];
            if SamePod(states[i]) && s.kh.DropPod? && s'.kh.DropPort? then
              && (s'.pod.Some? ==>
                 !s'.pod.value.finalizer && s.pod == Some(s'.pod.value.(finalizer := s.pod.value.finalizer)))
              && (s'.pod.None? ==> s.pod.None? || s.pod.value.deleting)
              && s.port.Some? && s.port.value.vifs <= s.released
              && (s.pod.Some? && s.pod.value.uid == s.port.value.podUid ==>
                 s.pod.value.deleting || s.pod.value.completed)
            else s'.pod == s.pod
  {
    OrphanFromTheStart(states, steps, i, n);
    RunIsSafe(states, steps, n);
  }

  /** And the KuryrPort handler does nothing else to a pod. */
  lemma {:induction false} OnlyFinalizationTouchesPods(states: seq<State>, steps: seq<Step>, n: nat)
    returns (i: nat)
    requires Run(states, steps) && n < |steps| && states[n + 1].pod != states[n].pod
    requires steps[n].PortPresent? || steps[n].PortFinalize? || steps[n].PortStep?
    ensures Finalizing(states, steps, i, n) && SamePod(states[i]) && states[n].kh.DropPod?
  {
    i := Began(states, steps, n);
    OrphanFromTheStart(states, steps, i, n);
  }

  lemma {:induction false} Began(states: seq<State>, steps: seq<Step>, n: nat) returns (i: nat)
    requires Run(states, steps) && n <= |steps|
    requires states[n].kh.Release? || states[n].kh.DropPod? || states[n].kh.DropPort?
    ensures Finalizing(states, steps, i, n)
  {
    assert n > 0;
    if steps[n - 1].PortFinalize? && states[n - 1].kh.Rest? {
      i := n - 1;
    } else {
      i := Began(states, steps, n - 1);
    }
  }

  /** The KuryrPort handler has been at work on its VIFs since it was told of it at `i`. */
  ghost predicate Serving(states: seq<State>, steps: seq<Step>, i: nat, n: nat)
    requires Run(states, steps) && n <= |steps|
  {
    i < n && steps[i].PortPresent? && forall m :: i < m <= n ==> !states[m].kh.Rest?
  }

  /** VIFs are requested only in a handling that began with the pod of the KuryrPort's uid there, and for
      a KuryrPort that names none. */
  lemma {:induction false} RequestedForItsPod(states: seq<State>, steps: seq<Step>, n: nat) returns (i: nat)
    requires Run(states, steps) && n <= |steps| && (states[n].kh.Request? || states[n].kh.More? || states[n].kh.Record?)
    ensures Serving(states, steps, i, n) && SamePod(states[i]) && states[i].port.value.vifs == {}
  {
    assert n > 0;
    if steps[n - 1].PortPresent? && states[n - 1].kh.Rest? {
      i := n - 1;
    } else {
      i := RequestedForItsPod(states, steps, n - 1);
    }
  }

  /** The pod handler has been at work since it was told of the pod at `i`. */
  ghost predicate Presenting(states: seq<State>, steps: seq<Step>, i: nat, n: nat)
    requires Run(states, steps) && n <= |steps|
  {
    i < n && steps[i].PodPresent? && forall m :: i < m <= n ==> !states[m].ph.Idle?
  }

  /** A KuryrPort is made for the pod the handler was told of, without VIFs, and only after the pod stored
      under that name had got the finalizer. */
  lemma {:induction false} MadeForItsPod(states: seq<State>, steps: seq<Step>, n: nat) returns (i: nat, m: nat)
    requires Run(states, steps) && n < |steps| && states[n].port.None? && states[n + 1].port.Some?
    ensures Presenting(states, steps, i, n) && i < m <= n
    ensures var kp := states[n + 1].port.value; Some(kp.podUid) == Uid(states[i].pod) && kp.vifs == {} && !kp.deleting
    ensures states[m].pod.Some? && states[m].pod.value.finalizer
  {
    i, m := Presented(states, steps, n);
  }

  function Uid(pod: Option<Pod>): Option<nat> {
    if pod.Some? then Some(pod.value.uid) else None
  }

  lemma {:induction false} Presented(states: seq<State>, steps: seq<Step>, n: nat) returns (i: nat, m: nat)
    requires Run(states, steps) && n <= |steps|
    requires states[n].ph.AddFinalizer? || states[n].ph.GetPort? || states[n].ph.CreatePort?
    ensures Presenting(states, steps, i, n) && Some(states[n].ph.uid) == Uid(states[i].pod)
    ensures !states[n].ph.AddFinalizer? ==> i < m <= n && states[m].pod.Some? && states[m].pod.value.finalizer
  {
    assert n > 0;
    if steps[n - 1].PodPresent? {
      i, m := n - 1, n;
    } else {
      i, m := Presented(states, steps, n - 1);
      if states[n - 1].ph.AddFinalizer? { m := n; }
    }
  }

  /** No VIF is forgotten: unless its release failed, the controller stopped or an additional request
      raised, it is named by the KuryrPort, on its way there or back, or released. */
  lemma {:induction false} NoVifIsForgotten(states: seq<State>, steps: seq<Step>, n: nat, v: Vif)
    requires Run(states, steps) && n <= |steps| && v in states[n].requested
    requires v !in states[n].failed && v !in states[n].lost && v !in states[n].abandoned
    ensures v in states[n].released || v in InHand(states[n]) ||
            (states[n].port.Some? && v in states[n].port.value.vifs)
  {
    RunIsSafe(states, steps, n);
  }

  /** In step `i` a request for an additional VIF raises with `v` in hand. */
  ghost predicate RaisesWith(states: seq<State>, steps: seq<Step>, i: nat, v: Vif)
    requires Run(states, steps) && i < |steps|
  {
    states[i].kh.More? && v in states[i].kh.vifs && steps[i].PortStep? && !steps[i].ok && !steps[i].last
  }

  /** A VIF is abandoned if and only if a later request of the same call raised. */
  lemma {:induction false} AbandonedExactly(states: seq<State>, steps: seq<Step>, n: nat, v: Vif)
    requires Run(states, steps) && n <= |steps|
    ensures v in states[n].abandoned <==> exists i :: 0 <= i < n && RaisesWith(states, steps, i, v)
  {
    if n > 0 {
      AbandonedExactly(states, steps, n - 1, v);
      assert v in states[n].abandoned <==> v in states[n - 1].abandoned || RaisesWith(states, steps, n - 1, v);
    }
  }

  /** An abandoned VIF is named by no KuryrPort, in nobody's hands and not released. */
  ghost predicate AbandonedAlone(s: State) {
    && s.abandoned !! s.released && s.abandoned !! InHand(s) && (s.port.Some? ==> s.abandoned !! s.port.value.vifs)
    && s.abandoned <= s.requested && InHand(s) <= s.requested && (s.port.Some? ==> s.port.value.vifs <= s.requested)
    && s.released <= s.requested && InHand(s) !! s.released
    && (s.port.Some? && s.kh.Release? ==> s.kh.todo <= s.port.value.vifs)
  }

  lemma {:induction false} StepKeepsAlone(s: State, step: Step)
    requires HandlerKnows(s) && AbandonedAlone(s) && Enabled(s, step)
    ensures AbandonedAlone(Apply(s, step))
  { }

  lemma {:induction false} AbandonedForGood(states: seq<State>, steps: seq<Step>, n: nat)
    requires Run(states, steps) && n <= |steps|
    ensures AbandonedAlone(states[n])
  {
    if n > 0 {
      AbandonedForGood(states, steps, n - 1);
      RunIsSafe(states, steps, n - 1);
      StepKeepsAlone(states[n - 1], steps[n - 1]);
    }
  }

  /** A requested VIF, its release not failed and the controller not stopped with it, is kept (named,
      in hand or released) if and only if no additional request raised after it in the same call. */
  lemma {:induction false} KeptExactly(states: seq<State>, steps: seq<Step>, n: nat, v: Vif)
    requires Run(states, steps) && n <= |steps| && v in states[n].requested && v !in states[n].failed &&
             v !in states[n].lost
    ensures (v in states[n].released || v in InHand(states[n]) ||
            (states[n].port.Some? && v in states[n].port.value.vifs)) <==>
            !exists i :: 0 <= i < n && RaisesWith(states, steps, i, v)
  {
    AbandonedExactly(states, steps, n, v);
    AbandonedForGood(states, steps, n);
    if v !in states[n].abandoned { NoVifIsForgotten(states, steps, n, v); }
  }

  // ---- a run that abandons a VIF ----

  ghost function Script(): seq<Step> {
    [CreatePod, PodPresent, PodStep(true), PodStep(true), PodStep(true),
     PortPresent, PortStep(0, true, false), PortStep(1, false, false)]
  }

  ghost function Moment(i: nat): State
    requires i <= 8
  {
    State(if i == 0 then None else Some(Pod(0, false, false, i >= 3)),
          if i < 5 then None else Some(KuryrPort(0, 0, false, {})),
          if i == 2 then AddFinalizer(0) else if i == 3 then GetPort(0) else if i == 4 then CreatePort(0) else Idle,
          if i == 6 then Request else if i == 7 then More({0}) else Rest,
          if i == 0 then 0 else 1, if i < 5 then 0 else 1,
          if i < 7 then {} else {0}, {}, {}, {}, if i < 8 then {} else {0}, [])
  }

  ghost predicate Follows(s: State, step: Step, s': State) {
    Enabled(s, step) && Apply(s, step) == s'
  }

  lemma {:induction false} MomentOfPod(i: nat)
    requires i < 5
    ensures Follows(Moment(i), Script()[i], Moment(i + 1))
  { }

  lemma {:induction false} MomentOfPort(i: nat)
    requires 5 <= i < 8
    ensures Follows(Moment(i), Script()[i], Moment(i + 1))
  { }

  /** The pod runs, its KuryrPort names no VIF, and the VIF that was granted is in no place at all. */
  lemma {:induction false} AbandoningRun() returns (states: seq<State>, steps: seq<Step>)
    ensures Run(states, steps) && PodRuns(states[|steps|]) && states[|steps|].port.value.vifs == {}
    ensures states[|steps|].requested == {0} == states[|steps|].abandoned && states[|steps|].kh.Rest?
  {
    steps := Script();
    states := seq(9, i requires 0 <= i < 9 => Moment(i));
    forall i | 0 <= i < 8 ensures Follows(states[i], steps[i], states[i + 1]) {
      if i < 5 { MomentOfPod(i); } else { MomentOfPort(i); }
    }
  }
}
