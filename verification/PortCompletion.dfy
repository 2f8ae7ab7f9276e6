/** What the handlers get done when no call fails and nobody interferes: a new pod gets its KuryrPort and
    its VIFs, and a deleted one loses both. */
module PortCompletion {
  import opened Basics
  import opened PortLifecycle

  /** A step of a handler, its call succeeding. */
  predicate Works(step: Step) {
    match step
    case PodPresent => true
    case PodFinalize => true
    case PodStep(ok) => ok
    case PortPresent => true
    case PortFinalize => true
    case PortStep(_, ok, _) => ok
    case _ => false
  }

  /** Steps of the handlers lead from `s` to `s'`. */
  ghost predicate Leads(s: State, s': State) {
    exists states, steps :: Path(states, steps) && states[0] == s && states[|steps|] == s'
  }

  ghost predicate Path(states: seq<State>, steps: seq<Step>) {
    && |states| == |steps| + 1
    && forall i :: 0 <= i < |steps| ==> Works(steps[i]) && Follows(states[i], steps[i], states[i + 1])
  }

  lemma {:induction false} Stay(s: State)
    ensures Leads(s, s)
  {
    assert Path([s], []) && [s][0] == s;
  }

  lemma {:induction false} Go(s: State, s1: State, step: Step, s2: State)
    requires Leads(s, s1) && Works(step) && Follows(s1, step, s2)
    ensures Leads(s, s2)
  {
    var states, steps :| Path(states, steps) && states[0] == s && states[|steps|] == s1;
    var states', steps' := states + [s2], steps + [step];
    forall i | 0 <= i < |steps'| ensures Works(steps'[i]) && Follows(states'[i], steps'[i], states'[i + 1]) {
      if i < |steps| { assert Follows(states[i], steps[i], states[i + 1]); }
    }
    assert Path(states', steps') && states'[0] == s && states'[|steps'|] == s2;
  }

  ghost predicate AtRest(s: State) {
    s.ph.Idle? && s.kh.Rest?
  }

  // ---- a new pod ----

  lemma {:induction false} MakePort(s: State) returns (s': State)
    requires AtRest(s) && s.pod.Some? && !s.pod.value.deleting && !s.pod.value.completed && s.port.None?
    ensures Leads(s, s') && AtRest(s')
    ensures s' == s.(pod := Some(s.pod.value.(finalizer := true)), ids := s.ids + 1,
                     port := Some(KuryrPort(s.ids, s.pod.value.uid, false, {})))
  {
    Stay(s);
    var uid, pod := s.pod.value.uid, Some(s.pod.value.(finalizer := true));
    Go(s, s, PodPresent, s.(ph := AddFinalizer(uid)));
    Go(s, s.(ph := AddFinalizer(uid)), PodStep(true), s.(pod := pod, ph := GetPort(uid)));
    Go(s, s.(pod := pod, ph := GetPort(uid)), PodStep(true), s.(pod := pod, ph := CreatePort(uid)));
    s' := s.(pod := pod, ids := s.ids + 1, port := Some(KuryrPort(s.ids, uid, false, {})));
    Go(s, s.(pod := pod, ph := CreatePort(uid)), PodStep(true), s');
  }

  /** The KuryrPort of a running pod gets any VIFs that the drivers grant. */
  lemma {:induction false} FillPort(s0: State, s: State, vifs: set<Vif>) returns (s': State)
    requires Leads(s0, s) && AtRest(s) && SamePod(s) && !s.port.value.deleting && s.port.value.vifs == {}
    requires vifs != {} && vifs !! s.requested
    ensures Leads(s0, s') && AtRest(s')
    ensures s' == s.(port := Some(s.port.value.(vifs := vifs)), requested := s.requested + vifs)
  {
    Go(s0, s, PortPresent, s.(kh := Request));
    var v :| v in vifs;
    var s1 := s.(kh := More({v}), requested := s.requested + {v});
    Go(s0, s.(kh := Request), PortStep(v, true, false), s1);
    var s2 := AskForMore(s0, s1, vifs - {v});
    assert {v} + (vifs - {v}) == vifs && s.requested + {v} + (vifs - {v}) == s.requested + vifs;
    var v' := NewVif(s2.requested);
    var s3 := s2.(kh := Record(vifs));
    Go(s0, s2, PortStep(v', true, true), s3);
    s' := s.(port := Some(s.port.value.(vifs := vifs)), requested := s.requested + vifs);
    Go(s0, s3, PortStep(v', true, true), s');
  }

  lemma {:induction false} NewVif(vifs: set<Vif>) returns (v: Vif)
    ensures forall x :: x in vifs ==> x < v
  {
    if vifs == {} {
      v := 0;
    } else {
      var x :| x in vifs;
      var w := NewVif(vifs - {x});
      v := if w <= x then x + 1 else w;
      forall y | y in vifs ensures y < v { if y != x { assert y in vifs - {x}; } }
    }
  }

  lemma {:induction false} AskForMore(s0: State, s: State, more: set<Vif>) returns (s': State)
    requires Leads(s0, s) && s.kh.More? && more !! s.requested
    ensures Leads(s0, s') && s' == s.(kh := More(s.kh.vifs + more), requested := s.requested + more)
    decreases more
  {
    if more == {} {
      s' := s;
      assert s.kh.vifs + more == s.kh.vifs && s.requested + more == s.requested;
    } else {
      var v :| v in more;
      var s1 := s.(kh := More(s.kh.vifs + {v}), requested := s.requested + {v});
      Go(s0, s, PortStep(v, true, false), s1);
      s' := AskForMore(s0, s1, more - {v});
      assert s.kh.vifs + {v} + (more - {v}) == s.kh.vifs + more &&
             s.requested + {v} + (more - {v}) == s.requested + more;
    }
  }

  /** From a running pod without a KuryrPort the handlers get to one that keeps the pod by its finalizer,
      with a KuryrPort of its uid that names exactly the VIFs granted; nothing else has changed. */
  lemma {:induction false} NewPodIsServed(s: State, vifs: set<Vif>) returns (s': State)
    requires AtRest(s) && s.pod.Some? && !s.pod.value.deleting && !s.pod.value.completed && s.port.None?
    requires vifs != {} && vifs !! s.requested
    ensures Leads(s, s') && AtRest(s') && PodRuns(s') && s'.pod.value.finalizer && s'.pod.value.uid == s.pod.value.uid
    ensures s'.port.value.vifs == vifs && !s'.port.value.deleting && s'.requested == s.requested + vifs
    ensures s'.released == s.released && s'.failed == s.failed && s'.lost == s.lost && s'.abandoned == s.abandoned
  {
    s' := MakePort(s);
    s' := FillPort(s, s', vifs);
  }

  // ---- a deleted pod ----

  /** The KuryrPort is marked for deletion. */
  lemma {:induction false} MarkPort(s: State) returns (s': State)
    requires AtRest(s) && s.pod.Some? && s.pod.value.deleting && s.port.Some?
    ensures Leads(s, s') && AtRest(s') && s' == s.(port := Some(s.port.value.(deleting := true)))
  {
    Stay(s);
    Go(s, s, PodFinalize, s.(ph := FinalGet));
    var s1 := s.(ph := if s.port.value.deleting then Annotate else DeletePort);
    Go(s, s.(ph := FinalGet), PodStep(true), s1);
    s' := s.(port := Some(s.port.value.(deleting := true)));
    Go(s, s1, PodStep(true), s');
  }

  lemma {:induction false} ReleaseAll(s0: State, s: State) returns (s': State)
    requires Leads(s0, s) && s.kh.Release?
    ensures Leads(s0, s') && s' == s.(kh := DropPod(s.kh.orphan), released := s.released + s.kh.todo)
    decreases if s.kh.Release? then s.kh.todo else {}
  {
    var todo, orphan := s.kh.todo, s.kh.orphan;
    if todo == {} {
      s' := s.(kh := DropPod(orphan));
      Go(s0, s, PortStep(0, true, true), s');
      assert s.released + todo == s.released;
    } else {
      var v :| v in todo;
      var s1 := s.(kh := Release(orphan, todo - {v}), released := s.released + {v});
      Go(s0, s, PortStep(v, true, true), s1);
      s' := ReleaseAll(s0, s1);
      assert s.released + {v} + (todo - {v}) == s.released + todo;
    }
  }

  /** The KuryrPort is finalized: its VIFs are released, it is gone, and so is its own pod. */
  lemma {:induction false} FinalizePort(s0: State, s: State) returns (s': State)
    requires Leads(s0, s) && AtRest(s) && s.port.Some? && s.port.value.deleting
    requires SamePod(s) ==> s.pod.value.deleting
    ensures Leads(s0, s') && AtRest(s') && s'.port.None? && s'.released == s.released + s.port.value.vifs
    ensures s'.pod == if SamePod(s) then None else s.pod
    ensures s'.requested == s.requested && s'.failed == s.failed && s'.lost == s.lost && s'.abandoned == s.abandoned
  {
    var orphan, vifs := !SamePod(s), s.port.value.vifs;
    if orphan && vifs == {} {
      var s1 := s.(kh := DropPort(true));
      Go(s0, s, PortFinalize, s1);
      s' := PortGone(s1, true);
      Go(s0, s1, PortStep(0, true, true), s');
    } else {
      var s1 := s.(kh := Release(orphan, vifs));
      Go(s0, s, PortFinalize, s1);
      s1 := ReleaseAll(s0, s1);
      var s2 := s1.(pod := if orphan then s.pod else None, kh := DropPort(orphan));
      Go(s0, s1, PortStep(0, true, true), s2);
      s' := PortGone(s2, orphan);
      Go(s0, s2, PortStep(0, true, true), s');
    }
  }

  /** Without a KuryrPort the pod handler lets the pod go. */
  lemma {:induction false} DropThePod(s0: State, s: State) returns (s': State)
    requires Leads(s0, s) && AtRest(s) && s.pod.Some? && s.pod.value.deleting && s.port.None?
    ensures Leads(s0, s') && AtRest(s') && s' == s.(pod := None)
  {
    Go(s0, s, PodFinalize, s.(ph := FinalGet));
    Go(s0, s.(ph := FinalGet), PodStep(true), s.(ph := Drop));
    s' := s.(pod := None);
    Go(s0, s.(ph := Drop), PodStep(true), s');
  }

  /** When the KuryrPort is gone by the time the pod handler gets to it, the handler lets the pod go. */
  lemma {:induction false} GoneMeanwhile(s: State) returns (s': State)
    requires s.pod.Some? && s.pod.value.deleting && s.port.None?
    requires s.ph.FinalGet? || s.ph.Annotate? || s.ph.DeletePort? || s.ph.Drop?
    ensures Leads(s, s') && s' == s.(pod := None, ph := Idle)
  {
    Stay(s);
    var s1 := s.(ph := Drop);
    if !s.ph.Drop? { Go(s, s, PodStep(true), s1); }
    s' := s.(pod := None, ph := Idle);
    Go(s, s1, PodStep(true), s');
  }

  /** A KuryrPort without its pod is cleaned up when it has no VIFs yet or is deleted: it is gone, what
      it named is released, and a pod of another uid stays as it is. */
  lemma {:induction false} OrphanIsCleanedUp(s: State) returns (s': State)
    requires AtRest(s) && s.port.Some? && !SamePod(s) && (s.port.value.deleting || s.port.value.vifs == {})
    ensures Leads(s, s') && AtRest(s') && s'.port.None? && s'.pod == s.pod
    ensures s'.released == s.released + s.port.value.vifs && s'.requested == s.requested && s'.failed == s.failed
  {
    Stay(s);
    var s1 := s.(port := Some(s.port.value.(deleting := true)));
    if !s.port.value.deleting {
      Go(s, s, PortPresent, s.(kh := DeleteOrphan));
      Go(s, s.(kh := DeleteOrphan), PortStep(0, true, true), s1);
    }
    s' := FinalizePort(s, s1);
  }

  /** From any deleted pod, whatever KuryrPort is stored under its name, the handlers get to where pod
      and KuryrPort are gone and exactly the VIFs the KuryrPort named have been released. */
  lemma {:induction false} DeletedPodIsCleanedUp(s: State) returns (s': State)
    requires AtRest(s) && s.pod.Some? && s.pod.value.deleting
    ensures Leads(s, s') && AtRest(s') && s'.pod.None? && s'.port.None?
    ensures s'.released == s.released + if s.port.Some? then s.port.value.vifs else {}
    ensures s'.requested == s.requested && s'.failed == s.failed && s'.lost == s.lost && s'.abandoned == s.abandoned
  {
    Stay(s);
    s' := s;
    if s.port.Some? {
      s' := MarkPort(s);
      s' := FinalizePort(s, s');
    }
    if s'.pod.Some? { s' := DropThePod(s, s'); }
  }
}
