/** The CNI daemon's registry entry of one pod name, shared by the KuryrPort watcher, the pod
    watcher and the CNI ADD and DEL requests: every locked section is one step, and so is every
    read made without the lock. */
module CniRegistry {
  import opened Basics

  type Uid = nat
  type ContainerId = nat

  datatype Vif = Vif(active: bool, data: nat)
  type Vifs = map<string, Vif>

  datatype Slot =
    | Absent
    | Sentinel                // the pod went away without a KuryrPort
    | Entry(uid: Uid, vifs: Vifs, container: Option<ContainerId>, vifUnplugged: bool, delReceived: bool)

  /** Where a DEL request is; `seen` is the uid it has found in the registry. */
  datatype DelStage = Looked | Proceeding | Unplugged
  datatype Del = Del(container: ContainerId, stage: DelStage, seen: Option<Uid>)

  /** `deleting` is the DELETED event between its check and its lock, `dead` the uids the API will
      send no more events for, `had` those that had an entry. `deletedOn` and `unpluggedOn` are the
      uids on whose entry the DELETED event and a DEL have acted, `removed` the entries taken out. */
  datatype State = State(
    slot: Slot, deleting: Option<Uid>, current: Option<Uid>, dead: set<Uid>, dels: map<nat, Del>,
    had: set<Uid>, deletedOn: set<Uid>, unpluggedOn: set<Uid>, removed: seq<Uid>)

  datatype Step =
    | OnVif(uid: Uid, vifs: Vifs)                      // CNIKuryrPortHandler.on_vif
    | DeletedCheck(uid: Uid)                           // on_deleted, before the lock
    | DeletedAct                                       // on_deleted, under the lock
    | PodFinalize                                      // CNIPodHandler.on_finalize
    | AddSave(container: ContainerId)                  // add, under the lock
    | DelLook(d: nat, container: ContainerId)          // delete, the first locked section
    | DelRead(d: nat)                                  // delete, the container id check
    | DelWork(d: nat, ok: bool)                        // delete, unplugging
    | DelFinish(d: nat)                                // delete, the second locked section

  /** The API sends the events of a name in order: a uid gets no VIF update after its DELETED or
      after another uid's events, and one DELETED. A DEL is not overtaken by another uid. */
  ghost predicate Enabled(s: State, step: Step) {
    match step
    case OnVif(uid, _) =>
      s.deleting.None? && uid !in s.dead &&
      forall d :: d in s.dels ==> s.dels[d].seen.None? || s.dels[d].seen.value == uid
    case DeletedCheck(uid) => s.deleting.None? && s.current == Some(uid) && uid !in s.dead
    case DeletedAct => s.deleting.Some?
    case PodFinalize => true
    case AddSave(_) => true
    case DelLook(d, _) => d !in s.dels
    case DelRead(d) => d in s.dels && s.dels[d].stage == Looked
    case DelWork(d, ok) => d in s.dels && s.dels[d].stage == Proceeding && (ok ==> s.slot.Entry?)
    case DelFinish(d) => d in s.dels && s.dels[d].stage == Unplugged
  }

  /** `on_vif`. An entry of the same uid only takes the VIFs, and only when some VIF became active
      or inactive. */
  function Updated(slot: Slot, uid: Uid, vifs: Vifs): Slot {
    if !slot.Entry? || slot.uid != uid then Entry(uid, vifs, None, false, false)
    else if exists i :: i in vifs && i in slot.vifs && slot.vifs[i].active != vifs[i].active then slot.(vifs := vifs)
    else slot
  }

  /** The DELETED event on the entry: the second of it and DEL removes it. */
  function AfterDeleted(slot: Slot): Slot
    requires slot.Entry?
  {
    if slot.vifUnplugged then Absent else slot.(delReceived := true)
  }

  /** The end of DEL on the entry. */
  function AfterUnplug(slot: Slot): Slot
    requires slot.Entry?
  {
    if slot.delReceived then Absent else slot.(vifUnplugged := true)
  }

  function SeenNow(slot: Slot): Option<Uid> {
    if slot.Entry? then Some(slot.uid) else None
  }

  ghost function Apply(s: State, step: Step): State
    requires Enabled(s, step)
  {
    match step
    case OnVif(uid, vifs) =>
      s.(slot := Updated(s.slot, uid, vifs), current := Some(uid), had := s.had + {uid},
         dead := if s.current.Some? && s.current.value != uid then s.dead + {s.current.value} else s.dead)
    case DeletedCheck(uid) =>
      s.(dead := s.dead + {uid}, deleting := if s.slot.Entry? then Some(uid) else None)
    case DeletedAct =>
      if s.slot.Entry? then
        s.(slot := AfterDeleted(s.slot), deleting := None, deletedOn := s.deletedOn + {s.slot.uid},
           removed := s.removed + if s.slot.vifUnplugged then [s.slot.uid] else [])
      else s.(deleting := None)
    case PodFinalize => if s.slot.Absent? then s.(slot := Sentinel) else s
    case AddSave(container) => if s.slot.Entry? then s.(slot := s.slot.(container := Some(container))) else s
    case DelLook(d, container) =>
      match s.slot {
        case Absent => s.(dels := s.dels[d := Del(container, Proceeding, None)])
        case Sentinel => s.(slot := Absent)
        case Entry(uid, _, _, _, _) => s.(dels := s.dels[d := Del(container, Looked, Some(uid))])
      }
    case DelRead(d) =>
      var del := s.dels[d];
      if s.slot.Sentinel? || (s.slot.Entry? && s.slot.container.Some? && s.slot.container.value != del.container) then
        s.(dels := s.dels - {d})
      else s.(dels := s.dels[d := del.(stage := Proceeding, seen := SeenNow(s.slot))])
    case DelWork(d, ok) =>
      if ok then s.(dels := s.dels[d := s.dels[d].(stage := Unplugged, seen := SeenNow(s.slot))])
      else s.(dels := s.dels - {d})
    case DelFinish(d) =>
      if s.slot.Entry? then
        s.(slot := AfterUnplug(s.slot), dels := s.dels - {d}, unpluggedOn := s.unpluggedOn + {s.slot.uid},
           removed := s.removed + if s.slot.delReceived then [s.slot.uid] else [])
      else s.(dels := s.dels - {d})
  }

  function Init(): State {
    State(Absent, None, None, {}, map[], {}, {}, {}, [])
  }

  ghost predicate Run(states: seq<State>, steps: seq<Step>) {
    && |states| == |steps| + 1 && states[0] == Init()
    && forall i :: 0 <= i < |steps| ==> Enabled(states[i], steps[i]) && states[i + 1] == Apply(states[i], steps[i])
  }

  // ---- the invariant ----

  /** The stored flags say what has acted on the entry, and never both have. */
  ghost predicate FlagsTell(s: State) {
    s.slot.Entry? ==>
      && s.current == Some(s.slot.uid) && s.slot.uid in s.had
      && (s.slot.delReceived <==> s.slot.uid in s.deletedOn) && (s.slot.vifUnplugged <==> s.slot.uid in s.unpluggedOn)
      && !(s.slot.delReceived && s.slot.vifUnplugged)
  }

  /** A uid that had an entry is the latest or finished. */
  ghost predicate OneLife(s: State) {
    && (forall u :: u in s.had && s.current != Some(u) ==> u in s.dead)
    && (s.current.Some? ==> s.current.value in s.had)
    && (forall u :: u in s.deletedOn ==> u in s.dead && u in s.had)
    && (forall u :: u in s.unpluggedOn ==> u in s.had)
    && (s.deleting.Some? ==> s.current == s.deleting && s.deleting.value in s.dead && s.deleting.value !in s.deletedOn)
    && (s.current.Some? && s.current.value !in s.dead ==> s.slot.Entry?)
    && (s.deleting.Some? ==> s.slot.Entry?)
  }

  /** An entry is taken out when both have acted on it, and once. */
  ghost predicate RemovedOnce(s: State) {
    && (forall u :: u in s.removed <==> u in s.deletedOn && u in s.unpluggedOn)
    && (forall i, j :: 0 <= i < j < |s.removed| ==> s.removed[i] != s.removed[j])
  }

  /** A DEL that has found a uid will not act on the entry of another. */
  ghost predicate DelsSee(s: State) {
    forall d :: d in s.dels && s.dels[d].seen.Some? && s.slot.Entry? ==> s.dels[d].seen.value == s.slot.uid
  }

  ghost predicate Safe(s: State) {
    FlagsTell(s) && OneLife(s) && RemovedOnce(s) && DelsSee(s)
  }

  lemma {:induction false} AppendNew(removed: seq<Uid>, u: Uid)
    requires u !in removed && forall i, j :: 0 <= i < j < |removed| ==> removed[i] != removed[j]
    ensures forall i, j :: 0 <= i < j < |removed + [u]| ==> (removed + [u])[i] != (removed + [u])[j]
    ensures forall x :: x in removed + [u] <==> x in removed || x == u
  { }

  lemma {:induction false} StepIsSafe(s: State, step: Step)
    requires Safe(s) && Enabled(s, step)
    ensures Safe(Apply(s, step))
  {
    var s' := Apply(s, step);
    if (step.DeletedAct? || step.DelFinish?) && s.slot.Entry? {
      if s.slot.uid !in s.removed { AppendNew(s.removed, s.slot.uid); }
      assert s.removed + [] == s.removed;
    }
  }

  lemma {:induction false} RunIsSafe(states: seq<State>, steps: seq<Step>, n: nat)
    requires Run(states, steps) && n <= |steps|
    ensures Safe(states[n])
  {
    if n > 0 {
      RunIsSafe(states, steps, n - 1);
      StepIsSafe(states[n - 1], steps[n - 1]);
    }
  }

  // ---- what follows for every run ----

  lemma {:induction false} NeverBothFlags(states: seq<State>, steps: seq<Step>, n: nat)
    requires Run(states, steps) && n <= |steps| && states[n].slot.Entry?
    ensures !(states[n].slot.vifUnplugged && states[n].slot.delReceived)
  {
    RunIsSafe(states, steps, n);
  }

  /** The entry of a uid has been taken out once if the DELETED event and a DEL have both acted on
      it, and otherwise not at all. */
  lemma {:induction false} RemovedBySecond(states: seq<State>, steps: seq<Step>, n: nat, u: Uid)
    requires Run(states, steps) && n <= |steps|
    ensures multiset(states[n].removed)[u] == if u in states[n].deletedOn && u in states[n].unpluggedOn then 1 else 0
    ensures u in states[n].removed ==> !(states[n].slot.Entry? && states[n].slot.uid == u)
  {
    RunIsSafe(states, steps, n);
    CountOnce(states[n].removed, u);
  }

  lemma {:induction false} CountOnce(s: seq<Uid>, u: Uid)
    requires forall i, j :: 0 <= i < j < |s| ==> s[i] != s[j]
    ensures multiset(s)[u] == if u in s then 1 else 0
  {
    if s != [] {
      var rest, last := s[..|s| - 1], s[|s| - 1];
      assert s == rest + [last];
      CountOnce(rest, u);
      assert last !in rest;
    }
  }

  /** The DELETED event finds the entry it checked for, whatever ran in between. */
  lemma {:induction false} DeletedFindsItsEntry(states: seq<State>, steps: seq<Step>, n: nat)
    requires Run(states, steps) && n < |steps| && steps[n].DeletedAct?
    ensures states[n].slot.Entry? && Some(states[n].slot.uid) == states[n].deleting
  {
    RunIsSafe(states, steps, n);
  }

  /** A DEL marks or removes the entry of the uid it unplugged. */
  lemma {:induction false} DelFinishesWhatItUnplugged(states: seq<State>, steps: seq<Step>, n: nat)
    requires Run(states, steps) && n < |steps| && steps[n].DelFinish? && states[n].slot.Entry?
    requires states[n].dels[steps[n].d].seen.Some?
    ensures states[n].slot.uid == states[n].dels[steps[n].d].seen.value
    ensures states[n + 1].removed == states[n].removed +
            if states[n].slot.uid in states[n].deletedOn then [states[n].slot.uid] else []
  {
    RunIsSafe(states, steps, n);
  }

  /** Updates of the same uid keep the container and what has acted on the entry. */
  lemma {:induction false} SameUidKeepsFlags(states: seq<State>, steps: seq<Step>, n: nat)
    requires Run(states, steps) && n < |steps| && steps[n].OnVif? && states[n].slot.Entry?
    ensures var before, after := states[n].slot, states[n + 1].slot;
            && after.Entry? && after.uid == steps[n].uid
            && (before.uid == steps[n].uid ==> after == before.(vifs := after.vifs))
            && (before.uid != steps[n].uid ==>
               before.uid in states[n + 1].dead && after.container.None? && !after.vifUnplugged && !after.delReceived)
  {
    RunIsSafe(states, steps, n);
  }

  /** Step `i` starts a new request `d`. */
  ghost predicate Starts(step: Step, d: nat) {
    step.DelLook? && step.d == d
  }

  /** A DEL ends at its check exactly when another container is recorded; it has then changed nothing,
      and until a new request starts there is no step of it that could. */
  lemma {:induction false} ForeignDelChangesNothing(states: seq<State>, steps: seq<Step>, n: nat, j: nat)
    requires Run(states, steps) && n < j <= |steps| && steps[n].DelRead? && states[n].slot.Entry?
    requires forall i :: n < i < j ==> !Starts(steps[i], steps[n].d)
    ensures var del, slot := states[n].dels[steps[n].d], states[n].slot;
            && states[n + 1].slot == slot && states[n + 1].removed == states[n].removed
            && (steps[n].d !in states[n + 1].dels <==> slot.container.Some? && slot.container.value != del.container)
            && (steps[n].d !in states[n + 1].dels ==> NoStepOf(states[j], steps[n].d))
  {
    if steps[n].d !in states[n + 1].dels { StaysOver(states, steps, n + 1, j, steps[n].d); }
  }

  ghost predicate NoStepOf(s: State, d: nat) {
    !Enabled(s, DelRead(d)) && !Enabled(s, DelWork(d, true)) && !Enabled(s, DelWork(d, false)) &&
      !Enabled(s, DelFinish(d))
  }

  lemma {:induction false} StaysOver(states: seq<State>, steps: seq<Step>, m: nat, j: nat, d: nat)
    requires Run(states, steps) && m <= j <= |steps| && d !in states[m].dels
    requires forall i :: m <= i < j ==> !Starts(steps[i], d)
    ensures d !in states[j].dels
  {
    if m < j {
      StaysOver(states, steps, m, j - 1, d);
      assert !Starts(steps[j - 1], d);
    }
  }

  // ---- what the entry holds ----

  /** On the interfaces both have, the entry shows the activity of these VIFs. */
  ghost predicate ShowsActivity(slot: Slot, vifs: Vifs)
    requires slot.Entry?
  {
    forall f :: f in vifs && f in slot.vifs ==> slot.vifs[f].active == vifs[f].active
  }

  /** An ADD that waits for active VIFs sees what the last update said, and a new uid brings its own VIFs. */
  lemma {:induction false} ActivityIsCurrent(states: seq<State>, steps: seq<Step>, i: nat, n: nat)
    requires Run(states, steps) && i < n <= |steps| && steps[i].OnVif? && states[n].slot.Entry?
    requires forall m :: i < m < n ==> !steps[m].OnVif?
    ensures states[n].slot.uid == steps[i].uid && ShowsActivity(states[n].slot, steps[i].vifs)
    ensures !(states[i].slot.Entry? && states[i].slot.uid == steps[i].uid) ==> states[n].slot.vifs == steps[i].vifs
  {
    if n > i + 1 {
      assert !steps[n - 1].OnVif? && states[n - 1].slot.Entry?;
      ActivityIsCurrent(states, steps, i, n - 1);
    }
  }

  ghost predicate HasEntry(s: State, uid: Uid) {
    s.slot.Entry? && s.slot.uid == uid
  }

  /** The entry belongs to the last ADD, or it is gone for good. */
  ghost predicate OwnedOrGone(s: State, uid: Uid, container: ContainerId) {
    if HasEntry(s, uid) then s.slot.container == Some(container) else uid in s.dead
  }

  lemma {:induction false} StepKeepsOwner(s: State, step: Step, uid: Uid, container: ContainerId)
    requires Safe(s) && Enabled(s, step) && !step.AddSave? && OwnedOrGone(s, uid, container)
    ensures OwnedOrGone(Apply(s, step), uid, container)
  { }

  /** While the entry of its uid is there, it records the container of the last ADD. */
  lemma {:induction false} LastAddOwns(states: seq<State>, steps: seq<Step>, i: nat, n: nat)
    requires Run(states, steps) && i < n <= |steps| && steps[i].AddSave? && states[i].slot.Entry?
    requires forall m :: i < m < n ==> !steps[m].AddSave?
    ensures OwnedOrGone(states[n], states[i].slot.uid, steps[i].container)
  {
    if n > i + 1 {
      LastAddOwns(states, steps, i, n - 1);
      RunIsSafe(states, steps, n - 1);
      assert !steps[n - 1].AddSave?;
      StepKeepsOwner(states[n - 1], steps[n - 1], states[i].slot.uid, steps[i].container);
    }
  }

  /** So a DEL for any other container than that of the last ADD changes nothing and ends. */
  lemma {:induction false} OlderDelIsIgnored(states: seq<State>, steps: seq<Step>, i: nat, n: nat)
    requires Run(states, steps) && i < n < |steps| && steps[i].AddSave? && states[i].slot.Entry?
    requires forall m :: i < m < n ==> !steps[m].AddSave?
    requires steps[n].DelRead? && HasEntry(states[n], states[i].slot.uid)
    requires states[n].dels[steps[n].d].container != steps[i].container
    ensures states[n + 1] == states[n].(dels := states[n].dels - {steps[n].d})
  {
    LastAddOwns(states, steps, i, n);
  }

  // ---- pods without a KuryrPort ----

  /** Since step `i` marked the name, no KuryrPort has come and no DEL has looked. */
  ghost predicate MarkedAt(states: seq<State>, steps: seq<Step>, i: nat, n: nat)
    requires Run(states, steps) && n <= |steps|
  {
    && i < n && steps[i].PodFinalize? && states[i].slot.Absent?
    && forall m :: i < m < n ==> !steps[m].OnVif? && !steps[m].DelLook?
  }

  lemma {:induction false} MarkStep(s: State, step: Step)
    requires Enabled(s, step)
    ensures Apply(s, step).slot.Sentinel? <==>
            (step.PodFinalize? && s.slot.Absent?) || (s.slot.Sentinel? && !step.OnVif? && !step.DelLook?)
  { }

  /** A name is marked as that of a deleted pod if and only if its pod went away without an entry, and
      neither a KuryrPort nor a DEL has come since. */
  lemma {:induction false} MarkedExactly(states: seq<State>, steps: seq<Step>, n: nat)
    requires Run(states, steps) && n <= |steps|
    ensures states[n].slot.Sentinel? <==> exists i: nat :: MarkedAt(states, steps, i, n)
  {
    if n > 0 {
      var k := n - 1;
      MarkedExactly(states, steps, k);
      MarkStep(states[k], steps[k]);
      if states[n].slot.Sentinel? {
        if states[k].slot.Sentinel? {
          var i: nat :| MarkedAt(states, steps, i, k);
          assert MarkedAt(states, steps, i, n);
        } else {
          assert MarkedAt(states, steps, k, n);
        }
      }
      if i: nat :| MarkedAt(states, steps, i, n) {
        if i < k { assert MarkedAt(states, steps, i, k); }
      }
    }
  }

  /** A DEL request is under way from its first look, unless the name is marked, to the step that ends
      it: a check that finds the mark or another container, work that fails, or its last section. */
  lemma {:induction false} DelUnderWay(states: seq<State>, steps: seq<Step>, n: nat, d: nat)
    requires Run(states, steps) && n < |steps|
    ensures d !in states[n].dels ==>
              (d in states[n + 1].dels <==> Starts(steps[n], d) && !states[n].slot.Sentinel?)
    ensures d in states[n].dels ==>
              (d !in states[n + 1].dels <==>
                 || (steps[n] == DelRead(d) && (states[n].slot.Sentinel? || Foreign(states[n], d)))
                 || steps[n] == DelWork(d, false) || steps[n] == DelFinish(d))
  { }

  /** The entry is of another container than the DEL. */
  predicate Foreign(s: State, d: nat)
    requires d in s.dels
  {
    s.slot.Entry? && s.slot.container.Some? && s.slot.container.value != s.dels[d].container
  }

  // ---- how an entry goes ----

  ghost predicate Leads(s: State, s': State) {
    exists states, steps :: Path(states, steps) && states[0] == s && states[|steps|] == s'
  }

  ghost predicate Path(states: seq<State>, steps: seq<Step>) {
    && |states| == |steps| + 1
    && forall i :: 0 <= i < |steps| ==> Enabled(states[i], steps[i]) && states[i + 1] == Apply(states[i], steps[i])
  }

  lemma {:induction false} Stay(s: State)
    ensures Leads(s, s)
  {
    assert Path([s], []) && [s][0] == s;
  }

  lemma {:induction false} Go(s: State, s1: State, step: Step, s2: State)
    requires Leads(s, s1) && Enabled(s1, step) && s2 == Apply(s1, step)
    ensures Leads(s, s2)
  {
    var states, steps :| Path(states, steps) && states[0] == s && states[|steps|] == s1;
    var states', steps' := states + [s2], steps + [step];
    forall i | 0 <= i < |steps'|
      ensures Enabled(states'[i], steps'[i]) && states'[i + 1] == Apply(states'[i], steps'[i])
    {
      if i < |steps| { assert states'[i] == states[i] && states'[i + 1] == states[i + 1] && steps'[i] == steps[i]; }
    }
    assert Path(states', steps') && states'[0] == s && states'[|steps'|] == s2;
  }

  /** A DEL of the entry's container, or of any when none is recorded, gets through to the entry: it
      removes one that a DELETED event has marked, and marks any other. */
  lemma {:induction false} DelGetsThrough(s0: State, s: State, d: nat, container: ContainerId) returns (s': State)
    requires Leads(s0, s) && s.slot.Entry? && d !in s.dels
    requires s.slot.container.None? || s.slot.container.value == container
    ensures Leads(s0, s') && s'.dels == s.dels && s'.deleting == s.deleting
    ensures s'.current == s.current && s'.dead == s.dead && s'.deletedOn == s.deletedOn
    ensures if s.slot.delReceived then s'.slot.Absent? && s'.removed == s.removed + [s.slot.uid]
            else s'.slot == s.slot.(vifUnplugged := true) && s'.removed == s.removed
  {
    var seen := Some(s.slot.uid);
    var s1 := s.(dels := s.dels[d := Del(container, Looked, seen)]);
    Go(s0, s, DelLook(d, container), s1);
    var s2 := s.(dels := s.dels[d := Del(container, Proceeding, seen)]);
    Go(s0, s1, DelRead(d), s2);
    var s3 := s.(dels := s.dels[d := Del(container, Unplugged, seen)]);
    Go(s0, s2, DelWork(d, true), s3);
    s' := Apply(s3, DelFinish(d));
    Go(s0, s3, DelFinish(d), s');
    assert s.dels[d := Del(container, Unplugged, seen)] - {d} == s.dels;
    assert s.removed + [] == s.removed;
  }

  /** So does the DELETED event of the entry's uid. */
  lemma {:induction false} DeletedGetsThrough(s0: State, s: State) returns (s': State)
    requires Leads(s0, s) && s.slot.Entry? && s.deleting.None?
    requires s.current == Some(s.slot.uid) && s.slot.uid !in s.dead
    ensures Leads(s0, s') && s'.dels == s.dels && s'.deleting.None?
    ensures if s.slot.vifUnplugged then s'.slot.Absent? && s'.removed == s.removed + [s.slot.uid]
            else s'.slot == s.slot.(delReceived := true) && s'.removed == s.removed
  {
    var s1 := s.(dead := s.dead + {s.slot.uid}, deleting := Some(s.slot.uid));
    Go(s0, s, DeletedCheck(s.slot.uid), s1);
    s' := Apply(s1, DeletedAct);
    Go(s0, s1, DeletedAct, s');
    assert s.removed + [] == s.removed;
  }

  /** From an entry that neither has acted on, both together remove it, whichever comes first. */
  lemma {:induction false} EntryGoes(s: State, d: nat, container: ContainerId, delFirst: bool) returns (s': State)
    requires s.slot.Entry? && !s.slot.vifUnplugged && !s.slot.delReceived && d !in s.dels && s.deleting.None?
    requires s.slot.container.None? || s.slot.container.value == container
    requires s.current == Some(s.slot.uid) && s.slot.uid !in s.dead
    ensures Leads(s, s') && s'.slot.Absent? && s'.removed == s.removed + [s.slot.uid] && s'.dels == s.dels
  {
    Stay(s);
    if delFirst {
      s' := DelGetsThrough(s, s, d, container);
      s' := DeletedGetsThrough(s, s');
    } else {
      s' := DeletedGetsThrough(s, s);
      s' := DelGetsThrough(s, s', d, container);
    }
  }
}
