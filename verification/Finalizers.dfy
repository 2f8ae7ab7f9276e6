/** `add_finalizer` and `remove_finalizer` against a versioned object that others write to between
    any two requests. The object is its history: version `v` is entry `v` of the log. */
module Finalizers {
  import opened Basics

  datatype Version = Gone | Stored(finalizers: seq<string>, deleting: bool)

  /** An object as read: its resourceVersion and its finalizers. */
  datatype Snapshot = Snapshot(version: nat, finalizers: seq<string>)

  datatype Response = Ok | NotFound | Forbidden | Conflict | Failed

  datatype Answer = Yes | No | Raised

  /** What others write before the n-th request, and whether that request fails for another reason. */
  datatype Others = Others(writes: nat -> seq<Version>, fails: nat -> bool)

  /** `list.remove` */
  function RemoveFirst(s: seq<string>, x: string): (r: seq<string>)
    requires x in s
    ensures multiset(r) + multiset{x} == multiset(s)
    ensures |r| == |s| - 1
  {
    assert s == [s[0]] + s[1..];
    if s[0] == x then s[1..] else [s[0]] + RemoveFirst(s[1..], x)
  }

  /** One finalizer added at the end, or its first occurrence taken out. */
  ghost predicate ChangedByOne(a: seq<string>, b: seq<string>, finalizer: string, adding: bool) {
    if adding then b == a + [finalizer] else finalizer in a && b == RemoveFirst(a, finalizer)
  }

  /** Version `k` was written by us: it is the version before it with exactly that one change, or
      the object was deleting and gave up its last finalizer. */
  ghost predicate OurWrite(log: seq<Version>, k: nat, finalizer: string, adding: bool) {
    && 0 < k < |log| && log[k - 1].Stored?
    && if log[k].Stored? then
         log[k].deleting == log[k - 1].deleting &&
           ChangedByOne(log[k - 1].finalizers, log[k].finalizers, finalizer, adding)
       else !adding && log[k - 1].deleting && log[k - 1].finalizers == [finalizer]
  }

  ghost predicate IsSnapshot(log: seq<Version>, obj: Snapshot) {
    obj.version < |log| && log[obj.version].Stored? && log[obj.version].finalizers == obj.finalizers
  }

  /** Some version from `from` on has, or lacks, the finalizer. */
  ghost predicate SeenWith(log: seq<Version>, from: nat, finalizer: string, there: bool) {
    exists k :: from <= k < |log| && log[k].Stored? && (finalizer in log[k].finalizers) == there
  }

  /** In some version from `from` on the object is gone or deleting. */
  ghost predicate SeenLeaving(log: seq<Version>, from: nat) {
    exists k :: from <= k < |log| && (log[k].Gone? || log[k].deleting)
  }

  /** The version a successful removal writes. */
  lemma RemovedByUs(log: seq<Version>, was: seq<string>, finalizer: string)
    requires |log| >= 2 && log[|log| - 2].Stored? && log[|log| - 2].finalizers == was && finalizer in was
    requires var v := log[|log| - 2]; var left := RemoveFirst(was, finalizer);
             log[|log| - 1] == if v.deleting && left == [] then Gone else v.(finalizers := left)
    ensures OurWrite(log, |log| - 1, finalizer, false)
  {
    if |was| == 1 { assert was == [finalizer]; }
  }

  /** The last version is `version` with these finalizers; a deleting object is gone with its last one
      and takes no new one. */
  ghost predicate Patched(log: seq<Version>, finalizers: seq<string>, version: nat) {
    && |log| >= 2 && version == |log| - 2 && log[version].Stored?
    && log[|log| - 1] ==
       (if log[version].deleting && finalizers == [] then Gone else log[version].(finalizers := finalizers))
    && (log[version].deleting ==> |finalizers| <= |log[version].finalizers|)
  }

  class Object {
    var log: seq<Version>
    const others: Others
    var requests: nat
    ghost var patches: nat
    ghost var ours: seq<nat>     // the versions we wrote
    ghost var failures: nat      // our requests that failed for another reason

    ghost predicate Valid()
      reads this
    {
      log != []
    }

    constructor (first: Version, others: Others)
      ensures Valid() && log == [first] && this.others == others && patches == 0 && ours == [] && failures == 0
    {
      log, this.others, requests := [first], others, 0;
      patches, ours, failures := 0, [], 0;
    }

    method Interfere()
      requires Valid()
      modifies this`log, this`requests
      ensures Valid() && old(log) <= log
    {
      log := log + others.writes(requests);
      requests := requests + 1;
    }

    /** A merge patch that replaces the list of finalizers, guarded by the version. A deleting
        object takes no new finalizer, and is gone with its last one. */
    method Patch(finalizers: seq<string>, version: nat) returns (r: Response)
      requires Valid()
      modifies this`log, this`requests, this`patches, this`ours, this`failures
      ensures Valid() && old(log) <= log && patches == old(patches) + 1
      ensures failures == old(failures) + if r.Failed? then 1 else 0
      ensures r.Conflict? ==> version != |log| - 1
      ensures r.Ok? ==>
                |old(log)| < |log| && ours == old(ours) + [|log| - 1] && Patched(log, finalizers, version)
      ensures !r.Ok? ==> ours == old(ours)
      ensures r.NotFound? || r.Forbidden? ==> SeenLeaving(log, |old(log)| - 1)
    {
      Interfere();
      patches := patches + 1;
      var last := log[|log| - 1];
      if others.fails(requests) {
        r := Failed;
        failures := failures + 1;
      } else if last.Gone? {
        r := NotFound;
      } else if version != |log| - 1 {
        r := Conflict;
      } else if last.deleting && |finalizers| > |last.finalizers| {
        r := Forbidden;
      } else {
        r := Ok;
        ours := ours + [|log|];
        log := log + [if last.deleting && finalizers == [] then Gone else last.(finalizers := finalizers)];
      }
    }

    method Get() returns (r: Response, obj: Snapshot)
      requires Valid()
      modifies this`log, this`requests, this`failures
      ensures Valid() && old(log) <= log && failures == old(failures) + if r.Failed? then 1 else 0
      ensures r.Ok? ==> IsSnapshot(log, obj) && obj.version == |log| - 1
      ensures r.NotFound? ==> SeenLeaving(log, |old(log)| - 1)
      ensures r.Ok? || r.NotFound? || r.Failed?
    {
      Interfere();
      var last := log[|log| - 1];
      obj := Snapshot(|log| - 1, []);
      if others.fails(requests) {
        r := Failed;
        failures := failures + 1;
      } else if last.Gone? {
        r := NotFound;
      } else {
        r, obj := Ok, Snapshot(|log| - 1, last.finalizers);
      }
    }

    /** A guarded patch, and after a conflict the object as it is then. */
    method PatchOrReread(finalizers: seq<string>, obj: Snapshot) returns (r: Response, next: Snapshot)
      requires Valid() && IsSnapshot(log, obj)
      modifies this`log, this`requests, this`patches, this`ours, this`failures
      ensures Valid() && old(log) <= log && patches == old(patches) + 1
      ensures failures == old(failures) + if r.Failed? then 1 else 0
      ensures if r.Ok? then
                ours == old(ours) + [|log| - 1] && |old(log)| < |log| && Patched(log, finalizers, obj.version)
              else ours == old(ours)
      ensures r.NotFound? || r.Forbidden? ==> SeenLeaving(log, obj.version)
      ensures r.Conflict? ==> IsSnapshot(log, next) && next.version > obj.version
    {
      next := obj;
      r := Patch(finalizers, obj.version);
      if r.Conflict? {
        var found;
        found, next := Get();
        r := if found.Ok? then Conflict else found;
      }
    }

    /** `add_finalizer` */
    method AddFinalizer(snapshot: Snapshot, finalizer: string) returns (r: Answer)
      requires Valid() && IsSnapshot(log, snapshot)
      modifies this`log, this`requests, this`patches, this`ours, this`failures
      ensures Valid() && old(log) <= log && patches <= old(patches) + 3
      ensures if r.Raised? then
                failures > old(failures) || (patches == old(patches) + 3 && |log| > snapshot.version + 3)
              else failures == old(failures)
      ensures ours == old(ours) ||
              exists k :: ours == old(ours) + [k] && |old(log)| <= k && OurWrite(log, k, finalizer, true)
      ensures r.Yes? ==> SeenWith(log, snapshot.version, finalizer, true)
      ensures r.No? ==> SeenLeaving(log, snapshot.version) && ours == old(ours)
      ensures finalizer in snapshot.finalizers ==> r.Yes? && log == old(log) && patches == old(patches)
    {
      if finalizer in snapshot.finalizers {
        return Yes;
      }
      var obj, i := snapshot, 0;
      while i < 3
        invariant Valid() && 0 <= i <= 3 && old(log) <= log && patches == old(patches) + i && ours == old(ours)
        invariant IsSnapshot(log, obj) && snapshot.version + i <= obj.version && failures == old(failures)
      {
        ghost var before := log;
        var response, next := PatchOrReread(obj.finalizers + [finalizer], obj);
        match response {
          case Ok =>
            assert log[obj.version] == before[obj.version];
            assert OurWrite(log, |log| - 1, finalizer, true);
            assert finalizer in log[|log| - 1].finalizers;
            return Yes;
          case NotFound => return No;
          case Forbidden => return No;
          case Failed => return Raised;
          case Conflict =>
            if finalizer in next.finalizers {
              return Yes;
            }
        }
        obj := next;
        i := i + 1;
      }
      return Raised;
    }

    /** `remove_finalizer` */
    method RemoveFinalizer(snapshot: Snapshot, finalizer: string) returns (r: Answer)
      requires Valid() && IsSnapshot(log, snapshot)
      modifies this`log, this`requests, this`patches, this`ours, this`failures
      ensures Valid() && old(log) <= log && patches <= old(patches) + 3
      ensures if r.Raised? then
                failures > old(failures) || (patches == old(patches) + 3 && |log| > snapshot.version + 3)
              else failures == old(failures)
      ensures ours == old(ours) ||
              exists k :: ours == old(ours) + [k] && |old(log)| <= k && OurWrite(log, k, finalizer, false)
      ensures r.Yes? ==> ours != old(ours) || SeenWith(log, snapshot.version, finalizer, false)
      ensures r.No? ==> SeenLeaving(log, snapshot.version) && ours == old(ours)
      ensures finalizer !in snapshot.finalizers ==> r.Yes? && log == old(log) && patches == old(patches)
    {
      var obj, i := snapshot, 0;
      while i < 3
        invariant Valid() && 0 <= i <= 3 && old(log) <= log && patches == old(patches) + i && ours == old(ours)
        invariant IsSnapshot(log, obj) && snapshot.version + i <= obj.version && failures == old(failures)
        invariant i == 0 ==> obj == snapshot && log == old(log)
        invariant finalizer !in snapshot.finalizers ==> i == 0
      {
        if finalizer !in obj.finalizers {
          return Yes;
        }
        ghost var before := log;
        var response, next := PatchOrReread(RemoveFirst(obj.finalizers, finalizer), obj);
        match response {
          case Ok =>
            assert log[obj.version] == before[obj.version];
            RemovedByUs(log, obj.finalizers, finalizer);
            return Yes;
          case NotFound => return No;
          case Forbidden => return No;
          case Failed => return Raised;
          case Conflict => obj := next;
        }
        i := i + 1;
      }
      return Raised;
    }
  }

  /** What another writer has put on the list is still there, as often as it was. */
  lemma {:induction false} NoOtherEntryIsLost(log: seq<Version>, k: nat, finalizer: string, adding: bool, other: string)
    requires OurWrite(log, k, finalizer, adding) && log[k].Stored? && other != finalizer
    ensures multiset(log[k].finalizers)[other] == multiset(log[k - 1].finalizers)[other]
    ensures multiset(log[k].finalizers)[finalizer] == multiset(log[k - 1].finalizers)[finalizer] +
            if adding then 1 else -1
  {
    var a, b := log[k - 1].finalizers, log[k].finalizers;
    assert multiset(if adding then b else a) == multiset(if adding then a else b) + multiset{finalizer};
  }
}
