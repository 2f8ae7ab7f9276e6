/** The rule phase of the KuryrNetworkPolicy handler: what the status lists and what Neutron holds
    are both brought to the rules the spec requires, one remote step at a time. */
module RuleDiff {
  import opened Basics

  /** A rule body: its properties by name. */
  type Fields = map<string, string>

  datatype Entry = Entry(id: nat, fields: Fields)

  function Checked(): seq<string> {
    ["direction", "ethertype", "port_range_max", "port_range_min", "protocol", "remote_ip_prefix"]
  }

  /** The six properties that two rules are compared by. */
  function Six(f: Fields): Fields {
    map k | k in f && k in Checked() :: f[k]
  }

  function Get(f: Fields, k: string): Option<string> {
    if k in f then Some(f[k]) else None
  }

  /** Direction, ethertype, both ends of the port range, protocol and remote prefix are the same. */
  predicate SameProperties(a: Fields, b: Fields) {
    && Get(a, "direction") == Get(b, "direction") && Get(a, "ethertype") == Get(b, "ethertype")
    && Get(a, "port_range_max") == Get(b, "port_range_max") && Get(a, "port_range_min") == Get(b, "port_range_min")
    && Get(a, "protocol") == Get(b, "protocol") && Get(a, "remote_ip_prefix") == Get(b, "remote_ip_prefix")
  }

  /** Rules with the same six properties are the same to the handler, and no others are. */
  lemma {:induction false} SixExactly(a: Fields, b: Fields)
    ensures Six(a) == Six(b) <==> SameProperties(a, b)
  {
    SixByGet(a, b);
    if SameProperties(a, b) {
      forall k | k in Checked() ensures Get(a, k) == Get(b, k) { }
    } else {
      var props := Checked();
      assert props[0] in props && props[1] in props && props[2] in props && props[3] in props && props[4] in props &&
             props[5] in props;
    }
  }

  lemma {:induction false} SixByGet(a: Fields, b: Fields)
    ensures Six(a) == Six(b) <==> forall k :: k in Checked() ==> Get(a, k) == Get(b, k)
  {
    if forall k :: k in Checked() ==> Get(a, k) == Get(b, k) {
      forall k ensures k in Six(a) <==> k in Six(b) {
        if k in Checked() { assert Get(a, k) == Get(b, k); }
      }
      forall k | k in Six(a) ensures Six(a)[k] == Six(b)[k] {
        assert Get(a, k) == Get(b, k);
      }
    }
    if Six(a) == Six(b) {
      forall k | k in Checked() ensures Get(a, k) == Get(b, k) {
        assert k in Six(a) <==> k in Six(b);
        assert k in Six(a) ==> Six(a)[k] == Six(b)[k];
      }
    }
  }

  /** `_compare_sgs` */
  method Compare(a: Fields, b: Fields) returns (same: bool)
    ensures same <==> SameProperties(a, b)
    ensures same <==> Six(a) == Six(b)
  {
    var props := Checked();
    same := true;
    var i := 0;
    while i < |props| && same
      invariant i <= |props|
      invariant same ==> forall j :: 0 <= j < i ==> Get(a, props[j]) == Get(b, props[j])
      invariant !same ==> exists k :: k in props && Get(a, k) != Get(b, k)
      decreases |props| - i
    {
      assert props[i] in props;
      same := Get(a, props[i]) == Get(b, props[i]);
      i := i + 1;
    }
    SixByGet(a, b);
    SixExactly(a, b);
  }

  /** `_find_sgs` */
  method Find(a: Fields, rules: seq<Fields>) returns (found: bool)
    ensures found <==> exists r :: r in rules && SameProperties(r, a)
    ensures found <==> Six(a) in Sixes(rules)
  {
    found := false;
    var i := 0;
    while i < |rules| && !found
      invariant i <= |rules|
      invariant found ==> Six(a) in Sixes(rules)
      invariant !found ==> forall j :: 0 <= j < i ==> Six(rules[j]) != Six(a)
      decreases |rules| - i
    {
      found := Compare(rules[i], a);
      i := i + 1;
    }
    forall r | r in rules ensures SameProperties(r, a) <==> Six(r) == Six(a) { SixExactly(r, a); }
  }

  ghost function Sixes(rules: seq<Fields>): set<Fields> {
    set r | r in rules :: Six(r)
  }

  function Bodies(status: seq<Entry>): seq<Fields> {
    seq(|status|, i requires 0 <= i < |status| => status[i].fields)
  }

  ghost function Listed(status: seq<Entry>): set<Fields> {
    set e | e in status :: Six(e.fields)
  }

  lemma {:induction false} BodiesAreListed(status: seq<Entry>)
    ensures Sixes(Bodies(status)) == Listed(status)
  {
    var b := Bodies(status);
    forall e | e in status ensures Six(e.fields) in Sixes(b) {
      var i :| 0 <= i < |status| && status[i] == e;
      assert b[i] in b;
    }
    forall r | r in b ensures Six(r) in Listed(status) {
      var i :| 0 <= i < |b| && b[i] == r;
      assert status[i] in status;
    }
  }

  // ---- what stays and what goes ----

  /** An entry stays when its rule is among the wanted ones. */
  ghost function Stays(want: set<Fields>): Entry -> bool {
    (e: Entry) => Six(e.fields) in want
  }

  /** The required rules that no entry has. */
  ghost function Missing(required: seq<Fields>, have: set<Fields>): seq<Fields> {
    if required == [] then [] else
      var last := required[|required| - 1];
      Missing(required[..|required| - 1], have) + if Six(last) in have then [] else [last]
  }

  lemma {:induction false} MissingMembers(required: seq<Fields>, have: set<Fields>)
    ensures forall f :: f in Missing(required, have) <==> f in required && Six(f) !in have
  {
    if required != [] { MissingMembers(required[..|required| - 1], have); }
  }

  /** The indexes below `k` of entries that go. */
  ghost function Going(s: seq<Entry>, stays: Entry -> bool, k: nat): seq<nat>
    requires k <= |s|
  {
    if k == 0 then [] else Going(s, stays, k - 1) + if stays(s[k - 1]) then [] else [k - 1]
  }

  /** The list after removing, from the last one down to index `k`, everything that goes. */
  ghost function DoneAbove(s: seq<Entry>, stays: Entry -> bool, k: nat): (r: seq<Entry>)
    requires k <= |s|
    ensures |r| >= k && r[..k] == s[..k]
    decreases |s| - k
  {
    if k == |s| then s else
      var r := DoneAbove(s, stays, k + 1);
      assert r[k] == r[..k + 1][k] && s[..k + 1][..k] == s[..k];
      if stays(s[k]) then r else r[..k] + r[k + 1..]
  }

  lemma {:induction false} CutOne(a: seq<Entry>, x: Entry, b: seq<Entry>)
    ensures (a + [x] + b)[..|a|] + (a + [x] + b)[|a| + 1..] == a + b
    ensures a + [x] + b == a + ([x] + b)
  { }

  /** What is left is what stays, in order. */
  lemma {:induction false} DoneIsKept(s: seq<Entry>, stays: Entry -> bool, k: nat)
    requires k <= |s|
    ensures DoneAbove(s, stays, k) == s[..k] + Filter(s[k..], stays)
    decreases |s| - k
  {
    if k < |s| {
      DoneIsKept(s, stays, k + 1);
      assert s[..k + 1] == s[..k] + [s[k]];
      assert s[k..][1..] == s[k + 1..];
      var b := Filter(s[k + 1..], stays);
      CutOne(s[..k], s[k], b);
      assert [] + b == b;
    }
  }

  /** One more than the last index below `k` to go, or zero. */
  ghost function LastGoing(s: seq<Entry>, stays: Entry -> bool, k: nat): (j: nat)
    requires k <= |s|
    ensures j <= k && (j > 0 ==> !stays(s[j - 1]))
  {
    if k == 0 || !stays(s[k - 1]) then k else LastGoing(s, stays, k - 1)
  }

  lemma {:induction false} GoingEndsThere(s: seq<Entry>, stays: Entry -> bool, k: nat)
    requires k <= |s|
    ensures var j := LastGoing(s, stays, k);
            Going(s, stays, k) == if j == 0 then [] else Going(s, stays, j - 1) + [j - 1]
  {
    if k > 0 && stays(s[k - 1]) {
      GoingEndsThere(s, stays, k - 1);
      assert Going(s, stays, k - 1) + [] == Going(s, stays, k - 1);
    }
  }

  /** Everything between the last index to go and `k` stays. */
  lemma {:induction false} AboveLastStays(s: seq<Entry>, stays: Entry -> bool, k: nat)
    requires k <= |s|
    ensures DoneAbove(s, stays, k) == DoneAbove(s, stays, LastGoing(s, stays, k))
  {
    if k > 0 && stays(s[k - 1]) { AboveLastStays(s, stays, k - 1); }
  }

  lemma {:induction false} NothingElseGoes(s: seq<Entry>, stays: Entry -> bool, k: nat)
    requires k <= |s| && Going(s, stays, k) == []
    ensures DoneAbove(s, stays, k) == Filter(s, stays)
  {
    GoingEndsThere(s, stays, k);
    AboveLastStays(s, stays, k);
    DoneIsKept(s, stays, 0);
    assert s[0..] == s && s[..0] == [];
  }

  // ---- remote state ----

  /** The stored status and the rules of the security group in Neutron. */
  datatype Store = Store(status: seq<Entry>, neutron: map<nat, Fields>, next: nat)

  ghost function IdsOf(status: seq<Entry>): set<nat> {
    set e | e in status :: e.id
  }

  /** Ids are never reused and stand for one rule, Neutron holds no rule twice, and it holds the
      rules of all entries that are required. */
  ghost predicate Agree(s: Store, want: set<Fields>) {
    && (forall e :: e in s.status ==> e.id < s.next)
    && (forall id :: id in s.neutron ==> id < s.next)
    && (forall e, f :: e in s.status && f in s.status && e.id == f.id ==> Six(e.fields) == Six(f.fields))
    && (forall e :: e in s.status && e.id in s.neutron ==> s.neutron[e.id] == Six(e.fields))
    && (forall a, b :: a in s.neutron && b in s.neutron && s.neutron[a] == s.neutron[b] ==> a == b)
    && (forall e :: e in s.status && Six(e.fields) in want ==> e.id in s.neutron)
  }

  /** Rules in Neutron that are not required and that no entry would have removed. */
  ghost function Strays(s: Store, want: set<Fields>): set<nat> {
    set id | id in s.neutron && s.neutron[id] !in want && id !in IdsOf(s.status)
  }

  ghost function Values(s: Store, ids: set<nat>): set<Fields> {
    set id | id in ids && id in s.neutron :: s.neutron[id]
  }

  /** The result of asking Neutron for a rule: a conflict names the rule that is there. */
  ghost predicate Created(s: Store, f: Fields, id: nat, s': Store) {
    if Six(f) in s.neutron.Values then s' == s && id in s.neutron && s.neutron[id] == Six(f)
    else id == s.next && s' == s.(neutron := s.neutron[id := Six(f)], next := s.next + 1)
  }

  function Recorded(s: Store, e: Entry): Store { s.(status := s.status + [e]) }

  function Deleted(s: Store, id: nat): Store { s.(neutron := s.neutron - {id}) }

  /** JSON Patch `remove` of one index. */
  function Dropped(s: Store, i: nat): Store
    requires i < |s.status|
  {
    s.(status := s.status[..i] + s.status[i + 1..])
  }

  /** From a store that agrees to one that agrees, with the same strays and still all required rules. */
  ghost predicate Steady(s: Store, s': Store, want: set<Fields>) {
    Agree(s, want) ==>
      && Agree(s', want) && Strays(s', want) == Strays(s, want) &&
         Values(s', Strays(s', want)) == Values(s, Strays(s, want))
      && forall id :: id in s.neutron && s.neutron[id] in want ==> id in s'.neutron && s'.neutron[id] == s.neutron[id]
  }

  lemma {:induction false} CreateIsSteady(s: Store, f: Fields, id: nat, s': Store, want: set<Fields>)
    requires Created(s, f, id, s') && Six(f) in want && Agree(s, want)
    ensures Steady(s, s', want) && id in s'.neutron && s'.neutron[id] == Six(f)
  {
    if s' != s {
      assert id !in s.neutron && forall e :: e in s.status ==> e.id != id;
    }
  }

  lemma {:induction false} RecordIsSteady(s: Store, e: Entry, want: set<Fields>)
    requires e.id in s.neutron && s.neutron[e.id] == Six(e.fields) && Six(e.fields) in want && Agree(s, want)
    ensures Steady(s, Recorded(s, e), want)
  {
    var s' := Recorded(s, e);
    assert IdsOf(s'.status) == IdsOf(s.status) + {e.id};
    forall x, y | x in s'.status && y in s'.status && x.id == y.id ensures Six(x.fields) == Six(y.fields) {
      if x in s.status && y in s.status { } else { }
    }
  }

  lemma {:induction false} DeleteIsSteady(s: Store, i: nat, want: set<Fields>)
    requires i < |s.status| && Six(s.status[i].fields) !in want && Agree(s, want)
    ensures Steady(s, Deleted(s, s.status[i].id), want)
  {
    var e := s.status[i];
    assert e in s.status && e.id in IdsOf(s.status);
  }

  lemma {:induction false} DropIsSteady(s: Store, i: nat, want: set<Fields>)
    requires i < |s.status| && s.status[i].id !in s.neutron && Agree(s, want)
    ensures Steady(s, Dropped(s, i), want)
  {
    var s' := Dropped(s, i);
    assert forall e :: e in s'.status ==> e in s.status;
    forall e | e in s.status && e.id in s.neutron ensures e.id in IdsOf(s'.status) {
      var j :| 0 <= j < |s.status| && s.status[j] == e;
      assert e == s'.status[if j < i then j else j - 1];
    }
    assert Strays(s', want) == Strays(s, want) by {
      forall id | id in s.neutron ensures id in IdsOf(s.status) <==> id in IdsOf(s'.status) {
        if id in IdsOf(s.status) {
          var e :| e in s.status && e.id == id;
        }
      }
    }
  }

  lemma {:induction false} SteadyTwice(a: Store, b: Store, c: Store, want: set<Fields>)
    requires Steady(a, b, want) && Steady(b, c, want)
    ensures Steady(a, c, want)
  { }

  /** Once the listed rules are the required ones, Neutron holds those and the strays. */
  lemma {:induction false} NeutronFollows(s: Store, want: set<Fields>)
    requires Agree(s, want) && Listed(s.status) == want
    ensures s.neutron.Values == want + Values(s, Strays(s, want))
    ensures forall id :: id in s.neutron && id !in Strays(s, want) ==> id in IdsOf(s.status)
  {
    forall f | f in want ensures f in s.neutron.Values {
      var e :| e in s.status && Six(e.fields) == f;
      assert s.neutron[e.id] == f;
    }
    forall id | id in s.neutron && s.neutron[id] in want ensures id in IdsOf(s.status) {
      var e :| e in s.status && Six(e.fields) == s.neutron[id];
      assert s.neutron[e.id] == s.neutron[id];
    }
    forall id | id in s.neutron && s.neutron[id] !in want ensures id in Strays(s, want) {
      forall e | e in s.status ensures e.id != id {
        assert Six(e.fields) in Listed(s.status);
      }
    }
  }

  /** After a completed phase without strays any other spec can be brought about. */
  lemma {:induction false} NextSpecIsFree(s: Store, want: set<Fields>, next: set<Fields>)
    requires Agree(s, want) && Listed(s.status) == want && Strays(s, want) == {}
    ensures Agree(s, next) && Strays(s, next) == {}
  {
    NeutronFollows(s, want);
    assert forall e :: e in s.status ==> Six(e.fields) in Listed(s.status);
  }

  /** Stopped between creating a rule and recording it, the handler leaves a stray exactly for the
      specs that no longer ask for the rule. */
  lemma {:induction false} UnrecordedRule(s: Store, f: Fields, id: nat, s': Store, want: set<Fields>, next: set<Fields>)
    requires Agree(s, want) && Agree(s, next) && Strays(s, next) == {}
    requires Created(s, f, id, s') && s' != s
    ensures Strays(s', next) == if Six(f) in next then {} else {id}
  {
    assert id !in s.neutron && id !in IdsOf(s.status);
    forall x | x in s.neutron && s.neutron[x] !in next ensures x in IdsOf(s'.status) {
      assert x !in Strays(s, next);
    }
  }

  // ---- the handler ----

  /** `added` has, in order, the bodies `missing`. */
  ghost predicate HasBodies(added: seq<Entry>, missing: seq<Fields>) {
    |added| == |missing| && forall j :: 0 <= j < |added| ==> added[j].fields == missing[j]
  }

  lemma {:induction false} BodyAppended(a: seq<Entry>, b: seq<Entry>, bodies: seq<Fields>, i: nat)
    requires i < |bodies| && HasBodies(a, bodies[..i]) && |b| == i + 1 && b[..i] == a && b[i].fields == bodies[i]
    ensures HasBodies(b, bodies[..i + 1])
  {
    forall j | 0 <= j < i ensures b[j].fields == bodies[j] { assert b[j] == b[..i][j]; }
  }

  lemma {:induction false} DiffReachesTarget(current: seq<Entry>, required: seq<Fields>, added: seq<Entry>)
    requires HasBodies(added, Missing(required, Listed(current)))
    ensures Listed(Filter(current, Stays(Sixes(required))) + added) == Sixes(required)
  {
    var want, missing := Sixes(required), Missing(required, Listed(current));
    var kept := Filter(current, Stays(want));
    MissingMembers(required, Listed(current));
    forall e | e in kept + added ensures Six(e.fields) in want {
      if e in added {
        var j :| 0 <= j < |added| && added[j] == e;
        assert missing[j] in missing;
      }
    }
    forall f | f in required ensures Six(f) in Listed(kept + added) {
      if Six(f) in Listed(current) {
        var e :| e in current && Six(e.fields) == Six(f);
        assert Stays(want)(e) && e in kept + added;
      } else {
        assert f in missing;
        var j :| 0 <= j < |missing| && missing[j] == f;
        assert added[j] in kept + added;
      }
    }
  }

  class Handler {
    var store: Store
    var budget: nat    // remote steps before the handler stops

    constructor (store: Store, budget: nat)
      ensures this.store == store && this.budget == budget
    {
      this.store, this.budget := store, budget;
    }

    /** One remote step, if there is one left. */
    method Step() returns (ok: bool)
      modifies this`budget
      ensures ok == (old(budget) > 0) && budget == if ok then old(budget) - 1 else 0
    {
      ok := budget > 0;
      if ok { budget := budget - 1; }
    }

    /** `create_security_group_rule` */
    method Create(f: Fields) returns (id: nat, ok: bool)
      modifies this
      ensures ok == (old(budget) > 0) && budget == if ok then old(budget) - 1 else 0
      ensures if ok then Created(old(store), f, id, store) else store == old(store)
    {
      id := 0;
      ok := Step();
      if ok {
        if there :| there in store.neutron && store.neutron[there] == Six(f) {
          id := there;
        } else {
          id := store.next;
          store := store.(neutron := store.neutron[id := Six(f)], next := id + 1);
        }
      }
    }

    /** Creates a rule and appends it to the status. */
    method Add(f: Fields, ghost want: set<Fields>) returns (ok: bool)
      requires Six(f) in want
      modifies this
      ensures Steady(old(store), store, want)
      ensures if ok then |store.status| == |old(store.status)| + 1 && old(store.status) <= store.status &&
                         store.status[|old(store.status)|].fields == f
              else store.status == old(store.status)
      ensures ok == (old(budget) >= 2) && (ok ==> budget == old(budget) - 2)
    {
      ghost var s0 := store;
      var id;
      id, ok := Create(f);
      ghost var s1 := store;
      if ok {
        ok := Step();
        if ok { store := Recorded(store, Entry(id, f)); }
        if Agree(s0, want) {
          CreateIsSteady(s0, f, id, s1, want);
          RecordIsSteady(s1, Entry(id, f), want);
          SteadyTwice(s0, s1, Recorded(s1, Entry(id, f)), want);
        }
      }
    }

    /** Deletes the rule of an entry and removes the entry by its index. */
    method Remove(i: nat, ghost want: set<Fields>) returns (ok: bool)
      requires i < |store.status| && Six(store.status[i].fields) !in want
      modifies this
      ensures Steady(old(store), store, want)
      ensures store.status == if ok then old(store.status)[..i] + old(store.status)[i + 1..] else old(store.status)
      ensures ok == (old(budget) >= 2) && (ok ==> budget == old(budget) - 2)
    {
      ghost var s0 := store;
      ok := Step();
      if ok {
        store := Deleted(store, store.status[i].id);
        ghost var s1 := store;
        ok := Step();
        if ok { store := Dropped(store, i); }
        if Agree(s0, want) {
          DeleteIsSteady(s0, i, want);
          DropIsSteady(s1, i, want);
          SteadyTwice(s0, s1, Dropped(s1, i), want);
        }
      }
    }

    method FindMissing(required: seq<Fields>, current: seq<Entry>) returns (toAdd: seq<Fields>)
      ensures toAdd == Missing(required, Listed(current))
    {
      toAdd := [];
      for i := 0 to |required|
        invariant toAdd == Missing(required[..i], Listed(current))
      {
        BodiesAreListed(current);
        var found := Find(required[i], Bodies(current));
        assert required[..i + 1][..i] == required[..i];
        if !found { toAdd := toAdd + [required[i]]; }
      }
      assert required[..|required|] == required;
    }

    method FindGoing(required: seq<Fields>, current: seq<Entry>) returns (toRemove: seq<nat>)
      ensures toRemove == Going(current, Stays(Sixes(required)), |current|)
    {
      toRemove := [];
      for i := 0 to |current|
        invariant toRemove == Going(current, Stays(Sixes(required)), i)
      {
        var found := Find(current[i].fields, required);
        if !found { toRemove := toRemove + [i]; }
      }
    }

    method AddAll(toAdd: seq<Fields>, ghost want: set<Fields>) returns (ok: bool)
      requires forall f :: f in toAdd ==> Six(f) in want
      modifies this
      ensures Steady(old(store), store, want)
      ensures ok ==> old(store.status) <= store.status && HasBodies(store.status[|old(store.status)|..], toAdd)
      ensures ok == (old(budget) >= 2 * |toAdd|) && (ok ==> budget == old(budget) - 2 * |toAdd|)
    {
      ghost var s0 := store;
      ok := true;
      var i := 0;
      while i < |toAdd| && ok
        invariant i <= |toAdd|
        invariant Steady(s0, store, want)
        invariant ok ==> s0.status <= store.status && HasBodies(store.status[|s0.status|..], toAdd[..i])
        invariant ok ==> budget == old(budget) - 2 * i
        invariant !ok ==> old(budget) < 2 * |toAdd|
        decreases |toAdd| - i
      {
        ghost var s1 := store;
        assert toAdd[i] in toAdd;
        ok := Add(toAdd[i], want);
        SteadyTwice(s0, s1, store, want);
        if ok { BodyAppended(s1.status[|s0.status|..], store.status[|s0.status|..], toAdd, i); }
        i := i + 1;
      }
      assert toAdd[..|toAdd|] == toAdd;
    }

    /** Removes the last entry that is still to go. */
    method RemoveNext(
      toRemove: seq<nat>, m: nat, ghost current: seq<Entry>, ghost want: set<Fields>, ghost k: nat,
      ghost added: seq<Entry>)
      returns (ok: bool)
      requires 0 < m && Removing(toRemove, m, current, Stays(want), k, added, store.status)
      modifies this
      ensures Steady(old(store), store, want)
      ensures ok ==> Removing(toRemove, m - 1, current, Stays(want), toRemove[m - 1], added, store.status)
      ensures ok == (old(budget) >= 2) && (ok ==> budget == old(budget) - 2)
    {
      NextToGo(toRemove, m, current, Stays(want), k, added, store.status);
      ok := Remove(toRemove[m - 1], want);
    }

    /** Removes from the last index to the first, so that the indexes still to come stay right. */
    method RemoveAll(toRemove: seq<nat>, ghost current: seq<Entry>, ghost want: set<Fields>) returns (ok: bool)
      requires current <= store.status && toRemove == Going(current, Stays(want), |current|)
      modifies this
      ensures Steady(old(store), store, want)
      ensures ok ==> store.status == Filter(current, Stays(want)) + old(store.status)[|current|..]
      ensures ok == (old(budget) >= 2 * |toRemove|)
    {
      ghost var s0, added := store, store.status[|current|..];
      ghost var k: nat := |current|;
      ok := true;
      var m: nat := |toRemove|;
      NothingRemovedYet(toRemove, current, Stays(want), added, store.status);
      while m > 0 && ok
        invariant m <= |toRemove| && Steady(s0, store, want)
        invariant ok ==> Removing(toRemove, m, current, Stays(want), k, added, store.status)
        invariant if ok then budget == old(budget) - 2 * (|toRemove| - m) else old(budget) < 2 * |toRemove|
        decreases m
      {
        ghost var s1 := store;
        ok := RemoveNext(toRemove, m, current, want, k, added);
        SteadyTwice(s0, s1, store, want);
        m, k := m - 1, toRemove[m - 1];
      }
      if ok { AllRemoved(toRemove, current, Stays(want), k, added, store.status); }
    }

    /** The rule phase of `on_present`. */
    method Sync(required: seq<Fields>) returns (done: bool)
      modifies this
      ensures var want := Sixes(required);
              && Steady(old(store), store, want)
              && (done ==> Listed(store.status) == want)
              && (done && old(Agree(store, want)) ==>
                 store.neutron.Values == want + old(Values(store, Strays(store, want))))
      ensures done ==> var kept := Filter(old(store.status), Stays(Sixes(required)));
                       kept <= store.status &&
                         HasBodies(store.status[|kept|..], Missing(required, Listed(old(store.status))))
      ensures done <==> old(budget) >= 2 * |Missing(required, Listed(old(store.status)))| +
                                       2 * |Going(old(store.status), Stays(Sixes(required)), |old(store.status)|)|
    {
      ghost var s0, want := store, Sixes(required);
      var current := store.status;
      var toAdd := FindMissing(required, current);
      var toRemove := FindGoing(required, current);
      MissingMembers(required, Listed(current));
      done := AddAll(toAdd, want);
      if done {
        ghost var s1, added := store, store.status[|current|..];
        done := RemoveAll(toRemove, current, want);
        SteadyTwice(s0, s1, store, want);
        if done {
          DiffReachesTarget(current, required, added);
          if Agree(s0, want) { NeutronFollows(store, want); }
        }
      }
    }

    /** The phase is stopped after any number of remote steps and later run to its end. */
    method StopAndRerun(required: seq<Fields>, first: nat, second: nat) returns (done: bool)
      requires Agree(store, Sixes(required)) && Strays(store, Sixes(required)) == {}
      modifies this
      ensures done ==> Listed(store.status) == Sixes(required) == store.neutron.Values
      ensures done ==> store.neutron.Keys <= IdsOf(store.status)
    {
      budget := first;
      done := Sync(required);
      budget := second;
      done := Sync(required);
      if done { NeutronFollows(store, Sixes(required)); }
    }
  }

  lemma {:induction false} DropBefore(r: seq<Entry>, added: seq<Entry>, i: nat)
    requires i < |r|
    ensures (r + added)[..i] + (r + added)[i + 1..] == (r[..i] + r[i + 1..]) + added
  { }

  /** The first `m` removals are still to come: everything that goes from index `k` on is gone. */
  ghost predicate Removing(
      toRemove: seq<nat>, m: nat, current: seq<Entry>, stays: Entry -> bool, k: nat, added: seq<Entry>,
      status: seq<Entry>)
  {
    && m <= |toRemove| && k <= |current| && toRemove[..m] == Going(current, stays, k)
    && status == DoneAbove(current, stays, k) + added
  }

  lemma {:induction false} NothingRemovedYet(
      toRemove: seq<nat>, current: seq<Entry>, stays: Entry -> bool, added: seq<Entry>, status: seq<Entry>)
    requires toRemove == Going(current, stays, |current|) && current <= status && added == status[|current|..]
    ensures Removing(toRemove, |toRemove|, current, stays, |current|, added, status)
  {
    assert toRemove[..|toRemove|] == toRemove;
  }

  lemma {:induction false} AllRemoved(
      toRemove: seq<nat>, current: seq<Entry>, stays: Entry -> bool, k: nat, added: seq<Entry>, status: seq<Entry>)
    requires Removing(toRemove, 0, current, stays, k, added, status)
    ensures status == Filter(current, stays) + added
  {
    NothingElseGoes(current, stays, k);
  }

  lemma {:induction false} NextToGo(
      toRemove: seq<nat>, m: nat, current: seq<Entry>, stays: Entry -> bool, k: nat, added: seq<Entry>,
      status: seq<Entry>)
    requires 0 < m && Removing(toRemove, m, current, stays, k, added, status)
    ensures var i := toRemove[m - 1];
            && i + 1 == LastGoing(current, stays, k) && i < |status| && status[i] == current[i] && !stays(current[i])
            && Removing(toRemove, m - 1, current, stays, i, added, status[..i] + status[i + 1..])
  {
    var i, j := toRemove[m - 1], LastGoing(current, stays, k);
    GoingEndsThere(current, stays, k);
    AboveLastStays(current, stays, k);
    assert toRemove[..m][m - 1] == i;
    assert toRemove[..m][..m - 1] == toRemove[..m - 1];
    var r := DoneAbove(current, stays, j);
    assert r[..j][i] == current[..j][i];
    DropBefore(r, added, i);
  }
}
