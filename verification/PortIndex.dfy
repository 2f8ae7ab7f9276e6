/** The ordered index of one port pool: the groups of an OrderedDict, oldest
    first, each mapping a security-group tuple to the list of ports filed under
    it. A sorted tuple of group ids is represented by the set of those ids. */
module PortIndex {

  type PortId = string
  type SgId = string

  datatype PoolKey = PoolKey(host: string, project: string, net: string)

  /** `Unknown` is the key `None`, used for a returned port whose groups were not listed. */
  datatype SgKey = Unknown | Sgs(ids: set<SgId>)

  datatype Group = Group(key: SgKey, ports: seq<PortId>)

  type Groups = seq<Group>

  const NO_GROUPS: SgKey := Sgs({})

  ghost predicate KeyAt(gs: Groups, i: nat, key: SgKey) {
    i < |gs| && gs[i].key == key
  }

  ghost predicate DistinctKeys(gs: Groups) {
    forall i, j, key :: KeyAt(gs, i, key) && KeyAt(gs, j, key) ==> i == j
  }

  lemma {:induction false} OnePosition(gs: Groups, i: nat, j: nat)
    requires DistinctKeys(gs) && i < |gs| && j < |gs| && gs[i].key == gs[j].key
    ensures i == j
  {
    assert KeyAt(gs, i, gs[i].key) && KeyAt(gs, j, gs[i].key);
  }

  lemma {:induction false} SameKeys(gs: Groups, r: Groups)
    requires DistinctKeys(gs) && |r| == |gs| && forall i :: 0 <= i < |gs| ==> r[i].key == gs[i].key
    ensures DistinctKeys(r)
  {
    forall i: nat, j: nat, key | KeyAt(r, i, key) && KeyAt(r, j, key) ensures i == j { OnePosition(gs, i, j); }
  }

  lemma {:induction false} NewKey(gs: Groups, g: Group)
    requires DistinctKeys(gs) && forall i :: 0 <= i < |gs| ==> gs[i].key != g.key
    ensures DistinctKeys(gs + [g]) && DistinctKeys([g] + gs)
  {
    forall i: nat, j: nat, key | KeyAt(gs + [g], i, key) && KeyAt(gs + [g], j, key) ensures i == j {
      if i < |gs| && j < |gs| { OnePosition(gs, i, j); }
    }
    forall i: nat, j: nat, key | KeyAt([g] + gs, i, key) && KeyAt([g] + gs, j, key) ensures i == j {
      if i > 0 && j > 0 { OnePosition(gs, i - 1, j - 1); }
    }
  }

  /** All the ports of a pool with their multiplicities. */
  ghost function Bag(gs: Groups): multiset<PortId> {
    if gs == [] then multiset{} else multiset(gs[0].ports) + Bag(gs[1..])
  }

  function Size(gs: Groups): nat {
    if gs == [] then 0 else |gs[0].ports| + Size(gs[1..])
  }

  /** The tuple names group `sg`. */
  predicate Hit(key: SgKey, sg: SgId) {
    key.Sgs? && sg in key.ids
  }

  /** A missing pool reads as an empty one. */
  function PoolOf(pools: map<PoolKey, Groups>, k: PoolKey): Groups {
    if k in pools then pools[k] else []
  }

  /** The key a returned port is filed under, given the groups that were listed. */
  function KeyOf(sgCurrent: map<PortId, set<SgId>>, p: PortId): SgKey {
    if p in sgCurrent then Sgs(sgCurrent[p]) else Unknown
  }

  /** Position of a key, or the number of groups when it is absent. */
  function Find(gs: Groups, key: SgKey): (i: nat)
    ensures i <= |gs|
    ensures i < |gs| ==> gs[i].key == key
    ensures forall j :: 0 <= j < i ==> gs[j].key != key
  {
    FindFrom(gs, key, 0)
  }

  function FindFrom(gs: Groups, key: SgKey, from: nat): (i: nat)
    requires from <= |gs|
    ensures from <= i <= |gs|
    ensures i < |gs| ==> gs[i].key == key
    ensures forall j :: from <= j < i ==> gs[j].key != key
    decreases |gs| - from
  {
    if from == |gs| || gs[from].key == key then from else FindFrom(gs, key, from + 1)
  }

  /** Position of the oldest group that still has a port. */
  function FirstNonEmpty(gs: Groups): (i: nat)
    ensures i <= |gs|
    ensures i < |gs| ==> gs[i].ports != []
    ensures forall j :: 0 <= j < i ==> gs[j].ports == []
  {
    NonEmptyFrom(gs, 0)
  }

  function NonEmptyFrom(gs: Groups, from: nat): (i: nat)
    requires from <= |gs|
    ensures from <= i <= |gs|
    ensures i < |gs| ==> gs[i].ports != []
    ensures forall j :: from <= j < i ==> gs[j].ports == []
    decreases |gs| - from
  {
    if from == |gs| || gs[from].ports != [] then from else NonEmptyFrom(gs, from + 1)
  }

  /** `setdefault(key, []).append(port)` */
  function File(gs: Groups, key: SgKey, port: PortId): Groups {
    var i := Find(gs, key);
    if i < |gs| then gs[i := Group(key, gs[i].ports + [port])] else gs + [Group(key, [port])]
  }

  function FileAll(gs: Groups, key: SgKey, ports: seq<PortId>): Groups {
    if ports == [] then gs else File(FileAll(gs, key, ports[..|ports| - 1]), key, ports[|ports| - 1])
  }

  function Without(gs: Groups, i: nat): Groups
    requires i < |gs|
  {
    gs[..i] + gs[i + 1..]
  }

  /** `move_to_end(key)`, on an index that has the key. */
  function MoveToEnd(gs: Groups, key: SgKey): Groups {
    var i := Find(gs, key);
    if i < |gs| then Without(gs, i) + [gs[i]] else gs
  }

  /** `move_to_end(key, last=False)`, on an index that has the key. */
  function MoveToFront(gs: Groups, key: SgKey): Groups {
    var i := Find(gs, key);
    if i < |gs| then [gs[i]] + Without(gs, i) else gs
  }

  /** `gs[i].pop()` */
  function PopAt(gs: Groups, i: nat): Groups
    requires i < |gs| && gs[i].ports != []
  {
    gs[i := Group(gs[i].key, gs[i].ports[..|gs[i].ports| - 1])]
  }

  /** The group a request takes its port from: its own group when that has a port,
      otherwise the oldest group that has one. */
  function Choose(gs: Groups, want: set<SgId>): (i: nat)
    ensures i <= |gs|
    ensures i < |gs| ==> gs[i].ports != []
  {
    var e := Find(gs, Sgs(want));
    if e < |gs| && gs[e].ports != [] then e else FirstNonEmpty(gs)
  }

  // ---- contents ----

  lemma BagOfConcat(a: Groups, b: Groups)
    ensures Bag(a + b) == Bag(a) + Bag(b)
  {
    if a == [] {
      assert a + b == b;
    } else {
      assert (a + b)[1..] == a[1..] + b;
    }
  }

  lemma {:induction false} BagSplit(gs: Groups, i: nat)
    requires i < |gs|
    ensures Bag(gs) == Bag(gs[..i]) + multiset(gs[i].ports) + Bag(gs[i + 1..])
    ensures Bag(Without(gs, i)) + multiset(gs[i].ports) == Bag(gs)
  {
    assert gs == gs[..i] + [gs[i]] + gs[i + 1..];
    BagOfConcat(gs[..i] + [gs[i]], gs[i + 1..]);
    BagOfConcat(gs[..i], [gs[i]]);
    BagOfConcat(gs[..i], gs[i + 1..]);
  }

  lemma {:induction false} BagUpdate(gs: Groups, i: nat, g: Group)
    requires i < |gs|
    ensures Bag(gs[i := g]) + multiset(gs[i].ports) == Bag(gs) + multiset(g.ports)
  {
    BagSplit(gs, i);
    BagSplit(gs[i := g], i);
    assert gs[i := g][..i] == gs[..i] && gs[i := g][i + 1..] == gs[i + 1..];
  }

  lemma {:induction false} SizeIsBag(gs: Groups)
    ensures Size(gs) == |Bag(gs)|
  {
    if gs != [] { SizeIsBag(gs[1..]); }
  }

  lemma {:induction false} InBag(gs: Groups, i: nat, p: PortId)
    requires i < |gs| && p in gs[i].ports
    ensures p in Bag(gs)
  {
    BagSplit(gs, i);
    assert p in multiset(gs[i].ports);
  }

  // ---- each operation keeps the keys distinct, says what moved, and keeps every
  //      port under a key that satisfies a given relation ----

  ghost predicate Filed(gs: Groups, key: SgKey, p: PortId) {
    exists i :: 0 <= i < |gs| && gs[i].key == key && p in gs[i].ports
  }

  lemma {:induction false} FiledIsInBag(gs: Groups, key: SgKey, p: PortId)
    requires Filed(gs, key, p)
    ensures p in Bag(gs)
  {
    var i :| 0 <= i < |gs| && gs[i].key == key && p in gs[i].ports;
    InBag(gs, i, p);
  }

  lemma {:induction false} FileFacts(gs: Groups, key: SgKey, port: PortId)
    requires DistinctKeys(gs)
    ensures DistinctKeys(File(gs, key, port))
    ensures Find(File(gs, key, port), key) < |File(gs, key, port)|
    ensures Bag(File(gs, key, port)) == Bag(gs) + multiset{port}
  {
    var i := Find(gs, key);
    var r := File(gs, key, port);
    assert r[i].key == key;
    if i < |gs| {
      SameKeys(gs, r);
      assert multiset(r[i].ports) == multiset(gs[i].ports) + multiset{port};
      BagUpdate(gs, i, r[i]);
      Cancel(Bag(r), Bag(gs) + multiset{port}, multiset(gs[i].ports));
    } else {
      NewKey(gs, Group(key, [port]));
      BagOfConcat(gs, [Group(key, [port])]);
    }
  }

  lemma {:induction false} Cancel(a: multiset<PortId>, b: multiset<PortId>, c: multiset<PortId>)
    requires a + c == b + c
    ensures a == b
  {
    forall p ensures a[p] == b[p] { assert (a + c)[p] == (b + c)[p]; }
  }

  lemma {:induction false} FileFiling(gs: Groups, key: SgKey, port: PortId)
    ensures forall k, p :: Filed(File(gs, key, port), k, p) <==> Filed(gs, k, p) || (k == key && p == port)
  {
    var i := Find(gs, key);
    var r := File(gs, key, port);
    assert r[i].key == key && port in r[i].ports;
    forall k, p ensures Filed(r, k, p) <==> Filed(gs, k, p) || (k == key && p == port) {
      if Filed(gs, k, p) {
        var j :| 0 <= j < |gs| && gs[j].key == k && p in gs[j].ports;
        assert r[j].key == k && p in r[j].ports;
      }
      if Filed(r, k, p) {
        var j :| 0 <= j < |r| && r[j].key == k && p in r[j].ports;
        if j < |gs| && j != i { assert gs[j].key == k && p in gs[j].ports; }
      }
    }
  }

  lemma {:induction false} FileAllLast(gs: Groups, key: SgKey, ports: seq<PortId>)
    requires ports != []
    ensures FileAll(gs, key, ports) == File(FileAll(gs, key, ports[..|ports| - 1]), key, ports[|ports| - 1])
    ensures multiset(ports) == multiset(ports[..|ports| - 1]) + multiset{ports[|ports| - 1]}
  {
    assert ports == ports[..|ports| - 1] + [ports[|ports| - 1]];
  }

  lemma {:induction false} FileAllFacts(gs: Groups, key: SgKey, ports: seq<PortId>)
    requires DistinctKeys(gs)
    ensures DistinctKeys(FileAll(gs, key, ports))
    ensures ports != [] ==> Find(FileAll(gs, key, ports), key) < |FileAll(gs, key, ports)|
    ensures Bag(FileAll(gs, key, ports)) == Bag(gs) + multiset(ports)
  {
    if ports != [] {
      FileAllFacts(gs, key, ports[..|ports| - 1]);
      FileAllLast(gs, key, ports);
      FileFacts(FileAll(gs, key, ports[..|ports| - 1]), key, ports[|ports| - 1]);
    }
  }

  lemma {:induction false} FileOneMore(gs: Groups, key: SgKey, ports: seq<PortId>, i: nat)
    requires i < |ports|
    ensures FileAll(gs, key, ports[..i + 1]) == File(FileAll(gs, key, ports[..i]), key, ports[i])
  {
    assert ports[..i + 1][..i] == ports[..i];
  }

  lemma {:induction false} FileAllFiling(gs: Groups, key: SgKey, ports: seq<PortId>)
    ensures forall k, p :: Filed(FileAll(gs, key, ports), k, p) <==> Filed(gs, k, p) || (k == key && p in ports)
  {
    if ports != [] {
      var most, last := ports[..|ports| - 1], ports[|ports| - 1];
      FileAllFiling(gs, key, most);
      FileFiling(FileAll(gs, key, most), key, last);
      assert ports == most + [last];
    }
  }

  lemma {:induction false} WithoutFacts(gs: Groups, i: nat)
    requires DistinctKeys(gs) && i < |gs|
    ensures DistinctKeys(Without(gs, i))
    ensures Bag(Without(gs, i)) + multiset(gs[i].ports) == Bag(gs)
  {
    BagSplit(gs, i);
    var w := Without(gs, i);
    forall a: nat, b: nat, key | KeyAt(w, a, key) && KeyAt(w, b, key) ensures a == b {
      OnePosition(gs, if a < i then a else a + 1, if b < i then b else b + 1);
    }
  }

  lemma {:induction false} WithoutFiling(gs: Groups, i: nat)
    requires DistinctKeys(gs) && i < |gs|
    ensures forall k, p :: Filed(Without(gs, i), k, p) <==> Filed(gs, k, p) && k != gs[i].key
  {
    var r := Without(gs, i);
    forall k, p ensures Filed(r, k, p) <==> Filed(gs, k, p) && k != gs[i].key {
      if Filed(gs, k, p) && k != gs[i].key {
        var j :| 0 <= j < |gs| && gs[j].key == k && p in gs[j].ports;
        var j' := if j < i then j else j - 1;
        assert r[j'] == gs[j];
      }
      if Filed(r, k, p) {
        var j :| 0 <= j < |r| && r[j].key == k && p in r[j].ports;
        var j' := if j < i then j else j + 1;
        assert gs[j'] == r[j];
        if k == gs[i].key { OnePosition(gs, i, j'); }
      }
    }
  }

  /** The group at `i` put before or after the others. */
  lemma {:induction false} AtEitherEnd(gs: Groups, i: nat)
    requires DistinctKeys(gs) && i < |gs|
    ensures DistinctKeys(Without(gs, i) + [gs[i]]) && DistinctKeys([gs[i]] + Without(gs, i))
  {
    var w := Without(gs, i);
    forall j | 0 <= j < |w| ensures w[j].key != gs[i].key {
      var j' := if j < i then j else j + 1;
      assert w[j] == gs[j'];
      if gs[j'].key == gs[i].key { OnePosition(gs, j', i); }
    }
    WithoutFacts(gs, i);
    NewKey(w, gs[i]);
  }

  lemma {:induction false} BagAtEitherEnd(gs: Groups, i: nat)
    requires i < |gs|
    ensures Bag(Without(gs, i) + [gs[i]]) == Bag(gs) == Bag([gs[i]] + Without(gs, i))
  {
    var one := [gs[i]];
    BagSplit(gs, i);
    BagOfConcat(Without(gs, i), one);
    BagOfConcat(one, Without(gs, i));
    assert Bag(one) == multiset(gs[i].ports);
  }

  /** Moving a group to either end changes neither the contents nor the filing. */
  lemma {:induction false} MoveFacts(gs: Groups, key: SgKey)
    requires DistinctKeys(gs)
    ensures DistinctKeys(MoveToEnd(gs, key)) && DistinctKeys(MoveToFront(gs, key))
    ensures Bag(MoveToEnd(gs, key)) == Bag(gs) == Bag(MoveToFront(gs, key))
  {
    if Find(gs, key) < |gs| {
      AtEitherEnd(gs, Find(gs, key));
      BagAtEitherEnd(gs, Find(gs, key));
    }
  }

  lemma {:induction false} MoveFiling(gs: Groups, key: SgKey)
    requires DistinctKeys(gs)
    ensures forall k, p :: Filed(MoveToEnd(gs, key), k, p) <==> Filed(gs, k, p)
    ensures forall k, p :: Filed(MoveToFront(gs, key), k, p) <==> Filed(gs, k, p)
  {
    var i := Find(gs, key);
    if i < |gs| {
      var w, one := Without(gs, i), [gs[i]];
      WithoutFiling(gs, i);
      FiledOfConcat(w, one);
      FiledOfConcat(one, w);
      forall k, p ensures Filed(gs, k, p) <==> Filed(w, k, p) || Filed(one, k, p) {
        if Filed(one, k, p) { assert gs[i].key == k; }
        if Filed(gs, k, p) && !Filed(w, k, p) {
          var j :| 0 <= j < |gs| && gs[j].key == k && p in gs[j].ports;
          OnePosition(gs, i, j);
          assert one[0] == gs[j];
        }
      }
    }
  }

  lemma {:induction false} FiledOfConcat(a: Groups, b: Groups)
    ensures forall k, p :: Filed(a + b, k, p) <==> Filed(a, k, p) || Filed(b, k, p)
  {
    forall k, p ensures Filed(a + b, k, p) <==> Filed(a, k, p) || Filed(b, k, p) {
      if Filed(a, k, p) {
        var j :| 0 <= j < |a| && a[j].key == k && p in a[j].ports;
        assert (a + b)[j] == a[j];
      }
      if Filed(b, k, p) {
        var j :| 0 <= j < |b| && b[j].key == k && p in b[j].ports;
        assert (a + b)[|a| + j] == b[j];
      }
    }
  }

  lemma {:induction false} PopFacts(gs: Groups, i: nat)
    requires DistinctKeys(gs) && i < |gs| && gs[i].ports != []
    ensures DistinctKeys(PopAt(gs, i))
    ensures var p := gs[i].ports[|gs[i].ports| - 1];
            p in Bag(gs) && Bag(PopAt(gs, i)) + multiset{p} == Bag(gs)
  {
    var r := PopAt(gs, i);
    var p := gs[i].ports[|gs[i].ports| - 1];
    SameKeys(gs, r);
    assert gs[i].ports == r[i].ports + [p];
    assert multiset(gs[i].ports) == multiset(r[i].ports) + multiset{p};
    BagUpdate(gs, i, r[i]);
    Cancel(Bag(r) + multiset{p}, Bag(gs), multiset(r[i].ports));
    InBag(gs, i, p);
  }

  lemma {:induction false} PopFiling(gs: Groups, i: nat)
    requires i < |gs| && gs[i].ports != []
    ensures Filed(gs, gs[i].key, gs[i].ports[|gs[i].ports| - 1])
    ensures forall k, p :: Filed(PopAt(gs, i), k, p) ==> Filed(gs, k, p)
  {
    var r := PopAt(gs, i);
    forall k, q | Filed(r, k, q) ensures Filed(gs, k, q) {
      var j :| 0 <= j < |r| && r[j].key == k && q in r[j].ports;
      assert gs[j].key == k && q in gs[j].ports;
    }
  }

  /** A request finds no group only when the pool is empty. */
  lemma {:induction false} ChooseFindsAPort(gs: Groups, want: set<SgId>)
    ensures Choose(gs, want) == |gs| <==> Size(gs) == 0
  {
    EmptyPool(gs);
  }

  lemma {:induction false} EmptyPool(gs: Groups)
    ensures Size(gs) == 0 <==> forall i :: 0 <= i < |gs| ==> gs[i].ports == []
  {
    if gs != [] {
      EmptyPool(gs[1..]);
      assert forall i :: 0 < i < |gs| ==> gs[i] == gs[1..][i - 1];
      assert forall i :: 0 <= i < |gs[1..]| ==> gs[1..][i] == gs[i + 1];
    }
  }
}
