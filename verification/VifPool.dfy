/** The pool object: `_available_ports_pools`, `_existing_vifs` and `_recyclable_ports` as its
    methods change them, each method run without interruption. Neutron is the field `neutron`:
    the security groups of every port it has. */
module VifPool {
  import opened PortIndex

  datatype Vif = Vif(id: PortId, vlan: nat)

  datatype Answer = Port(vif: Vif) | NotReady | RemoteError

  datatype Limits = Limits(poolMax: nat, debug: bool)

  // ---- what one return pass does ----

  type Items = seq<(PortId, PoolKey)>

  /** The ports that the first `i` items of a pass return to pool `k`, in the order of the pass. */
  function ForPool(items: Items, i: nat, k: PoolKey): seq<PortId>
    requires i <= |items|
  {
    if i == 0 then [] else ForPool(items, i - 1, k) + if items[i - 1].1 == k then [items[i - 1].0] else []
  }

  /** How many of `n` returned ports fit a pool of size `s`. */
  function Room(poolMax: nat, s: nat, n: nat): nat {
    if poolMax == 0 then n
    else if poolMax <= s then 0
    else if n <= poolMax - s then n
    else poolMax - s
  }

  /** Whether item `j` finds room, for pools that had the sizes `sizes` before the pass. */
  ghost predicate Kept(poolMax: nat, sizes: map<PoolKey, nat>, items: Items, j: nat)
    requires j < |items|
  {
    var k := items[j].1;
    poolMax == 0 || (if k in sizes then sizes[k] else 0) + |ForPool(items, j, k)| < poolMax
  }

  /** The ports among the first `i` items for which there is no room. */
  ghost function Dropped(poolMax: nat, sizes: map<PoolKey, nat>, items: Items, i: nat): set<PortId>
    requires i <= |items|
  {
    if i == 0 then {} else
      Dropped(poolMax, sizes, items, i - 1) + if Kept(poolMax, sizes, items, i - 1) then {} else {items[i - 1].0}
  }

  /** A port is dropped exactly when, at its turn, the pool it returns to is full. */
  lemma {:induction false} DroppedMembers(poolMax: nat, sizes: map<PoolKey, nat>, items: Items, i: nat, p: PortId)
    requires i <= |items|
    ensures p in Dropped(poolMax, sizes, items, i) <==>
            exists j :: 0 <= j < i && items[j].0 == p && !Kept(poolMax, sizes, items, j)
  {
    if i > 0 { DroppedMembers(poolMax, sizes, items, i - 1, p); }
  }

  /** What the pass does to one pool: the ports that fit, the first ones, are added to it. */
  ghost predicate ReturnedTo(poolMax: nat, before: Groups, after: Groups, ports: seq<PortId>) {
    Bag(after) == Bag(before) + multiset(ports[..Room(poolMax, Size(before), |ports|)])
  }

  lemma {:induction false} NothingReturned(poolMax: nat, gs: Groups)
    ensures ReturnedTo(poolMax, gs, gs, [])
  {
    var none: seq<PortId> := [];
    assert none[..Room(poolMax, Size(gs), 0)] == none;
  }

  lemma {:induction false} ReturnedSize(poolMax: nat, before: Groups, after: Groups, ports: seq<PortId>)
    requires ReturnedTo(poolMax, before, after, ports)
    ensures Size(after) == Size(before) + Room(poolMax, Size(before), |ports|)
  {
    SizeIsBag(before);
    SizeIsBag(after);
  }

  lemma {:induction false} OneMoreReturned(
    poolMax: nat, before: Groups, gs: Groups, after: Groups, ports: seq<PortId>, p: PortId)
    requires ReturnedTo(poolMax, before, gs, ports) && Bag(after) == Bag(gs) + multiset{p}
    requires poolMax == 0 || Size(before) + Room(poolMax, Size(before), |ports|) < poolMax
    ensures ReturnedTo(poolMax, before, after, ports + [p])
  {
    assert ports[..|ports|] == ports && (ports + [p])[..|ports| + 1] == ports + [p];
  }

  lemma {:induction false} OneMoreDropped(poolMax: nat, before: Groups, gs: Groups, ports: seq<PortId>, p: PortId)
    requires ReturnedTo(poolMax, before, gs, ports)
    requires poolMax > 0 && Size(before) + Room(poolMax, Size(before), |ports|) >= poolMax
    ensures ReturnedTo(poolMax, before, gs, ports + [p])
  {
    var r := Room(poolMax, Size(before), |ports|);
    assert (ports + [p])[..r] == ports[..r];
  }

  ghost predicate ItemFor(items: Items, i: nat, p: PortId) {
    i < |items| && items[i].0 == p
  }

  /** No port has two items. */
  ghost predicate OnceEach(items: Items) {
    forall i, j, p :: ItemFor(items, i, p) && ItemFor(items, j, p) ==> i == j
  }

  lemma {:induction false} NotYetDropped(poolMax: nat, sizes: map<PoolKey, nat>, items: Items, i: nat)
    requires i < |items| && OnceEach(items)
    ensures items[i].0 !in Dropped(poolMax, sizes, items, i)
  {
    DroppedMembers(poolMax, sizes, items, i, items[i].0);
    forall j | 0 <= j < i ensures items[j].0 != items[i].0 {
      assert ItemFor(items, i, items[i].0);
      if items[j].0 == items[i].0 { assert ItemFor(items, j, items[i].0); }
    }
  }

  function Sizes(pools: map<PoolKey, Groups>): map<PoolKey, nat> {
    map k | k in pools :: Size(pools[k])
  }

  ghost predicate AllReturned(
    poolMax: nat, before: map<PoolKey, Groups>, after: map<PoolKey, Groups>, items: Items, i: nat)
    requires i <= |items|
  {
    forall k :: ReturnedTo(poolMax, PoolOf(before, k), PoolOf(after, k), ForPool(items, i, k))
  }

  lemma {:induction false} NothingReturnedYet(poolMax: nat, pools: map<PoolKey, Groups>, items: Items)
    ensures AllReturned(poolMax, pools, pools, items, 0)
  {
    forall k ensures ReturnedTo(poolMax, PoolOf(pools, k), PoolOf(pools, k), ForPool(items, 0, k)) {
      NothingReturned(poolMax, PoolOf(pools, k));
    }
  }

  lemma {:induction false} KeptMeansRoom(
    poolMax: nat, before: map<PoolKey, Groups>, pools: map<PoolKey, Groups>, items: Items, i: nat)
    requires i < |items| && AllReturned(poolMax, before, pools, items, i)
    ensures Kept(poolMax, Sizes(before), items, i) <==> poolMax == 0 || Size(PoolOf(pools, items[i].1)) < poolMax
    ensures var k := items[i].1;
            Size(PoolOf(pools, k)) ==
            Size(PoolOf(before, k)) + Room(poolMax, Size(PoolOf(before, k)), |ForPool(items, i, k)|)
  {
    var k := items[i].1;
    ReturnedSize(poolMax, PoolOf(before, k), PoolOf(pools, k), ForPool(items, i, k));
  }

  /** Item `i` has put its pool into the state `after`; the other pools are as they were. */
  lemma {:induction false} ItemDone(
    poolMax: nat, before: map<PoolKey, Groups>, pools: map<PoolKey, Groups>, after: map<PoolKey, Groups>, items: Items,
    i: nat)
    requires i < |items| && AllReturned(poolMax, before, pools, items, i)
    requires var (p, k) := items[i];
             && ReturnedTo(poolMax, PoolOf(before, k), PoolOf(after, k), ForPool(items, i, k) + [p])
             && forall k' :: k' != k ==> PoolOf(after, k') == PoolOf(pools, k')
    ensures AllReturned(poolMax, before, after, items, i + 1)
  {
    forall k' ensures ReturnedTo(poolMax, PoolOf(before, k'), PoolOf(after, k'), ForPool(items, i + 1, k')) {
      if k' != items[i].1 {
        assert ForPool(items, i, k') + [] == ForPool(items, i, k');
        assert ReturnedTo(poolMax, PoolOf(before, k'), PoolOf(pools, k'), ForPool(items, i, k'));
      }
    }
  }

  lemma {:induction false} ItemReturned(
    poolMax: nat, before: map<PoolKey, Groups>, pools: map<PoolKey, Groups>, items: Items, i: nat, key: SgKey)
    requires i < |items| && WellFormed(pools) && AllReturned(poolMax, before, pools, items, i)
    requires poolMax == 0 || Size(PoolOf(pools, items[i].1)) < poolMax
    ensures var (p, k) := items[i];
            var after := pools[k := MoveToEnd(File(PoolOf(pools, k), key, p), key)];
            WellFormed(after) && AllReturned(poolMax, before, after, items, i + 1)
  {
    var (p, k) := items[i];
    var gs := PoolOf(pools, k);
    var gs' := MoveToEnd(File(gs, key, p), key);
    KeptMeansRoom(poolMax, before, pools, items, i);
    FileFacts(gs, key, p);
    MoveFacts(File(gs, key, p), key);
    OnePoolReplaced(pools, k, gs');
    OneMoreReturned(poolMax, PoolOf(before, k), gs, gs', ForPool(items, i, k), p);
    ItemDone(poolMax, before, pools, pools[k := gs'], items, i);
  }

  lemma {:induction false} ItemDropped(
    poolMax: nat, before: map<PoolKey, Groups>, pools: map<PoolKey, Groups>, items: Items, i: nat)
    requires i < |items| && AllReturned(poolMax, before, pools, items, i)
    requires poolMax > 0 && Size(PoolOf(pools, items[i].1)) >= poolMax
    ensures AllReturned(poolMax, before, pools, items, i + 1)
  {
    var (p, k) := items[i];
    KeptMeansRoom(poolMax, before, pools, items, i);
    OneMoreDropped(poolMax, PoolOf(before, k), PoolOf(pools, k), ForPool(items, i, k), p);
    ItemDone(poolMax, before, pools, pools, items, i);
  }

  /** `items` lists a recyclable dictionary, each entry once. */
  ghost predicate Lists(items: Items, recyclable: map<PortId, PoolKey>) {
    && OnceEach(items)
    && recyclable.Keys == PortsFrom(items, 0)
    && (forall i :: 0 <= i < |items| ==> items[i].0 in recyclable && recyclable[items[i].0] == items[i].1)
  }

  datatype Snapshot = Snapshot(
    pools: map<PoolKey, Groups>, existing: map<PortId, Vif>, recyclable: map<PortId, PoolKey>,
    neutron: map<PortId, set<SgId>>)

  /** Where a pass that started in `s0` stands after `i` items. */
  ghost predicate Progress(poolMax: nat, s0: Snapshot, s: Snapshot, items: Items, i: nat)
    requires i <= |items|
  {
    && WellFormed(s.pools) && AllReturned(poolMax, s0.pools, s.pools, items, i)
    && PortsGone(s0, s, Dropped(poolMax, Sizes(s0.pools), items, i))
    && s.recyclable.Keys == PortsFrom(items, i)
  }

  /** The ports `dropped` are gone, and from Neutron too if they were known. */
  ghost predicate PortsGone(s0: Snapshot, s: Snapshot, dropped: set<PortId>) {
    s.existing == s0.existing - dropped && s.neutron == s0.neutron - (dropped * s0.existing.Keys)
  }

  ghost function PortsFrom(items: Items, i: nat): set<PortId> {
    set j | i <= j < |items| :: items[j].0
  }

  lemma {:induction false} PassStart(poolMax: nat, s0: Snapshot, items: Items)
    requires WellFormed(s0.pools) && Lists(items, s0.recyclable)
    ensures Progress(poolMax, s0, s0, items, 0)
  {
    NothingReturnedYet(poolMax, s0.pools, items);
  }

  lemma {:induction false} NextReturned(poolMax: nat, s0: Snapshot, s: Snapshot, items: Items, i: nat, key: SgKey)
    requires i < |items| && WellFormed(s.pools) && AllReturned(poolMax, s0.pools, s.pools, items, i)
    ensures var s' := AfterItem(poolMax, s, items[i].0, items[i].1, key);
            WellFormed(s'.pools) && AllReturned(poolMax, s0.pools, s'.pools, items, i + 1)
  {
    KeptMeansRoom(poolMax, s0.pools, s.pools, items, i);
    if Kept(poolMax, Sizes(s0.pools), items, i) {
      ItemReturned(poolMax, s0.pools, s.pools, items, i, key);
    } else {
      ItemDropped(poolMax, s0.pools, s.pools, items, i);
    }
  }

  lemma {:induction false} NextGone(poolMax: nat, s0: Snapshot, s: Snapshot, items: Items, i: nat, key: SgKey)
    requires i < |items| && AllReturned(poolMax, s0.pools, s.pools, items, i) && OnceEach(items)
    requires PortsGone(s0, s, Dropped(poolMax, Sizes(s0.pools), items, i))
    ensures PortsGone(s0, AfterItem(poolMax, s, items[i].0, items[i].1, key),
                      Dropped(poolMax, Sizes(s0.pools), items, i + 1))
  {
    var d := Dropped(poolMax, Sizes(s0.pools), items, i);
    KeptMeansRoom(poolMax, s0.pools, s.pools, items, i);
    if Kept(poolMax, Sizes(s0.pools), items, i) {
      assert d + {} == d;
    } else {
      NotYetDropped(poolMax, Sizes(s0.pools), items, i);
      OneMoreGone(s0, s, d, items[i].0);
    }
  }

  lemma {:induction false} NextKeys(poolMax: nat, s: Snapshot, items: Items, i: nat, key: SgKey)
    requires i < |items| && OnceEach(items) && s.recyclable.Keys == PortsFrom(items, i)
    ensures AfterItem(poolMax, s, items[i].0, items[i].1, key).recyclable.Keys == PortsFrom(items, i + 1)
  {
    OnePortFewer(items, i);
  }

  lemma {:induction false} PassStep(poolMax: nat, s0: Snapshot, s: Snapshot, items: Items, i: nat, key: SgKey)
    requires i < |items| && Progress(poolMax, s0, s, items, i) && OnceEach(items)
    ensures Progress(poolMax, s0, AfterItem(poolMax, s, items[i].0, items[i].1, key), items, i + 1)
  {
    NextReturned(poolMax, s0, s, items, i, key);
    NextGone(poolMax, s0, s, items, i, key);
    NextKeys(poolMax, s, items, i, key);
  }

  lemma {:induction false} OnePortFewer(items: Items, i: nat)
    requires i < |items| && OnceEach(items)
    ensures PortsFrom(items, i + 1) == PortsFrom(items, i) - {items[i].0}
  {
    forall j | i < j < |items| ensures items[j].0 != items[i].0 {
      assert ItemFor(items, i, items[i].0);
      if items[j].0 == items[i].0 { assert ItemFor(items, j, items[i].0); }
    }
  }

  lemma {:induction false} OneMoreGone(s0: Snapshot, s: Snapshot, d: set<PortId>, p: PortId)
    requires PortsGone(s0, s, d) && p !in d
    ensures PortsGone(
              s0, s.(existing := s.existing - {p}, neutron := if p in s.existing then s.neutron - {p} else s.neutron),
              d + {p})
  {
    if p in s.existing {
      assert (d + {p}) * s0.existing.Keys == d * s0.existing.Keys + {p};
    } else {
      assert (d + {p}) * s0.existing.Keys == d * s0.existing.Keys;
    }
  }

  function AfterItem(poolMax: nat, s: Snapshot, p: PortId, k: PoolKey, key: SgKey): Snapshot {
    var r := s.recyclable - {p};
    if poolMax == 0 || Size(PoolOf(s.pools, k)) < poolMax then
      s.(pools := s.pools[k := MoveToEnd(File(PoolOf(s.pools, k), key, p), key)], recyclable := r)
    else
      s.(existing := s.existing - {p}, recyclable := r,
         neutron := if p in s.existing then s.neutron - {p} else s.neutron)
  }

  lemma {:induction false} PassEnd(poolMax: nat, s0: Snapshot, s: Snapshot, items: Items)
    requires Progress(poolMax, s0, s, items, |items|)
    ensures s.recyclable == map[]
  { }

  /** Accounting of one pass: a pool of size `s` with `n` recyclable ports ends at `s + n` without a
      limit, and otherwise at the larger of `s` and the smaller of the limit and `s + n`; a port is
      dropped exactly when it is beyond that size. */
  lemma {:induction false} PassAccounting(
    poolMax: nat, before: map<PoolKey, Groups>, after: map<PoolKey, Groups>, items: Items, k: PoolKey)
    requires AllReturned(poolMax, before, after, items, |items|)
    ensures var s, n, s' := Size(PoolOf(before, k)), |ForPool(items, |items|, k)|, Size(PoolOf(after, k));
            && (poolMax == 0 ==> s' == s + n)
            && (poolMax > 0 && s + n <= poolMax ==> s' == s + n)
            && (poolMax > 0 && s <= poolMax < s + n ==> s' == poolMax)
            && (poolMax > 0 && poolMax < s ==> s' == s)
  {
    ReturnedSize(poolMax, PoolOf(before, k), PoolOf(after, k), ForPool(items, |items|, k));
  }

  // ---- under which groups ports are filed ----

  /** What a pass is told: the ports Neutron lists, unless it is not asked, with their groups. */
  datatype Told = Told(debug: bool, listed: set<PortId>, neutron: map<PortId, set<SgId>>)

  /** The groups a port was listed with, when ports are listed and it was among them. */
  function GroupsOf(told: Told, p: PortId): SgKey {
    if !told.debug && p in told.listed && p in told.neutron then Sgs(told.neutron[p]) else Unknown
  }

  /** One of the first `i` items has returned port `p` to pool `k`. */
  ghost predicate Back(poolMax: nat, sizes: map<PoolKey, nat>, items: Items, i: nat, k: PoolKey, p: PortId)
    requires i <= |items|
  {
    exists j :: 0 <= j < i && items[j] == (p, k) && Kept(poolMax, sizes, items, j)
  }

  /** Ports that are back are filed under their keys, and nothing else is filed anew. */
  ghost predicate FiledUnder(
    poolMax: nat, before: map<PoolKey, Groups>, after: map<PoolKey, Groups>, items: Items, i: nat,
    told: Told)
    requires i <= |items|
  {
    forall k, key, p :: Filed(PoolOf(after, k), key, p) <==>
      Filed(PoolOf(before, k), key, p) || (Back(poolMax, Sizes(before), items, i, k, p) && key == GroupsOf(told, p))
  }

  /** The group of the last port that came back is the newest one of its pool. */
  ghost predicate NewestLast(
    poolMax: nat, before: map<PoolKey, Groups>, after: map<PoolKey, Groups>, items: Items, i: nat,
    told: Told)
    requires i <= |items|
  {
    forall j :: 0 <= j < i && LastBack(poolMax, Sizes(before), items, j, i) ==>
      Newest(PoolOf(after, items[j].1), GroupsOf(told, items[j].0))
  }

  ghost predicate LastBack(poolMax: nat, sizes: map<PoolKey, nat>, items: Items, j: nat, i: nat)
    requires j < i <= |items|
  {
    && Kept(poolMax, sizes, items, j)
    && forall m :: j < m < i && items[m].1 == items[j].1 ==> !Kept(poolMax, sizes, items, m)
  }

  ghost predicate Newest(gs: Groups, key: SgKey) {
    gs != [] && gs[|gs| - 1].key == key
  }

  lemma {:induction false} FiledAtTheEnd(gs: Groups, key: SgKey, p: PortId)
    requires DistinctKeys(gs)
    ensures var gs' := MoveToEnd(File(gs, key, p), key);
            Newest(gs', key) && forall key', q :: Filed(gs', key', q) <==> Filed(gs, key', q) || (key' == key && q == p)
  {
    FileFacts(gs, key, p);
    FileFiling(gs, key, p);
    MoveFiling(File(gs, key, p), key);
  }

  lemma {:induction false} OneMoreBack(
    poolMax: nat, sizes: map<PoolKey, nat>, items: Items, i: nat, k: PoolKey, p: PortId)
    requires i < |items|
    ensures Back(poolMax, sizes, items, i + 1, k, p) <==>
            Back(poolMax, sizes, items, i, k, p) || (items[i] == (p, k) && Kept(poolMax, sizes, items, i))
  {
    if Back(poolMax, sizes, items, i, k, p) {
      var j :| 0 <= j < i && items[j] == (p, k) && Kept(poolMax, sizes, items, j);
      assert 0 <= j < i + 1 && items[j] == (p, k);
    }
  }

  lemma {:induction false} FilingOne(
    poolMax: nat, before: map<PoolKey, Groups>, pools: map<PoolKey, Groups>, items: Items, i: nat,
    told: Told)
    requires i < |items| && WellFormed(pools) && FiledUnder(poolMax, before, pools, items, i, told)
    ensures var (p, k) := items[i];
            var gs := MoveToEnd(File(PoolOf(pools, k), GroupsOf(told, p), p), GroupsOf(told, p));
            var after := if Kept(poolMax, Sizes(before), items, i) then pools[k := gs] else pools;
            FiledUnder(poolMax, before, after, items, i + 1, told)
  {
    var (p, k) := items[i];
    var key, kept := GroupsOf(told, p), Kept(poolMax, Sizes(before), items, i);
    var gs := MoveToEnd(File(PoolOf(pools, k), key, p), key);
    var after := if kept then pools[k := gs] else pools;
    FiledAtTheEnd(PoolOf(pools, k), key, p);
    forall k', key', q
      ensures Filed(PoolOf(after, k'), key', q) <==>
              Filed(PoolOf(before, k'), key', q) ||
                (Back(poolMax, Sizes(before), items, i + 1, k', q) && key' == GroupsOf(told, q))
    {
      OneMoreBack(poolMax, Sizes(before), items, i, k', q);
      assert PoolOf(after, k') == if kept && k' == k then gs else PoolOf(pools, k');
    }
  }

  lemma {:induction false} NewestOne(
    poolMax: nat, before: map<PoolKey, Groups>, pools: map<PoolKey, Groups>, items: Items, i: nat,
    told: Told)
    requires i < |items| && WellFormed(pools) && NewestLast(poolMax, before, pools, items, i, told)
    ensures var (p, k) := items[i];
            var gs := MoveToEnd(File(PoolOf(pools, k), GroupsOf(told, p), p), GroupsOf(told, p));
            var after := if Kept(poolMax, Sizes(before), items, i) then pools[k := gs] else pools;
            NewestLast(poolMax, before, after, items, i + 1, told)
  {
    var (p, k) := items[i];
    var sizes, kept := Sizes(before), Kept(poolMax, Sizes(before), items, i);
    var gs := MoveToEnd(File(PoolOf(pools, k), GroupsOf(told, p), p), GroupsOf(told, p));
    var after := if kept then pools[k := gs] else pools;
    FiledAtTheEnd(PoolOf(pools, k), GroupsOf(told, p), p);
    forall j | 0 <= j < i + 1 && LastBack(poolMax, sizes, items, j, i + 1)
      ensures Newest(PoolOf(after, items[j].1), GroupsOf(told, items[j].0))
    {
      if j < i {
        assert LastBack(poolMax, sizes, items, j, i);
        assert kept ==> items[j].1 != k;
        assert PoolOf(after, items[j].1) == PoolOf(pools, items[j].1);
      }
    }
  }

  /** Filing of a pass that has come to item `i`. */
  ghost predicate Filing(
    poolMax: nat, before: map<PoolKey, Groups>, after: map<PoolKey, Groups>, items: Items, i: nat,
    told: Told)
    requires i <= |items|
  {
    FiledUnder(poolMax, before, after, items, i, told) && NewestLast(poolMax, before, after, items, i, told)
  }

  lemma {:induction false} FilingStep(
    poolMax: nat, s0: Snapshot, s: Snapshot, items: Items, i: nat, told: Told)
    requires i < |items| && Progress(poolMax, s0, s, items, i) && Filing(poolMax, s0.pools, s.pools, items, i, told)
    ensures var s' := AfterItem(poolMax, s, items[i].0, items[i].1, GroupsOf(told, items[i].0));
            Filing(poolMax, s0.pools, s'.pools, items, i + 1, told)
  {
    KeptMeansRoom(poolMax, s0.pools, s.pools, items, i);
    FilingOne(poolMax, s0.pools, s.pools, items, i, told);
    NewestOne(poolMax, s0.pools, s.pools, items, i, told);
  }

  lemma {:induction false} FilingStart(poolMax: nat, pools: map<PoolKey, Groups>, items: Items, told: Told)
    ensures Filing(poolMax, pools, pools, items, 0, told)
  { }

  /** `sg_current`: the groups of the ports that are listed and recyclable. */
  function Current(told: Told, recyclable: map<PortId, PoolKey>): map<PortId, set<SgId>> {
    if told.debug then map[] else
      map p | p in told.listed && p in recyclable && p in told.neutron :: told.neutron[p]
  }

  /** The pass knows the groups it was told, of the ports that are recyclable. */
  lemma {:induction false} KeyIsTold(told: Told, recyclable: map<PortId, PoolKey>, p: PortId)
    requires p in recyclable
    ensures KeyOf(Current(told, recyclable), p) == GroupsOf(told, p)
  { }

  // ---- a whole pass ----

  function NextItem(poolMax: nat, s: Snapshot, item: (PortId, PoolKey), told: Told): Snapshot {
    AfterItem(poolMax, s, item.0, item.1, GroupsOf(told, item.0))
  }

  /** The driver after the first `i` items. */
  ghost function PassAfter(poolMax: nat, s: Snapshot, items: Items, i: nat, told: Told): Snapshot
    requires i <= |items|
  {
    if i == 0 then s else NextItem(poolMax, PassAfter(poolMax, s, items, i - 1, told), items[i - 1], told)
  }

  lemma {:induction false} PassGoesOn(poolMax: nat, s: Snapshot, items: Items, i: nat, told: Told)
    requires WellFormed(s.pools) && Lists(items, s.recyclable) && i <= |items|
    ensures Progress(poolMax, s, PassAfter(poolMax, s, items, i, told), items, i)
  {
    if i == 0 {
      PassStart(poolMax, s, items);
    } else {
      var k, before := i - 1, PassAfter(poolMax, s, items, i - 1, told);
      PassGoesOn(poolMax, s, items, k, told);
      PassStep(poolMax, s, before, items, k, GroupsOf(told, items[k].0));
      assert Progress(poolMax, s, NextItem(poolMax, before, items[k], told), items, i);
    }
  }

  lemma {:induction false} PassFiles(poolMax: nat, s: Snapshot, items: Items, i: nat, told: Told)
    requires WellFormed(s.pools) && Lists(items, s.recyclable) && i <= |items|
    ensures Filing(poolMax, s.pools, PassAfter(poolMax, s, items, i, told).pools, items, i, told)
  {
    if i == 0 {
      FilingStart(poolMax, s.pools, items, told);
    } else {
      var k, before := i - 1, PassAfter(poolMax, s, items, i - 1, told);
      PassGoesOn(poolMax, s, items, k, told);
      PassFiles(poolMax, s, items, k, told);
      FilingStep(poolMax, s, before, items, k, told);
      assert Filing(poolMax, s.pools, NextItem(poolMax, before, items[k], told).pools, items, i, told);
    }
  }

  /** Pools stay well formed, and the next item is kept or dropped by the size of its pool. */
  lemma {:induction false} PassMeets(poolMax: nat, s: Snapshot, items: Items, i: nat, told: Told)
    requires WellFormed(s.pools) && Lists(items, s.recyclable) && i < |items|
    ensures var s', d := PassAfter(poolMax, s, items, i, told), Dropped(poolMax, Sizes(s.pools), items, i);
            && WellFormed(s'.pools) && s'.existing == s.existing - d && items[i].0 !in d
            && (Kept(poolMax, Sizes(s.pools), items, i) <==>
               poolMax == 0 || Size(PoolOf(s'.pools, items[i].1)) < poolMax)
  {
    PassGoesOn(poolMax, s, items, i, told);
    KeptMeansRoom(poolMax, s.pools, PassAfter(poolMax, s, items, i, told).pools, items, i);
    NotYetDropped(poolMax, Sizes(s.pools), items, i);
  }

  /** What a whole pass comes to. */
  lemma {:induction false} PassDone(poolMax: nat, s: Snapshot, items: Items, told: Told)
    requires WellFormed(s.pools) && Lists(items, s.recyclable)
    ensures var s' := PassAfter(poolMax, s, items, |items|, told);
            && WellFormed(s'.pools) && s'.recyclable == map[]
            && AllReturned(poolMax, s.pools, s'.pools, items, |items|)
            && PortsGone(s, s', Dropped(poolMax, Sizes(s.pools), items, |items|))
            && FiledUnder(poolMax, s.pools, s'.pools, items, |items|, told)
            && NewestLast(poolMax, s.pools, s'.pools, items, |items|, told)
  {
    PassGoesOn(poolMax, s, items, |items|, told);
    PassFiles(poolMax, s, items, |items|, told);
    PassEnd(poolMax, s, PassAfter(poolMax, s, items, |items|, told), items);
  }

  // ---- what becomes of one port ----

  /** The ports of the first `j` items for pool `k` come first among those of the first `i`. */
  lemma {:induction false} ForPoolGrows(items: Items, j: nat, i: nat, k: PoolKey)
    requires j <= i <= |items|
    ensures ForPool(items, j, k) <= ForPool(items, i, k)
  {
    if j < i { ForPoolGrows(items, j, i - 1, k); }
  }

  lemma {:induction false} PlaceAmongItems(items: Items, j: nat, k: PoolKey)
    requires j < |items| && items[j].1 == k
    ensures var m, all := |ForPool(items, j, k)|, ForPool(items, |items|, k); m < |all| && all[m] == items[j].0
  {
    ForPoolGrows(items, j + 1, |items|, k);
  }

  lemma {:induction false} FitIsReturned(poolMax: nat, before: Groups, after: Groups, ports: seq<PortId>, m: nat)
    requires ReturnedTo(poolMax, before, after, ports) && m < |ports| && m < Room(poolMax, Size(before), |ports|)
    ensures ports[m] in Bag(after)
  {
    var fit := ports[..Room(poolMax, Size(before), |ports|)];
    assert fit[m] == ports[m] && ports[m] in multiset(fit);
  }

  lemma {:induction false} KeptIsFit(poolMax: nat, before: map<PoolKey, Groups>, items: Items, j: nat, n: nat)
    requires j < |items| && |ForPool(items, j, items[j].1)| < n
    ensures var s := Size(PoolOf(before, items[j].1));
            && (Kept(poolMax, Sizes(before), items, j) <==> |ForPool(items, j, items[j].1)| < Room(poolMax, s, n))
            && (!Kept(poolMax, Sizes(before), items, j) ==> 0 < poolMax <= s + Room(poolMax, s, n))
  { }

  /** A port that finds room is in its pool after the pass; one that does not has a full pool. */
  lemma {:induction false} ReturnedOrFull(
    poolMax: nat, before: map<PoolKey, Groups>, after: map<PoolKey, Groups>, items: Items, j: nat)
    requires j < |items| && AllReturned(poolMax, before, after, items, |items|)
    ensures var (p, k) := items[j];
            if Kept(poolMax, Sizes(before), items, j) then p in Bag(PoolOf(after, k))
            else 0 < poolMax <= Size(PoolOf(after, k))
  {
    var k := items[j].1;
    var all := ForPool(items, |items|, k);
    assert ReturnedTo(poolMax, PoolOf(before, k), PoolOf(after, k), all);
    PlaceAmongItems(items, j, k);
    KeptIsFit(poolMax, before, items, j, |all|);
    if Kept(poolMax, Sizes(before), items, j) {
      FitIsReturned(poolMax, PoolOf(before, k), PoolOf(after, k), all, |ForPool(items, j, k)|);
    } else {
      ReturnedSize(poolMax, PoolOf(before, k), PoolOf(after, k), all);
    }
  }

  /** A pass brings a port back to its pool, or the pool is full and the port is gone. */
  lemma {:induction false} PortBackOrGone(poolMax: nat, s0: Snapshot, s: Snapshot, items: Items, j: nat)
    requires AllReturned(poolMax, s0.pools, s.pools, items, |items|) && j < |items| && items[j].0 in s0.existing
    requires PortsGone(s0, s, Dropped(poolMax, Sizes(s0.pools), items, |items|))
    requires OnceEach(items)
    ensures var (p, k) := items[j];
            if p in s.existing then p in Bag(PoolOf(s.pools, k)) && (p in s.neutron <==> p in s0.neutron)
            else 0 < poolMax <= Size(PoolOf(s.pools, k)) && p !in s.neutron
  {
    ReturnedOrFull(poolMax, s0.pools, s.pools, items, j);
    KeptIsNotDropped(poolMax, Sizes(s0.pools), items, j);
  }

  lemma {:induction false} BackUnderItsGroups(
    poolMax: nat, s0: Snapshot, s: Snapshot, items: Items, j: nat, told: Told)
    requires j < |items| && OnceEach(items) && FiledUnder(poolMax, s0.pools, s.pools, items, |items|, told)
    requires PortsGone(s0, s, Dropped(poolMax, Sizes(s0.pools), items, |items|)) && items[j].0 in s.existing
    ensures Filed(PoolOf(s.pools, items[j].1), GroupsOf(told, items[j].0), items[j].0)
  {
    var (p, k) := items[j];
    KeptIsNotDropped(poolMax, Sizes(s0.pools), items, j);
    assert Back(poolMax, Sizes(s0.pools), items, |items|, k, p);
  }

  /** No other item of the pass is for the same port. */
  lemma {:induction false} KeptIsNotDropped(poolMax: nat, sizes: map<PoolKey, nat>, items: Items, j: nat)
    requires j < |items| && OnceEach(items)
    ensures items[j].0 in Dropped(poolMax, sizes, items, |items|) <==> !Kept(poolMax, sizes, items, j)
  {
    DroppedMembers(poolMax, sizes, items, |items|, items[j].0);
    forall i | 0 <= i < |items| && items[i].0 == items[j].0 ensures i == j {
      assert ItemFor(items, i, items[j].0) && ItemFor(items, j, items[j].0);
    }
  }

  /** The VLAN ids of these ports. */
  function VlansOf(existing: map<PortId, Vif>, ports: set<PortId>): set<nat> {
    set p | p in ports && p in existing :: existing[p].vlan
  }

  /** Of the subports and VLAN ids there were, those of the ports `d` are gone. */
  ghost predicate Detached(
    subs0: set<PortId>, vlans0: set<nat>, e0: map<PortId, Vif>, subs: set<PortId>, vlans: set<nat>, d: set<PortId>) {
    subs == subs0 - d && vlans == vlans0 - VlansOf(e0, d)
  }

  lemma {:induction false} NothingDetached(subs: set<PortId>, vlans: set<nat>, e0: map<PortId, Vif>)
    ensures Detached(subs, vlans, e0, subs, vlans, {})
  {
    assert VlansOf(e0, {}) == {};
  }

  lemma {:induction false} OneMoreDetached(
      subs0: set<PortId>, vlans0: set<nat>, e0: map<PortId, Vif>, subs: set<PortId>, vlans: set<nat>, d: set<PortId>,
      p: PortId)
    requires Detached(subs0, vlans0, e0, subs, vlans, d)
    ensures Detached(subs0, vlans0, e0, subs - {p}, vlans - VlansOf(e0, {p}), d + {p})
  {
    assert VlansOf(e0, d + {p}) == VlansOf(e0, d) + VlansOf(e0, {p});
  }

  /** The same for the next item of a pass. */
  lemma {:induction false} NextDetached(
    poolMax: nat, s0: Snapshot, items: Items, i: nat, subs0: set<PortId>, vlans0: set<nat>,
    subs: set<PortId>, vlans: set<nat>, existing: map<PortId, Vif>)
    requires i < |items| && items[i].0 !in Dropped(poolMax, Sizes(s0.pools), items, i)
    requires existing == s0.existing - Dropped(poolMax, Sizes(s0.pools), items, i)
    requires Detached(subs0, vlans0, s0.existing, subs, vlans, Dropped(poolMax, Sizes(s0.pools), items, i))
    ensures var p, kept := items[i].0, Kept(poolMax, Sizes(s0.pools), items, i);
            Detached(subs0, vlans0, s0.existing, if kept then subs else subs - {p},
                     if kept then vlans else vlans - VlansOf(existing, {p}),
                     Dropped(poolMax, Sizes(s0.pools), items, i + 1))
  {
    var d, p := Dropped(poolMax, Sizes(s0.pools), items, i), items[i].0;
    assert VlansOf(existing, {p}) == VlansOf(s0.existing, {p});
    OneMoreDetached(subs0, vlans0, s0.existing, subs, vlans, d, p);
    assert d + {} == d;
  }

  // ---- what a security-group removal does ----

  /** Deletes group `i` and files its ports under the empty tuple, which becomes the oldest group. */
  function DrainGroup(gs: Groups, i: nat): Groups
    requires i < |gs|
  {
    MoveToFront(FileAll(Without(gs, i), NO_GROUPS, gs[i].ports), NO_GROUPS)
  }

  lemma {:induction false} DrainGroupFacts(gs: Groups, i: nat)
    requires DistinctKeys(gs) && i < |gs| && gs[i].key != NO_GROUPS
    ensures DistinctKeys(DrainGroup(gs, i)) && Bag(DrainGroup(gs, i)) == Bag(gs)
    ensures forall g: Group :: g.key != NO_GROUPS ==> (g in DrainGroup(gs, i) <==> g in gs && g != gs[i])
    ensures forall p :: Filed(DrainGroup(gs, i), NO_GROUPS, p) <==> Filed(gs, NO_GROUPS, p) || p in gs[i].ports
  {
    var w := Without(gs, i);
    var f := FileAll(w, NO_GROUPS, gs[i].ports);
    WithoutFacts(gs, i);
    FileAllFacts(w, NO_GROUPS, gs[i].ports);
    MoveFacts(f, NO_GROUPS);
    DrainElements(gs, i);
    DrainFiling(gs, i);
  }

  lemma {:induction false} DrainFiling(gs: Groups, i: nat)
    requires DistinctKeys(gs) && i < |gs| && gs[i].key != NO_GROUPS
    ensures forall p :: Filed(DrainGroup(gs, i), NO_GROUPS, p) <==> Filed(gs, NO_GROUPS, p) || p in gs[i].ports
  {
    var w := Without(gs, i);
    WithoutFacts(gs, i);
    WithoutFiling(gs, i);
    FileAllFacts(w, NO_GROUPS, gs[i].ports);
    FileAllFiling(w, NO_GROUPS, gs[i].ports);
    MoveFiling(FileAll(w, NO_GROUPS, gs[i].ports), NO_GROUPS);
  }

  lemma {:induction false} DrainElements(gs: Groups, i: nat)
    requires DistinctKeys(gs) && i < |gs|
    ensures forall g: Group :: g.key != NO_GROUPS ==> (g in DrainGroup(gs, i) <==> g in gs && g != gs[i])
  {
    var w := Without(gs, i);
    forall g: Group ensures g in w <==> g in gs && g != gs[i] {
      if g in gs && g != gs[i] {
        var j :| 0 <= j < |gs| && gs[j] == g;
        assert w[if j < i then j else j - 1] == g;
      }
      if g in w {
        var j :| 0 <= j < |w| && w[j] == g;
        var j' := if j < i then j else j + 1;
        assert gs[j'] == g;
        if g.key == gs[i].key { OnePosition(gs, i, j'); }
      }
    }
    FileAllElements(w, gs[i].ports);
    MoveElements(FileAll(w, NO_GROUPS, gs[i].ports));
  }

  lemma {:induction false} FileAllElements(gs: Groups, ports: seq<PortId>)
    ensures forall g: Group :: g.key != NO_GROUPS ==> (g in FileAll(gs, NO_GROUPS, ports) <==> g in gs)
  {
    if ports != [] {
      FileAllElements(gs, ports[..|ports| - 1]);
      var f := FileAll(gs, NO_GROUPS, ports[..|ports| - 1]);
      var r := File(f, NO_GROUPS, ports[|ports| - 1]);
      var e := Find(f, NO_GROUPS);
      forall g: Group | g.key != NO_GROUPS ensures g in r <==> g in f {
        if g in f {
          var j :| 0 <= j < |f| && f[j] == g;
          assert r[j] == g;
        }
      }
    }
  }

  lemma {:induction false} MoveElements(gs: Groups)
    ensures forall g: Group :: g in MoveToFront(gs, NO_GROUPS) <==> g in gs
  {
    var i := Find(gs, NO_GROUPS);
    if i < |gs| {
      var r := MoveToFront(gs, NO_GROUPS);
      forall g: Group ensures g in r <==> g in gs {
        if g in gs {
          var j :| 0 <= j < |gs| && gs[j] == g;
          assert r[if j == i then 0 else if j < i then j + 1 else j] == g;
        }
      }
    }
  }

  /** The effect on one pool of removing group `sg` after `n` groups of its snapshot: the groups of
      the snapshot that name `sg` are gone, their ports are filed under the empty tuple, nothing
      else moved, and Neutron was told to clear exactly those ports. */
  ghost predicate SgRemoved(before: Groups, after: Groups, sg: SgId, n: nat)
    requires n <= |before|
  {
    DistinctKeys(after) && Bag(after) == Bag(before) && GroupsLeft(before, after, sg, n) &&
      PortsFreed(before, after, sg, n)
  }

  ghost predicate GroupsLeft(before: Groups, after: Groups, sg: SgId, n: nat)
    requires n <= |before|
  {
    forall g: Group :: g.key != NO_GROUPS ==> (g in after <==> g in before && !(Hit(g.key, sg) && g in before[..n]))
  }

  ghost predicate PortsFreed(before: Groups, after: Groups, sg: SgId, n: nat)
    requires n <= |before|
  {
    forall p :: Filed(after, NO_GROUPS, p) <==> Filed(before, NO_GROUPS, p) || Drains(before, sg, n, p)
  }

  /** `p` is filed under a key with `sg` in the first `n` groups. */
  ghost predicate Drains(gs: Groups, sg: SgId, n: nat, p: PortId)
    requires n <= |gs|
  {
    exists j :: 0 <= j < n && Hit(gs[j].key, sg) && p in gs[j].ports
  }

  /** Neutron's groups after the ports of the first `n` groups with `sg` were cleared. */
  ghost predicate Cleared(
      n0: map<PortId, set<SgId>>, n1: map<PortId, set<SgId>>, gs: Groups, sg: SgId, n: nat, cleared: set<SgId>)
    requires n <= |gs|
  {
    && (forall p :: p in n1 <==> p in n0 || Drains(gs, sg, n, p))
    && (forall p :: p in n1 ==> n1[p] == if Drains(gs, sg, n, p) then cleared else n0[p])
  }

  function SetAll(m: map<PortId, set<SgId>>, ports: seq<PortId>, sgs: set<SgId>): map<PortId, set<SgId>> {
    m + map p | p in ports :: sgs
  }

  lemma {:induction false} SetOneMore(m: map<PortId, set<SgId>>, ports: seq<PortId>, i: nat, sgs: set<SgId>)
    requires i < |ports|
    ensures SetAll(m, ports[..i + 1], sgs) == SetAll(m, ports[..i], sgs)[ports[i] := sgs]
  {
    assert ports[..i + 1] == ports[..i] + [ports[i]];
  }

  lemma {:induction false} ClearedStep(
      n0: map<PortId, set<SgId>>, n1: map<PortId, set<SgId>>, gs: Groups, sg: SgId, n: nat, cleared: set<SgId>)
    requires n < |gs| && Cleared(n0, n1, gs, sg, n, cleared)
    ensures !Hit(gs[n].key, sg) ==> Cleared(n0, n1, gs, sg, n + 1, cleared)
    ensures Hit(gs[n].key, sg) ==> Cleared(n0, SetAll(n1, gs[n].ports, cleared), gs, sg, n + 1, cleared)
  {
    forall p ensures Drains(gs, sg, n + 1, p) <==>
                     Drains(gs, sg, n, p) || (Hit(gs[n].key, sg) && p in gs[n].ports) { }
  }

  lemma {:induction false} DrainsMore(gs: Groups, sg: SgId, n: nat)
    requires n < |gs|
    ensures forall p :: Drains(gs, sg, n + 1, p) <==> Drains(gs, sg, n, p) || (Hit(gs[n].key, sg) && p in gs[n].ports)
  {
    forall p ensures Drains(gs, sg, n + 1, p) <==> Drains(gs, sg, n, p) || (Hit(gs[n].key, sg) && p in gs[n].ports) { }
  }

  lemma {:induction false} GroupsLeftMore(before: Groups, a: Groups, b: Groups, sg: SgId, n: nat)
    requires n < |before| && GroupsLeft(before, a, sg, n)
    requires forall g: Group :: g.key != NO_GROUPS ==>
             (g in b <==> g in a && !(Hit(before[n].key, sg) && g == before[n]))
    ensures GroupsLeft(before, b, sg, n + 1)
  {
    assert before[..n + 1] == before[..n] + [before[n]];
  }

  /** The group at `n` names `sg`, so the snapshot's copy of it is still there. */
  lemma {:induction false} StillThere(before: Groups, cur: Groups, sg: SgId, n: nat)
    requires DistinctKeys(before) && n < |before| && SgRemoved(before, cur, sg, n) && Hit(before[n].key, sg)
    ensures var i := Find(cur, before[n].key); i < |cur| && cur[i] == before[n]
  {
    forall j | 0 <= j < n ensures before[j] != before[n] {
      if before[j].key == before[n].key { OnePosition(before, j, n); }
    }
    assert before[n] !in before[..n];
    assert before[n] in cur;
    var i :| 0 <= i < |cur| && cur[i] == before[n];
    OnePosition(cur, i, Find(cur, before[n].key));
  }

  lemma {:induction false} RemoveStep(before: Groups, cur: Groups, sg: SgId, n: nat)
    requires DistinctKeys(before) && n < |before| && SgRemoved(before, cur, sg, n)
    ensures !Hit(before[n].key, sg) ==> SgRemoved(before, cur, sg, n + 1)
    ensures Hit(before[n].key, sg) ==>
              var i := Find(cur, before[n].key);
              i < |cur| && cur[i] == before[n] && SgRemoved(before, DrainGroup(cur, i), sg, n + 1)
  {
    DrainsMore(before, sg, n);
    if Hit(before[n].key, sg) {
      StillThere(before, cur, sg, n);
      var i := Find(cur, before[n].key);
      DrainGroupFacts(cur, i);
      GroupsLeftMore(before, cur, DrainGroup(cur, i), sg, n);
    } else {
      GroupsLeftMore(before, cur, cur, sg, n);
    }
  }

  ghost predicate WellFormed(pools: map<PoolKey, Groups>) {
    forall k {:trigger PoolOf(pools, k)} :: DistinctKeys(PoolOf(pools, k))
  }

  lemma {:induction false} OnePoolReplaced(pools: map<PoolKey, Groups>, k: PoolKey, gs: Groups)
    requires WellFormed(pools) && DistinctKeys(gs)
    ensures WellFormed(pools[k := gs])
    ensures PoolOf(pools[k := gs], k) == gs
    ensures forall k' :: k' != k ==> PoolOf(pools[k := gs], k') == PoolOf(pools, k')
    ensures pools[k := gs] - {k} == pools - {k}
  {
    var after := pools[k := gs];
    forall k' ensures DistinctKeys(PoolOf(after, k')) {
      if k' != k { assert PoolOf(after, k') == PoolOf(pools, k'); }
    }
  }

  function Ids(vifs: seq<Vif>): seq<PortId> {
    if vifs == [] then [] else Ids(vifs[..|vifs| - 1]) + [vifs[|vifs| - 1].id]
  }

  function Registered(m: map<PortId, Vif>, vifs: seq<Vif>): map<PortId, Vif> {
    if vifs == [] then m
    else Registered(m, vifs[..|vifs| - 1])[vifs[|vifs| - 1].id := vifs[|vifs| - 1]]
  }

  lemma {:induction false} FiledOneMore(gs: Groups, key: SgKey, vifs: seq<Vif>, i: nat)
    requires i < |vifs|
    ensures FileAll(gs, key, Ids(vifs[..i + 1])) == File(FileAll(gs, key, Ids(vifs[..i])), key, vifs[i].id)
  {
    assert vifs[..i + 1][..i] == vifs[..i];
    assert Ids(vifs[..i + 1]) == Ids(vifs[..i]) + [vifs[i].id];
    assert Ids(vifs[..i + 1])[..|Ids(vifs[..i])|] == Ids(vifs[..i]);
  }

  lemma {:induction false} RegisteredOneMore(m: map<PortId, Vif>, vifs: seq<Vif>, i: nat)
    requires i < |vifs|
    ensures Registered(m, vifs[..i + 1]) == Registered(m, vifs[..i])[vifs[i].id := vifs[i]]
  {
    assert vifs[..i + 1][..i] == vifs[..i];
  }

  /** The group of the requested tuple if it has a port, otherwise the first one in the order of the index
      that has. */
  method PickGroup(gs: Groups, want: set<SgId>) returns (i: nat, exact: bool)
    requires DistinctKeys(gs)
    ensures i == Choose(gs, want) && (exact <==> i < |gs| && gs[i].key == Sgs(want))
  {
    i := Find(gs, Sgs(want));
    exact := i < |gs| && gs[i].ports != [];
    if !exact {
      i := 0;
      while i < |gs| && gs[i].ports == []
        invariant 0 <= i <= |gs|
        invariant forall j :: 0 <= j < i ==> gs[j].ports == []
      {
        i := i + 1;
      }
      if i < |gs| && gs[i].key == Sgs(want) { OnePosition(gs, i, Find(gs, Sgs(want))); }
    }
  }

  class VIFPool {
    var pools: map<PoolKey, Groups>
    var existing: map<PortId, Vif>
    var recyclable: map<PortId, PoolKey>
    var neutron: map<PortId, set<SgId>>
    var subports: set<PortId>           // of a nested pool: the ports attached to trunks
    var vlans: set<nat>                 // and the VLAN ids reserved for them

    ghost predicate Valid()
      reads this
    {
      WellFormed(pools)
    }

    ghost function Snap(): Snapshot
      reads this
    {
      Snapshot(pools, existing, recyclable, neutron)
    }

    function Pool(k: PoolKey): Groups
      reads this
    {
      PoolOf(pools, k)
    }

    constructor ()
      ensures Valid() && pools == map[] && existing == map[] && recyclable == map[] && neutron == map[]
      ensures subports == {} && vlans == {}
    {
      pools, existing, recyclable, neutron := map[], map[], map[], map[];
      subports, vlans := {}, {};
    }

    /** `_get_pool_size` */
    method GetPoolSize(k: PoolKey) returns (n: nat)
      ensures n == Size(Pool(k)) == |Bag(Pool(k))|
    {
      n := 0;
      var gs := Pool(k);
      for i := 0 to |gs|
        invariant n + Size(gs[i..]) == Size(gs)
      {
        n := n + |gs[i].ports|;
        assert gs[i..][1..] == gs[i + 1..];
      }
      SizeIsBag(gs);
    }

    /** `_get_port_from_pool`. `updated` says whether Neutron accepts the group update that a
        port of another group needs. */
    method GetPortFromPool(k: PoolKey, want: set<SgId>, updated: bool) returns (a: Answer)
      requires Valid()
      modifies this`pools, this`neutron
      ensures Valid() && pools - {k} == old(pools) - {k}
      ensures old(Size(Pool(k))) == 0 ==> a == NotReady && Pool(k) == old(Pool(k)) && neutron == old(neutron)
      ensures old(Size(Pool(k))) > 0 ==>
                var gs := old(Pool(k));
                var i := Choose(gs, want);
                i < |gs| &&
                var p := gs[i].ports[|gs[i].ports| - 1];
                var exact := gs[i].key == Sgs(want);
                && Pool(k) == PopAt(gs, i)
                && (exact ==> neutron == old(neutron))
                && (!exact && updated ==> neutron == old(neutron)[p := want])
                && (!exact && !updated ==> neutron == old(neutron) && a == RemoteError)
                && (exact || updated ==> a == if p in existing then Port(existing[p]) else NotReady)
    {
      var gs := Pool(k);
      ChooseFindsAPort(gs, want);
      var i, exact := PickGroup(gs, want);
      if i == |gs| {
        return NotReady;
      }
      PopFacts(gs, i);
      var p := gs[i].ports[|gs[i].ports| - 1];
      OnePoolReplaced(pools, k, PopAt(gs, i));
      pools := pools[k := PopAt(gs, i)];
      if !exact {
        if !updated {
          return RemoteError;
        }
        neutron := neutron[p := want];
      }
      a := if p in existing then Port(existing[p]) else NotReady;
    }

    /** The filing loop of `_populate_pool`, for the VIFs the driver created with groups `want`. */
    method Populate(k: PoolKey, want: set<SgId>, vifs: seq<Vif>)
      requires Valid()
      modifies this`pools, this`existing
      ensures Valid() && pools - {k} == old(pools) - {k}
      ensures Pool(k) ==
              if vifs == [] then old(Pool(k)) else MoveToEnd(FileAll(old(Pool(k)), Sgs(want), Ids(vifs)), Sgs(want))
      ensures Bag(Pool(k)) == old(Bag(Pool(k))) + multiset(Ids(vifs))
      ensures existing == Registered(old(existing), vifs)
    {
      ghost var before := pools;
      for i := 0 to |vifs|
        invariant WellFormed(pools) && pools - {k} == before - {k}
        invariant PoolOf(pools, k) == FileAll(PoolOf(before, k), Sgs(want), Ids(vifs[..i]))
        invariant existing == Registered(old(existing), vifs[..i])
      {
        existing := existing[vifs[i].id := vifs[i]];
        FileFacts(Pool(k), Sgs(want), vifs[i].id);
        OnePoolReplaced(pools, k, File(Pool(k), Sgs(want), vifs[i].id));
        FiledOneMore(PoolOf(before, k), Sgs(want), vifs, i);
        RegisteredOneMore(old(existing), vifs, i);
        pools := pools[k := File(Pool(k), Sgs(want), vifs[i].id)];
      }
      assert vifs[..|vifs|] == vifs;
      FileAllFacts(PoolOf(before, k), Sgs(want), Ids(vifs));
      if vifs != [] {
        MoveFacts(Pool(k), Sgs(want));
        OnePoolReplaced(pools, k, MoveToEnd(Pool(k), Sgs(want)));
        pools := pools[k := MoveToEnd(Pool(k), Sgs(want))];
      }
    }

    /** `release_vif` */
    method ReleaseVif(vif: Vif, k: PoolKey)
      requires Valid()
      modifies this`existing, this`recyclable
      ensures recyclable == old(recyclable)[vif.id := k]
      ensures existing == if vif.id in old(existing) then old(existing) else old(existing)[vif.id := vif]
    {
      if vif.id !in existing {
        existing := existing[vif.id := vif];
      }
      recyclable := recyclable[vif.id := k];
    }

    /** One iteration of the return pass, the remote calls succeeding. */
    method ReturnItem(poolMax: nat, p: PortId, k: PoolKey, key: SgKey)
      requires Valid()
      modifies this`pools, this`existing, this`recyclable, this`neutron
      ensures Snap() == AfterItem(poolMax, old(Snap()), p, k, key)
    {
      var size := GetPoolSize(k);
      if poolMax == 0 || size < poolMax {
        pools := pools[k := MoveToEnd(File(Pool(k), key, p), key)];
      } else if p in existing {
        existing := existing - {p};
        neutron := neutron - {p};
      }
      recyclable := recyclable - {p};
    }

    /** The same, as the next item of a pass. */
    method ReturnNext(poolMax: nat, ghost s0: Snapshot, items: Items, i: nat, key: SgKey, ghost told: Told)
      requires WellFormed(s0.pools) && Lists(items, s0.recyclable) && i < |items| && key == GroupsOf(told, items[i].0)
      requires Snap() == PassAfter(poolMax, s0, items, i, told)
      modifies this`pools, this`existing, this`recyclable, this`neutron
      ensures Snap() == PassAfter(poolMax, s0, items, i + 1, told)
    {
      PassMeets(poolMax, s0, items, i, told);
      ReturnItem(poolMax, items[i].0, items[i].1, key);
    }

    /** `_trigger_return_to_pool`, every remote call succeeding. `items` is the recyclable
        dictionary in its own order and `listed` the ports Neutron's listing returned. */
    method TriggerReturnToPool(c: Limits, items: Items, listed: set<PortId>)
      requires Valid() && Lists(items, recyclable)
      modifies this`pools, this`existing, this`recyclable, this`neutron
      ensures Valid() && recyclable == map[]
      ensures AllReturned(c.poolMax, old(pools), pools, items, |items|)
      ensures var dropped := Dropped(c.poolMax, old(Sizes(pools)), items, |items|);
              existing == old(existing) - dropped && neutron == old(neutron) - (dropped * old(existing).Keys)
      ensures var told := Told(c.debug, listed, old(neutron));
              && FiledUnder(c.poolMax, old(pools), pools, items, |items|, told)
              && NewestLast(c.poolMax, old(pools), pools, items, |items|, told)
    {
      ghost var s0 := Snap();
      ReturnAll(c, items, listed);
      PassDone(c.poolMax, s0, items, Told(c.debug, listed, s0.neutron));
    }

    /** The listing and the loop. */
    method ReturnAll(c: Limits, items: Items, listed: set<PortId>)
      requires Valid() && Lists(items, recyclable)
      modifies this`pools, this`existing, this`recyclable, this`neutron
      ensures Snap() == PassAfter(c.poolMax, old(Snap()), items, |items|, Told(c.debug, listed, old(neutron)))
    {
      ghost var s0, told := Snap(), Told(c.debug, listed, neutron);
      var sgCurrent := Current(Told(c.debug, listed, neutron), recyclable);
      for i := 0 to |items|
        invariant Snap() == PassAfter(c.poolMax, s0, items, i, told)
      {
        KeyIsTold(told, s0.recyclable, items[i].0);
        ReturnNext(c.poolMax, s0, items, i, KeyOf(sgCurrent, items[i].0), told);
      }
    }

    /** A port that a pod gives back and the next pass: it is in its pool again, known and with its
        port in Neutron, or the pool is full and it is gone from both. */
    method ReleaseAndReturn(vif: Vif, k: PoolKey, c: Limits, items: Items, listed: set<PortId>)
      requires Valid() && Lists(items, recyclable[vif.id := k])
      modifies this`pools, this`existing, this`recyclable, this`neutron
      ensures Valid() && recyclable == map[]
      ensures if vif.id in existing then vif.id in Bag(Pool(k)) && (vif.id in neutron <==> vif.id in old(neutron))
              else 0 < c.poolMax <= Size(Pool(k)) && vif.id !in neutron
      ensures vif.id in existing ==> Filed(Pool(k), GroupsOf(Told(c.debug, listed, old(neutron)), vif.id), vif.id)
    {
      ReleaseVif(vif, k);
      ghost var s0 := Snap();
      TriggerReturnToPool(c, items, listed);
      assert vif.id in s0.recyclable.Keys;
      ghost var j :| 0 <= j < |items| && items[j].0 == vif.id;
      PortBackOrGone(c.poolMax, s0, Snap(), items, j);
      if vif.id in existing { BackUnderItsGroups(c.poolMax, s0, Snap(), items, j, Told(c.debug, listed, s0.neutron)); }
    }

    /** One iteration of the return pass of `NestedVIFPool`, the remote calls succeeding: a port without
        room also leaves its trunk and gives its VLAN id back. */
    method NestedReturnItem(poolMax: nat, p: PortId, k: PoolKey, key: SgKey)
      requires Valid()
      modifies this`pools, this`existing, this`recyclable, this`neutron, this`subports, this`vlans
      ensures Snap() == AfterItem(poolMax, old(Snap()), p, k, key)
      ensures var room := poolMax == 0 || old(Size(Pool(k))) < poolMax;
              && subports == (if room then old(subports) else old(subports) - {p})
              && vlans == (if room then old(vlans) else old(vlans) - VlansOf(old(existing), {p}))
    {
      var size := GetPoolSize(k);
      if poolMax == 0 || size < poolMax {
        pools := pools[k := MoveToEnd(File(Pool(k), key, p), key)];
      } else {
        subports := subports - {p};
        if p in existing {
          assert VlansOf(existing, {p}) == {existing[p].vlan};
          vlans := vlans - {existing[p].vlan};
          existing := existing - {p};
          neutron := neutron - {p};
        } else {
          assert VlansOf(existing, {p}) == {};
        }
      }
      recyclable := recyclable - {p};
    }

    method NestedReturnNext(
        poolMax: nat, ghost s0: Snapshot, ghost subs0: set<PortId>, ghost vlans0: set<nat>, items: Items, i: nat,
        key: SgKey, ghost told: Told)
      requires WellFormed(s0.pools) && Lists(items, s0.recyclable) && i < |items| && key == GroupsOf(told, items[i].0)
      requires Snap() == PassAfter(poolMax, s0, items, i, told)
      requires Detached(subs0, vlans0, s0.existing, subports, vlans, Dropped(poolMax, Sizes(s0.pools), items, i))
      modifies this`pools, this`existing, this`recyclable, this`neutron, this`subports, this`vlans
      ensures Snap() == PassAfter(poolMax, s0, items, i + 1, told)
      ensures Detached(subs0, vlans0, s0.existing, subports, vlans, Dropped(poolMax, Sizes(s0.pools), items, i + 1))
    {
      PassMeets(poolMax, s0, items, i, told);
      NextDetached(poolMax, s0, items, i, subs0, vlans0, subports, vlans, existing);
      NestedReturnItem(poolMax, items[i].0, items[i].1, key);
    }

    /** `_trigger_return_to_pool` of `NestedVIFPool`, every remote call succeeding: the accounting is the
        same, and exactly the dropped ports leave their trunks and give their VLAN ids back. */
    method TriggerNestedReturn(c: Limits, items: Items, listed: set<PortId>)
      requires Valid() && Lists(items, recyclable)
      modifies this`pools, this`existing, this`recyclable, this`neutron, this`subports, this`vlans
      ensures Valid() && recyclable == map[]
      ensures AllReturned(c.poolMax, old(pools), pools, items, |items|)
      ensures var dropped := Dropped(c.poolMax, old(Sizes(pools)), items, |items|);
              && existing == old(existing) - dropped && neutron == old(neutron) - (dropped * old(existing).Keys)
              && subports == old(subports) - dropped && vlans == old(vlans) - VlansOf(old(existing), dropped)
      ensures var told := Told(c.debug, listed, old(neutron));
              && FiledUnder(c.poolMax, old(pools), pools, items, |items|, told)
              && NewestLast(c.poolMax, old(pools), pools, items, |items|, told)
    {
      ghost var s0 := Snap();
      NestedReturnAll(c, items, listed);
      PassDone(c.poolMax, s0, items, Told(c.debug, listed, s0.neutron));
    }

    /** The listing and the loop. */
    method NestedReturnAll(c: Limits, items: Items, listed: set<PortId>)
      requires Valid() && Lists(items, recyclable)
      modifies this`pools, this`existing, this`recyclable, this`neutron, this`subports, this`vlans
      ensures Snap() == PassAfter(c.poolMax, old(Snap()), items, |items|, Told(c.debug, listed, old(neutron)))
      ensures Detached(old(subports), old(vlans), old(existing), subports, vlans,
                       Dropped(c.poolMax, old(Sizes(pools)), items, |items|))
    {
      ghost var s0, told := Snap(), Told(c.debug, listed, neutron);
      var sgCurrent := Current(Told(c.debug, listed, neutron), recyclable);
      NothingDetached(subports, vlans, existing);
      for i := 0 to |items|
        invariant Snap() == PassAfter(c.poolMax, s0, items, i, told)
        invariant Detached(old(subports), old(vlans), s0.existing, subports, vlans,
                           Dropped(c.poolMax, Sizes(s0.pools), items, i))
      {
        KeyIsTold(told, s0.recyclable, items[i].0);
        NestedReturnNext(c.poolMax, s0, old(subports), old(vlans), items, i, KeyOf(sgCurrent, items[i].0), told);
      }
    }

    /** The port loop of `remove_sg_from_pools`: clears the groups of each port in Neutron and
        files it under the empty tuple. */
    method DrainPorts(k: PoolKey, ports: seq<PortId>, cleared: set<SgId>)
      requires Valid()
      modifies this`pools, this`neutron
      ensures Valid() && pools - {k} == old(pools) - {k}
      ensures Pool(k) == FileAll(old(Pool(k)), NO_GROUPS, ports)
      ensures neutron == SetAll(old(neutron), ports, cleared)
    {
      ghost var before := pools;
      for i := 0 to |ports|
        invariant WellFormed(pools) && pools - {k} == before - {k}
        invariant PoolOf(pools, k) == FileAll(PoolOf(before, k), NO_GROUPS, ports[..i])
        invariant neutron == SetAll(old(neutron), ports[..i], cleared)
      {
        neutron := neutron[ports[i] := cleared];
        SetOneMore(old(neutron), ports, i, cleared);
        FileOneMore(PoolOf(before, k), NO_GROUPS, ports, i);
        FileFacts(Pool(k), NO_GROUPS, ports[i]);
        OnePoolReplaced(pools, k, File(Pool(k), NO_GROUPS, ports[i]));
        pools := pools[k := File(Pool(k), NO_GROUPS, ports[i])];
      }
      assert ports[..|ports|] == ports;
    }

    /** Removes one group, given by its key and its list, and drains its ports. */
    method DrainGroupOf(k: PoolKey, key: SgKey, ports: seq<PortId>, cleared: set<SgId>) returns (ok: bool)
      requires Valid() && Find(Pool(k), key) < |Pool(k)| && Pool(k)[Find(Pool(k), key)] == Group(key, ports)
      modifies this`pools, this`neutron
      ensures Valid() && pools - {k} == old(pools) - {k}
      ensures ok ==> Pool(k) == DrainGroup(old(Pool(k)), old(Find(Pool(k), key)))
      ensures neutron == SetAll(old(neutron), ports, cleared)
    {
      ghost var gs := Pool(k);
      var i := Find(Pool(k), key);
      WithoutFacts(gs, i);
      OnePoolReplaced(pools, k, Without(gs, i));
      pools := pools[k := Without(Pool(k), i)];
      assert Pool(k) == Without(gs, i);
      DrainPorts(k, ports, cleared);
      ghost var filed := FileAll(Without(gs, i), NO_GROUPS, ports);
      assert Pool(k) == filed;
      ok := Find(Pool(k), NO_GROUPS) < |Pool(k)|;
      if ok {
        MoveFacts(Pool(k), NO_GROUPS);
        OnePoolReplaced(pools, k, MoveToFront(Pool(k), NO_GROUPS));
        pools := pools[k := MoveToFront(Pool(k), NO_GROUPS)];
        assert Pool(k) == MoveToFront(filed, NO_GROUPS);
      }
    }

    /** The body of `remove_sg_from_pools` for one pool. `cleared` is what Neutron reports for a
        port whose groups were set to none. It fails, as the source raises, on a group filed under
        `None`, and on an emptied group when the pool has no group for the empty tuple. */
    method RemoveSgFromPool(sg: SgId, k: PoolKey, cleared: set<SgId>) returns (ok: bool)
      requires Valid()
      modifies this`pools, this`neutron
      ensures Valid() && pools - {k} == old(pools) - {k}
      ensures ok ==> SgRemoved(old(Pool(k)), Pool(k), sg, |old(Pool(k))|)
      ensures ok ==> Cleared(old(neutron), neutron, old(Pool(k)), sg, |old(Pool(k))|, cleared)
    {
      var gs := Pool(k);
      ghost var before := pools;
      for n := 0 to |gs|
        invariant WellFormed(pools) && pools - {k} == before - {k}
        invariant SgRemoved(gs, PoolOf(pools, k), sg, n)
        invariant Cleared(old(neutron), neutron, gs, sg, n, cleared)
      {
        if gs[n].key == Unknown {
          return false;
        }
        ghost var cur, n1 := Pool(k), neutron;
        RemoveStep(gs, cur, sg, n);
        ClearedStep(old(neutron), n1, gs, sg, n, cleared);
        if Hit(gs[n].key, sg) {
          ok := DrainGroupOf(k, gs[n].key, gs[n].ports, cleared);
          if !ok {
            return;
          }
          assert PoolOf(pools, k) == DrainGroup(cur, Find(cur, gs[n].key));
        } else {
          assert PoolOf(pools, k) == cur;
        }
      }
      ok := true;
    }
  }
}
