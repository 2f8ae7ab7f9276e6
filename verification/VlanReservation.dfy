/** Bulk creation of trunk subports: the VLAN ids are reserved, the ports created, and all attached
    or none. Other requests reserve, release and attach between any two remote calls. */
module VlanReservation {
  import opened Basics

  type VlanId = nat

  datatype Subport = Subport(vlan: VlanId, port: nat)

  datatype Result = Vifs(vifs: seq<Subport>) | Raised | BindingFailed

  /** Before the n-th remote call, what others have reserved and attached, and how that call ends;
      `binds` is whether Neutron could bind the ports. */
  datatype Others = Others(reserved: nat -> map<VlanId, nat>, trunk: nat -> set<VlanId>, ok: nat -> bool, binds: bool)

  /** The ids reserved by request `who`. */
  ghost function Held(reserved: map<VlanId, nat>, who: nat): set<VlanId> {
    set id | id in reserved && reserved[id] == who
  }

  function Vlans(s: seq<Subport>): set<VlanId> {
    set x | x in s :: x.vlan
  }

  function Ports(s: seq<Subport>): set<nat> {
    set x | x in s :: x.port
  }

  ghost predicate DistinctVlans(s: seq<Subport>) {
    forall i, j :: 0 <= i < j < |s| ==> s[i].vlan != s[j].vlan
  }

  class Driver {
    const me: nat                        // this request
    const range: set<VlanId>             // the ids of the segmentation driver
    const others: Others
    var reserved: map<VlanId, nat>       // each reserved id with its request
    var trunk: set<VlanId>               // the ids in use on the trunk
    var ports: set<nat>                  // the Neutron ports of this request
    var calls: nat
    ghost var undeleted: set<nat>        // the ports whose deletion failed

    ghost predicate Fits(ids: set<VlanId>)
      reads this
    {
      Held(reserved, me) == ids
    }

    constructor (me: nat, range: set<VlanId>, others: Others)
      ensures this.me == me && this.range == range && this.others == others && Fits({}) && ports == {} &&
              undeleted == {}
    {
      this.me, this.range, this.others := me, range, others;
      reserved, trunk, ports, calls := map[], {}, {}, 0;
      undeleted := {};
    }

    /** A remote call: others may have changed anything but what this request holds. */
    method Call() returns (ok: bool)
      modifies this`reserved, this`trunk, this`calls
      ensures Held(reserved, me) == old(Held(reserved, me))
      ensures calls == old(calls) + 1 && ok == others.ok(old(calls))
    {
      var theirs := others.reserved(calls);
      reserved := map id | id in reserved.Keys + theirs.Keys && (Mine(id) || (id in theirs && theirs[id] != me)) ::
                    if Mine(id) then me else theirs[id];
      trunk := others.trunk(calls);
      ok := others.ok(calls);
      calls := calls + 1;
    }

    predicate Mine(id: VlanId)
      reads this
    {
      id in reserved && reserved[id] == me
    }

    /** `allocate_segmentation_id`: an id that is neither reserved nor in the given set, if any. */
    method Allocate(inUse: set<VlanId>) returns (r: Option<VlanId>)
      modifies this`reserved
      ensures r.None? ==> reserved == old(reserved) && range <= inUse + reserved.Keys
      ensures r.Some? ==>
                r.value !in old(reserved) && r.value !in inUse && r.value in range &&
                  reserved == old(reserved)[r.value := me]
    {
      var free := set id | id in range && id !in inUse && id !in reserved;
      if free == {} {
        r := None;
        forall id | id in range ensures id in inUse + reserved.Keys { assert id !in free; }
      } else {
        var id :| id in free;
        reserved := reserved[id := me];
        r := Some(id);
      }
    }

    /** The reservation loop of `_create_subports_info`. */
    method Reserve(num: nat) returns (subports: seq<Subport>, ok: bool)
      requires Fits({})
      modifies this`reserved, this`trunk, this`calls
      ensures |subports| <= num && DistinctVlans(subports) && Fits(Vlans(subports))
      ensures Vlans(subports) <= range && Vlans(subports) !! trunk
      ensures calls == old(calls) + 1 && ok == others.ok(old(calls)) && (!ok ==> subports == [])
      ensures ok && |subports| < num ==> range <= trunk + reserved.Keys
    {
      subports := [];
      ok := Call();
      if !ok {
        return;
      }
      var inUse := trunk;
      var i, stop := 0, false;
      while i < num && !stop
        invariant i <= num && |subports| <= i && calls == old(calls) + 1
        invariant DistinctVlans(subports) && Fits(Vlans(subports)) && inUse == trunk + Vlans(subports)
        invariant Vlans(subports) <= range && Vlans(subports) !! trunk
        invariant if stop then range <= trunk + reserved.Keys else |subports| == i
        decreases num - i
      {
        var r := Allocate(inUse);
        if r.None? {
          stop := true;
        } else {
          ghost var before := subports;
          inUse := inUse + {r.value};
          subports := subports + [Subport(r.value, 0)];
          OneMoreVlan(before, Subport(r.value, 0));
        }
        i := i + 1;
      }
    }

    /** Gives back every reserved id, as the error paths do. */
    method ReleaseAll(subports: seq<Subport>)
      requires Fits(Vlans(subports))
      modifies this`reserved
      ensures Fits({})
    {
      for i := 0 to |subports|
        invariant Held(reserved, me) == Vlans(subports[i..]) - Vlans(subports[..i])
      {
        assert subports[i..] == [subports[i]] + subports[i + 1..];
        assert subports[..i + 1] == subports[..i] + [subports[i]];
        assert Vlans(subports[i..]) == {subports[i].vlan} + Vlans(subports[i + 1..]);
        assert Vlans(subports[..i + 1]) == Vlans(subports[..i]) + {subports[i].vlan};
        ghost var held := Held(reserved, me);
        reserved := reserved - {subports[i].vlan};
        assert Held(reserved, me) == held - {subports[i].vlan};
      }
      assert subports[|subports|..] == [];
    }

    /** Attaches all the subports, or none of them when an id is in use on the trunk. */
    method Attach(subports: seq<Subport>) returns (ok: bool, ghost found: set<VlanId>)
      modifies this`reserved, this`trunk, this`calls
      ensures Held(reserved, me) == old(Held(reserved, me)) && calls == old(calls) + 1
      ensures ok <==> others.ok(old(calls)) && Vlans(subports) !! found
      ensures ok ==> trunk == found + Vlans(subports)
    {
      ok := Call();
      found := trunk;
      ok := ok && Vlans(subports) !! trunk;
      if ok {
        trunk := trunk + Vlans(subports);
      }
    }

    /** Deletes the ports of this request. A failed deletion is passed over, as `delete_ports` does, or
        ends the loop, as in `_check_port_binding`. */
    method DeletePorts(subports: seq<Subport>, tolerant: bool)
      requires ports == Ports(subports) && undeleted == {}
      modifies this`reserved, this`trunk, this`calls, this`ports, this`undeleted
      ensures Held(reserved, me) == old(Held(reserved, me))
      ensures ports <= Ports(subports) && (ports == {} <==> undeleted == {})
      ensures if tolerant then ports == undeleted else |undeleted| <= 1
    {
      var i, stop := 0, false;
      while i < |subports| && !stop
        invariant i <= |subports| && Held(reserved, me) == old(Held(reserved, me))
        invariant undeleted <= ports <= Ports(subports)
        invariant forall x :: x in ports && x !in undeleted ==> x in Ports(subports[i..])
        invariant if stop then |undeleted| == 1 && !tolerant else tolerant || undeleted == {}
        decreases |subports| - i
      {
        assert subports[i..] == [subports[i]] + subports[i + 1..];
        assert Ports(subports[i..]) == {subports[i].port} + Ports(subports[i + 1..]);
        var ok := Call();
        if ok {
          ports, undeleted := ports - {subports[i].port}, undeleted - {subports[i].port};
        } else {
          assert subports[i].port in Ports(subports);
          ports, undeleted := ports + {subports[i].port}, undeleted + {subports[i].port};
          stop := !tolerant;
        }
        i := i + 1;
      }
      if !stop { assert subports[i..] == [] && Ports([]) == {} && ports == undeleted; }
    }

    /** `request_vifs`: VIFs with ids of their own that were free on the trunk, those ids and no
        others reserved, or nothing reserved; a failed binding is the one exit that keeps them. A port
        is left behind exactly when its deletion failed. */
    method RequestVifs(num: nat) returns (r: Result, ghost found: set<VlanId>)
      requires Fits({}) && ports == {} && undeleted == {}
      modifies this
      ensures r.Vifs? ==>
                && |r.vifs| <= num && DistinctVlans(r.vifs) && Fits(Vlans(r.vifs))
                && (r.vifs != [] ==> Vlans(r.vifs) !! found && Vlans(r.vifs) <= trunk && ports == Ports(r.vifs))
      ensures r.Raised? || (r.Vifs? && r.vifs == []) ==> Fits({}) && ports == undeleted
      ensures r.BindingFailed? ==> Held(reserved, me) != {} && !others.binds && (ports == {} <==> undeleted == {})
      ensures r.BindingFailed? ==> |undeleted| <= 1
      ensures r.Raised? <==> !others.ok(old(calls)) || (calls > old(calls) + 1 && !others.ok(old(calls) + 1))
      ensures r.Vifs? && r.vifs != [] ==> others.binds && undeleted == {}
    {
      found := {};
      var subports, ok := Reserve(num);
      if !ok {
        return Raised, found;
      }
      if subports == [] {
        return Vifs([]), found;
      }
      ok := Call();
      if !ok {
        ReleaseAll(subports);
        return Raised, found;
      }
      subports := CreatePorts(subports);
      if !others.binds {
        assert subports[0].vlan in Vlans(subports);
        DeletePorts(subports, false);
        return BindingFailed, found;
      }
      ok, found := Attach(subports);
      if !ok {
        DeletePorts(subports, true);
        ReleaseAll(subports);
        return Vifs([]), found;
      }
      r := Vifs(subports);
    }

    /** Bulk port creation: each subport gets its port. */
    method CreatePorts(subports: seq<Subport>) returns (r: seq<Subport>)
      modifies this`ports
      ensures |r| == |subports| && forall i :: 0 <= i < |r| ==> r[i].vlan == subports[i].vlan
      ensures Vlans(r) == Vlans(subports) && (DistinctVlans(subports) ==> DistinctVlans(r))
      ensures ports == Ports(r)
    {
      var first := calls;
      r := seq(|subports|, i requires 0 <= i < |subports| => Subport(subports[i].vlan, first + i));
      ports := Ports(r);
      forall x | x in subports ensures x.vlan in Vlans(r) {
        var i :| 0 <= i < |subports| && subports[i] == x;
        assert r[i] in r;
      }
      forall x | x in r ensures x.vlan in Vlans(subports) {
        var i :| 0 <= i < |r| && r[i] == x;
        assert subports[i] in subports;
      }
    }
  }

  lemma {:induction false} OneMoreVlan(s: seq<Subport>, x: Subport)
    requires DistinctVlans(s) && x.vlan !in Vlans(s)
    ensures DistinctVlans(s + [x]) && Vlans(s + [x]) == Vlans(s) + {x.vlan}
  {
    forall i | 0 <= i < |s| ensures s[i].vlan != x.vlan { assert s[i] in s; }
  }
}
