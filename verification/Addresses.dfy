/** IP addresses and CIDR blocks as bit strings: a block holds the addresses its prefix begins. */
module Addresses {

  function Width(v6: bool): nat { if v6 then 128 else 32 }

  function Zeros(n: nat): (r: seq<bool>)
    ensures |r| == n
  {
    seq(n, _ => false)
  }

  datatype RawAddress = Address(v6: bool, bits: seq<bool>)
  type Address = a: RawAddress | |a.bits| == Width(a.v6) witness Address(false, Zeros(32))

  datatype RawCidr = Cidr(v6: bool, prefix: seq<bool>)
  type Cidr = c: RawCidr | |c.prefix| <= Width(c.v6) witness Cidr(false, [])

  predicate Holds(c: Cidr, a: Address) {
    c.v6 == a.v6 && c.prefix <= a.bits
  }

  /** The block of a single address. */
  function Host(a: Address): (c: Cidr)
    ensures forall b: Address :: Holds(c, b) <==> a == b
  {
    Cidr(a.v6, a.bits)
  }

  /** Every address of `d` is one of `c`. */
  predicate Covers(c: Cidr, d: Cidr) {
    c.v6 == d.v6 && c.prefix <= d.prefix
  }

  /** `netaddr.cidr_exclude`: the blocks, in order, that make up `c` without `e`. */
  function Exclude(c: Cidr, e: Cidr): seq<Cidr>
    decreases |e.prefix| - |c.prefix|
  {
    if Covers(e, c) then []
    else if !Covers(c, e) then [c]
    else
      var low: Cidr := Cidr(c.v6, c.prefix + [false]);
      var high: Cidr := Cidr(c.v6, c.prefix + [true]);
      if e.prefix[|c.prefix|] then [low] + Exclude(high, e) else Exclude(low, e) + [high]
  }

  ghost predicate AnyHolds(cs: seq<Cidr>, a: Address) {
    exists c :: c in cs && Holds(c, a)
  }

  lemma {:induction false} AnyHoldsConcat(x: seq<Cidr>, y: seq<Cidr>, a: Address)
    ensures AnyHolds(x + y, a) <==> AnyHolds(x, a) || AnyHolds(y, a)
  { }

  lemma {:induction false} AnyHoldsMore(cs: seq<Cidr>, c: Cidr)
    ensures forall a :: AnyHolds(cs + [c], a) <==> AnyHolds(cs, a) || Holds(c, a)
  {
    forall a ensures AnyHolds(cs + [c], a) <==> AnyHolds(cs, a) || Holds(c, a) {
      if Holds(c, a) { assert c in cs + [c]; }
    }
  }

  /** A block is its two halves. */
  lemma {:induction false} Halves(c: Cidr, a: Address)
    requires |c.prefix| < Width(c.v6)
    ensures Holds(c, a) <==> Holds(Cidr(c.v6, c.prefix + [false]), a) || Holds(Cidr(c.v6, c.prefix + [true]), a)
  {
    var n := |c.prefix|;
    Through(c, Cidr(c.v6, c.prefix + [false]), a);
    Through(c, Cidr(c.v6, c.prefix + [true]), a);
    if Holds(c, a) {
      assert a.bits[..n + 1] == c.prefix + [a.bits[n]];
      assert Holds(Cidr(c.v6, c.prefix + [a.bits[n]]), a);
      assert a.bits[n] == true || a.bits[n] == false;
    }
  }

  /** What is left is exactly the block without the excluded one. */
  lemma {:induction false} ExcludeIsExact(c: Cidr, e: Cidr, a: Address)
    ensures AnyHolds(Exclude(c, e), a) <==> Holds(c, a) && !Holds(e, a)
    decreases |e.prefix| - |c.prefix|
  {
    if Covers(e, c) {
      assert Exclude(c, e) == [];
      Through(e, c, a);
    } else if !Covers(c, e) {
      assert Exclude(c, e) == [c];
      Apart(c, e, a);
    } else {
      var low: Cidr := Cidr(c.v6, c.prefix + [false]);
      var high: Cidr := Cidr(c.v6, c.prefix + [true]);
      Halves(c, a);
      if e.prefix[|c.prefix|] {
        ExcludeIsExact(high, e, a);
        AnyHoldsConcat([low], Exclude(high, e), a);
        Apart(low, e, a);
      } else {
        ExcludeIsExact(low, e, a);
        AnyHoldsConcat(Exclude(low, e), [high], a);
        Apart(high, e, a);
      }
    }
  }

  lemma {:induction false} Through(c: Cidr, d: Cidr, a: Address)
    requires Covers(c, d)
    ensures Holds(d, a) ==> Holds(c, a)
  { }

  /** Blocks that do not nest have no address in common. */
  lemma {:induction false} Apart(c: Cidr, d: Cidr, a: Address)
    requires !Covers(c, d) && !Covers(d, c)
    ensures !(Holds(c, a) && Holds(d, a))
  {
    assert |c.prefix| <= |d.prefix| ==> Holds(c, a) ==> Holds(d, a) ==> c.prefix <= d.prefix;
  }

  lemma {:induction false} NothingLeft(c: Cidr, e: Cidr)
    ensures Exclude(c, e) == [] <==> Covers(e, c)
  { }

  /** The first address of a block, then bit `b` after the prefix. */
  function Sample(c: Cidr, b: bool): (a: Address)
    ensures Holds(c, a)
    ensures |c.prefix| < Width(c.v6) ==> a.bits[|c.prefix|] == b
  {
    if |c.prefix| == Width(c.v6) then Address(c.v6, c.prefix)
    else Address(c.v6, c.prefix + [b] + Zeros(Width(c.v6) - |c.prefix| - 1))
  }

  /** Two blocks that hold the same addresses are the same block. */
  lemma {:induction false} SameAddressesSameBlock(c: Cidr, d: Cidr)
    requires forall a: Address :: Holds(c, a) <==> Holds(d, a)
    ensures c == d
  {
    assert Holds(d, Sample(c, false)) && Holds(d, Sample(c, true));
    assert Holds(c, Sample(d, false)) && Holds(c, Sample(d, true));
    assert c.v6 == d.v6;
  }
}
