/** The bytes of live blocks, as callers see them through pointers. */
module HeapBytes {
  import opened Bits
  import opened Granules
  import opened Bytes
  import opened Tiling
  import opened RegionState
  import opened RegionTier
  import opened HeapState

  /** The byte at address `a`. */
  function ReadByte(rs: seq<Region>, ms: seq<seq<Granule>>, a: nat): nat
    requires |ms| == |rs|
  {
    var i := RegionOf(rs, a, 0);
    if i < |rs| && (a - rs[i].base) / 16 < |ms[i]| then GetByte(ms[i][(a - rs[i].base) / 16], (a - rs[i].base) % 16)
        else 0
  }

  /** Address `a` belongs to the block at pointer `p`. */
  predicate InBlock(rs: seq<Region>, live: seq<Loans>, p: nat, a: nat)
    requires |live| == |rs|
  {
    p <= a < p + LenOf(Find(rs, live, p))
  }

  /** Every live block but the one at `p` has the same bytes. */
  ghost predicate KeptBut(rs: seq<Region>, live: seq<Loans>, ms: seq<seq<Granule>>, ms': seq<seq<Granule>>, p: nat) {
    && |live| == |ms| == |ms'| == |rs|
    && forall q: nat, a: nat :: q != p && InBlock(rs, live, q, a) ==> ReadByte(rs, ms', a) == ReadByte(rs, ms, a)
  }

  /** Every live block lies in the memory of its region, and no two share a byte. */
  ghost predicate WellPlaced(rs: seq<Region>, live: seq<Loans>) {
    && |live| == |rs| && Separate(rs)
    && (forall i, p: nat, x: nat ::
          0 <= i < |rs| && Holds(rs[i].buddy.geo, live[i], p, x) ==> x < rs[i].buddy.geo.total)
    && (forall i, p: nat, q: nat, x: nat ::
          0 <= i < |rs| && Holds(rs[i].buddy.geo, live[i], p, x) && Holds(rs[i].buddy.geo, live[i], q, x) ==> p == q)
  }

  /** The granules of a found block. */
  lemma WhoseHolds(geo: Geometry, l: Loans, up: nat, b: nat)
    requires Whose(geo, l, up) != Nowhere && b < LenOf(Whose(geo, l, up))
    ensures up % 16 == 0 && Holds(geo, l, up / 16, (up + b) / 16)
  {
    hide Pow2;
    var p := up / 16;
    assert up == 16 * p && (up + b) / 16 == p + b / 16;
    if p > 0 && p - 1 in l.smalls && l.smalls[p - 1] > 0 {
      assert SmallHolds(l, p - 1, p + b / 16);
    } else {
      assert LargeHolds(geo, l, p, p + b / 16);
    }
  }

  /** Where the byte `b` of the block at `p` is. */
  lemma BlockByte(rs: seq<Region>, live: seq<Loans>, p: nat, a: nat) returns (i: nat)
    requires WellPlaced(rs, live) && InBlock(rs, live, p, a)
    ensures i < |rs| && rs[i].base <= p <= a && RegionOf(rs, p, 0) == RegionOf(rs, a, 0) == i
    ensures (p - rs[i].base) % 16 == 0 && Holds(rs[i].buddy.geo, live[i], (p - rs[i].base) / 16, (a - rs[i].base) / 16)
    ensures (a - rs[i].base) / 16 < rs[i].buddy.geo.total
  {
    hide Whose, RegionOf, Separate, Holds;
    i := RegionOf(rs, p, 0);
    WhoseHolds(rs[i].buddy.geo, live[i], p - rs[i].base, a - p);
    RegionUnique(rs, a, i);
  }

  /** No byte belongs to two blocks. */
  lemma BlocksApart(rs: seq<Region>, live: seq<Loans>, p: nat, q: nat, a: nat)
    requires WellPlaced(rs, live) && InBlock(rs, live, p, a) && InBlock(rs, live, q, a)
    ensures p == q
  {
    hide Find, RegionOf, Separate, Holds;
    var i := BlockByte(rs, live, p, a);
    var j := BlockByte(rs, live, q, a);
    assert (p - rs[i].base) / 16 == (q - rs[i].base) / 16;
  }

  /** Granules that are the same have the same bytes. */
  lemma IntactBytes(rs: seq<Region>, live: seq<Loans>, ms: seq<seq<Granule>>, ms': seq<seq<Granule>>)
    requires WellPlaced(rs, live) && AllIntact(rs, live, ms, ms')
    ensures forall q: nat, a: nat :: InBlock(rs, live, q, a) ==> ReadByte(rs, ms', a) == ReadByte(rs, ms, a)
  {
    hide Find, RegionOf, WellPlaced, GetByte, Holds, Intact;
    forall q: nat, a: nat | InBlock(rs, live, q, a) ensures ReadByte(rs, ms', a) == ReadByte(rs, ms, a) {
      var i := BlockByte(rs, live, q, a);
      HeldSame(rs[i].buddy.geo, live[i], ms[i], ms'[i], (q - rs[i].base) / 16, (a - rs[i].base) / 16);
    }
  }

  lemma HeldSame(geo: Geometry, l: Loans, m: seq<Granule>, m': seq<Granule>, p: nat, x: nat)
    requires Intact(geo, l, m, m') && Holds(geo, l, p, x)
    ensures |m'| == |m| && (x < |m| ==> m'[x] == m[x])
  {
  }

  /** One byte written. */
  lemma StoreByte(rs: seq<Region>, ms: seq<seq<Granule>>, i: nat, a: nat, b: nat)
    requires |ms| == |rs| && i == RegionOf(rs, a, 0) < |rs| && b < 256
    requires (a - rs[i].base) / 16 < |ms[i]|
    ensures var x := (a - rs[i].base) / 16;
            var ms' := ms[i := ms[i][x := PutByte(ms[i][x], (a - rs[i].base) % 16, b)]];
            forall c: nat :: ReadByte(rs, ms', c) == if c == a then b else ReadByte(rs, ms, c)
  {
    hide RegionOf, GetByte, PutByte;
    var x, k := (a - rs[i].base) / 16, (a - rs[i].base) % 16;
    var ms' := ms[i := ms[i][x := PutByte(ms[i][x], k, b)]];
    forall c: nat ensures ReadByte(rs, ms', c) == if c == a then b else ReadByte(rs, ms, c) {
      if RegionOf(rs, c, 0) == i {
        GranuleBytes(ms[i][x], k, b, (c - rs[i].base) % 16);
      }
    }
  }
}
