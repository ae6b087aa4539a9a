/** The buddy tier (`__buddy_list`): power-of-two blocks over a region of any length.

    Positions are granules from the base of the region, sizes asked for are bytes.  Tags
    are one byte per unit of `Pow2(geo.lm)` granules; the two links of a free block are in
    its first granule. */
module BuddyTier {
  import opened Bits
  import opened Granules
  import opened Links
  import opened Tiling
  import opened BuddyState

  /** A granted block: its start in granules and its length in bytes. */
  datatype Chunk = Null | Chunk(pos: nat, len: nat)

  /** Bytes of a block of order `o` (`Min << o`). */
  function OrderSize(geo: Geometry, o: nat): nat {
    16 * Size(geo, o)
  }

  function OrderForSize(geo: Geometry, n: nat): nat
    requires n > 0
  {
    var x := Shr(n - 1, geo.lm + 4);
    Fls(SetBit(x, 0)) + if x != 0 then 1 else 0
  }

  /** The order chosen for `n` bytes is the smallest whose blocks hold them. */
  lemma OrderForSizeIsLeast(geo: Geometry, n: nat)
    requires n > 0
    ensures n <= OrderSize(geo, OrderForSize(geo, n))
    ensures forall o: nat :: n <= OrderSize(geo, o) ==> OrderForSize(geo, n) <= o
  {
    hide Shr, Fls, SetBit, Pow2;
    var x, m := Shr(n - 1, geo.lm + 4), Pow2(geo.lm + 4);
    ShrIsDiv(n - 1, geo.lm + 4);
    OrderForSizeBits(geo, n);
    var f := OrderForSize(geo, n);
    OrderBytes(geo, f);
    MulMono(x + 1, Pow2(f), m);
    forall o: nat | n <= OrderSize(geo, o) ensures f <= o {
      OrderBytes(geo, o);
      if o < f {
        Pow2Mono(o, f - 1);
        MulMono(Pow2(o), x, m);
      }
    }
  }

  lemma OrderBytes(geo: Geometry, o: nat)
    ensures OrderSize(geo, o) == Pow2(o) * Pow2(geo.lm + 4)
  {
    hide Pow2;
    Granular(0, geo.lm + o);
    Pow2Add(o, geo.lm + 4);
    assert o + (geo.lm + 4) == geo.lm + o + 4;
  }

  lemma OrderForSizeBits(geo: Geometry, n: nat)
    requires n > 0
    ensures var x, f := Shr(n - 1, geo.lm + 4), OrderForSize(geo, n);
            if x == 0 then f == 0 else f > 0 && Pow2(f - 1) <= x < Pow2(f)
  {
    hide Shr;
    var x := Shr(n - 1, geo.lm + 4);
    if x != 0 {
      FlsBounds(SetBit(x, 0));
      FlsOfOdd(x);
      FlsBounds(x);
    }
  }

  lemma FlsOfOdd(x: nat)
    requires x > 0
    ensures Fls(SetBit(x, 0)) == Fls(x)
  {
  }

  class Buddy {
    const geo: Geometry
    const units: nat
    const baseAlign: nat
    const checkLinks: bool
    const mem: array<Granule>
    const tags: array<nat>
    const heads: array<nat>
    var mask: nat
    var allocatedBytes: nat
    ghost var tiles: Tiles
    ghost var lists: seq<seq<nat>>

    /** What set-up fixed once and for all. */
    ghost predicate Layout() {
      && mem.Length == geo.total == Shl(units, geo.lm) && tags.Length == units > 0 && tags != heads
      && geo.top == Fls(units) + 1 <= heads.Length <= 63
      && geo.total <= 0x0FFF_FFFF
    }

    /** The tiling and its representation, with the tag of block `hand` not yet settled. */
    ghost predicate Core(hand: nat)
      reads this, mem, tags, heads
    {
      && Layout() && |lists| == heads.Length
      && Represents(geo, mem[..], tags[..], heads[..], lists, tiles, hand)
    }

    ghost predicate Valid()
      reads this, mem, tags, heads
    {
      && Core(NULL)
      && MaskMatches(mask, lists)
      && allocatedBytes == 16 * Weigh(geo, Busy(tiles))
    }

    constructor (lm: nat, mx: nat, units: nat, baseAlign: nat, checkLinks: bool, mem: array<Granule>, tags: array<nat>)
      requires 0 < units && Fls(units) < mx <= 63
      requires mem.Length == Shl(units, lm) <= 0x0FFF_FFFF && tags.Length == units
      modifies mem, tags
      ensures this.geo == Geometry(lm, mem.Length, Fls(units) + 1) && this.units == units
      ensures this.mem == mem && this.tags == tags && this.baseAlign == baseAlign && this.checkLinks == checkLinks
      ensures fresh(heads)
      ensures Valid() && tiles == Decomposition(geo, units, geo.top, 0)
    {
      this.geo := Geometry(lm, mem.Length, Fls(units) + 1);
      this.units, this.baseAlign, this.checkLinks := units, baseAlign, checkLinks;
      this.mem, this.tags := mem, tags;
      this.heads := new nat[mx];
      new;
      Setup();
    }

    /** `__zero_arrays`, the clearing of the tags, and `__seed`. */
    method Setup()
      requires Layout()
      modifies this, heads, tags, mem
      ensures Valid() && tiles == Decomposition(geo, units, geo.top, 0)
    {
      for i := 0 to heads.Length
        invariant forall j :: 0 <= j < i ==> heads[j] == NULL
      {
        heads[i] := NULL;
      }
      for i := 0 to tags.Length
        invariant forall j :: 0 <= j < i ==> tags[j] == TAG_NONE
        invariant forall j :: 0 <= j < heads.Length ==> heads[j] == NULL
      {
        tags[i] := TAG_NONE;
      }
      mask, allocatedBytes := 0, 0;
      tiles, lists := map[], seq(heads.Length, _ => []);
      EmptyState(geo, mem[..], tags[..], heads[..], lists);
      Seed();
    }

    /** Pushes the binary expansion of the unit count, largest block first. */
    method Seed()
      requires Layout() && |lists| == heads.Length && tiles == map[] && allocatedBytes == 0
      requires PartlySeeded(geo, units, mem[..], tags[..], heads[..], lists, tiles, mask, geo.top, 0)
      modifies this, heads, tags, mem
      ensures Valid() && tiles == Decomposition(geo, units, geo.top, 0)
    {
      hide PartlySeeded, Bit, Shr, Size, Fls, Pow2;
      var off: nat, o: nat := 0, geo.top;
      FlsBounds(units);
      Pow2Mono(Fls(units), geo.top);
      while o > 0
        invariant 0 <= o <= geo.top
        invariant |lists| == heads.Length && allocatedBytes == 0
        invariant PartlySeeded(geo, units, mem[..], tags[..], heads[..], lists, tiles, mask, o, off)
      {
        o := o - 1;
        if Bit(units, o) {
          ghost var m0, t0, h0, l0, mask0 := mem[..], tags[..], heads[..], lists, mask;
          SeedRoom(geo, units, m0, t0, h0, lists, tiles, mask, o + 1, off);
          LinkFront(off, o);
          mask := SetBit(mask, o);
          SeedStep(geo, units, m0, t0, h0, l0, tiles, mask0, o, off, mem[..], heads[..]);
          tiles := tiles[off := Tile(o, Free)];
          off := off + Size(geo, o);
        } else {
          SeedSkip(geo, units, mem[..], tags[..], heads[..], lists, tiles, mask, o, off);
        }
      }
      SeedDone(geo, units, mem[..], tags[..], heads[..], lists, tiles, mask, off);
    }

    // ---- lists ---------------------------------------------------------------------------

    predicate LinkValid(n: nat) {
      n == NULL || (n < geo.total && AtUnit(geo, n))
    }

    method LinkFront(g: nat, o: nat)
      requires Layout() && |lists| == heads.Length && o < |lists|
      requires Linked(BuddyLinks, mem[..], heads[..], lists)
      requires g < geo.total && Shr(g, geo.lm) < tags.Length
      requires forall p :: 0 <= p < |lists| ==> g !in lists[p]
      modifies this`lists, heads, tags, mem
      ensures lists == old(lists)[o := [g] + old(lists)[o]]
      ensures Linked(BuddyLinks, mem[..], heads[..], lists)
      ensures tags[..] == old(tags[..])[Shr(g, geo.lm) := TAG_FREE + o]
      ensures forall x :: 0 <= x < mem.Length && mem[x] != old(mem[x]) ==> x == g || x in old(lists)[o]
    {
      hide Linked, Aligned, Shr;
      HeadOf(BuddyLinks, mem[..], heads[..], lists, o);
      ghost var m0, h0 := mem[..], heads[..];
      var head := heads[o];
      mem[g] := WithPrev(BuddyLinks, WithNext(BuddyLinks, mem[g], head), NULL);
      if head != NULL {
        mem[head] := WithPrev(BuddyLinks, mem[head], g);
      }
      heads[o] := g;
      LinkedPush(BuddyLinks, m0, mem[..], h0, lists, o, g);
      assert heads[..] == h0[o := g];
      lists := lists[o := [g] + lists[o]];
      tags[Shr(g, geo.lm)] := TAG_FREE + o;
    }

    /** The link check never fails: it is true of every listed block. */
    method UnlinkCheck(g: nat, o: nat, ghost hand: nat) returns (ok: bool)
      requires Core(hand) && IsFree(tiles, g, o)
      ensures ok
    {
      hide Represents, Linked, AtUnit;
      TileFacts(geo, mem[..], tags[..], heads[..], lists, tiles, hand, g);
      LinkedOf(geo, mem[..], tags[..], heads[..], lists, tiles, hand);
      ghost var i := NodeAt(BuddyLinks, mem[..], heads[..], lists, o, g);
      if checkLinks {
        var next := Next(BuddyLinks, mem[g]);
        var isHead := heads[o] == g;
        var prev := if isHead then NULL else Prev(BuddyLinks, mem[g]);
        assert i + 1 < |lists[o]| ==> next == lists[o][i + 1] && Listed(geo, tiles, o, next);
        assert i > 0 ==> prev == lists[o][i - 1] && Listed(geo, tiles, o, prev);
        if !(LinkValid(next) && LinkValid(prev)) {
          return false;
        }
        var prevOk := isHead || (prev != NULL && Next(BuddyLinks, mem[prev]) == g);
        var nextOk := next == NULL || Prev(BuddyLinks, mem[next]) == g;
        return prevOk && nextOk;
      }
      return true;
    }

    method UnlinkDo(g: nat, o: nat) returns (ghost l: seq<nat>)
      requires Layout() && |lists| == heads.Length && o < |lists| && g in lists[o]
      requires Linked(BuddyLinks, mem[..], heads[..], lists) && MaskMatches(mask, lists)
      modifies this`lists, this`mask, heads, mem
      ensures lists == old(lists)[o := l] && forall x :: x in l <==> x in old(lists)[o] && x != g
      ensures Linked(BuddyLinks, mem[..], heads[..], lists) && MaskMatches(mask, lists)
      ensures forall x :: 0 <= x < mem.Length && mem[x] != old(mem[x]) ==> x in old(lists)[o]
    {
      hide Linked, MaskMatches;
      ghost var i := NodeAt(BuddyLinks, mem[..], heads[..], lists, o, g);
      ghost var m0, h0 := mem[..], heads[..];
      l := Without(lists[o], i);
      var next := Next(BuddyLinks, mem[g]);
      var isHead := heads[o] == g;
      var prev := if isHead then NULL else Prev(BuddyLinks, mem[g]);
      if isHead {
        heads[o] := next;
        LinkedPop(BuddyLinks, m0, h0, lists, o);
        assert l == lists[o][1..] && mem[..] == m0;
        assert heads[..] == h0[o := next];
      } else {
        mem[prev] := WithNext(BuddyLinks, mem[prev], next);
        if next != NULL {
          mem[next] := WithPrev(BuddyLinks, mem[next], prev);
        }
        LinkedRemove(BuddyLinks, m0, mem[..], h0, lists, o, i);
      }
      MaskDrop(mask, lists, o, l);
      lists := lists[o := l];
      HeadOf(BuddyLinks, mem[..], heads[..], lists, o);
      if heads[o] == NULL {
        mask := ClearBit(mask, o);
      }
    }

    /** Settles the block in hand as a free tile (`__push_free`). */
    method PushFree(g: nat, o: nat)
      requires Core(g) && MaskMatches(mask, lists)
      requires g in tiles && !tiles[g].use.Free? && tiles[g].order == o
      requires o + 1 < geo.top ==> !IsFree(tiles, BuddyOf(geo, g, o), o)
      modifies this`lists, this`tiles, this`mask, heads, tags, mem
      ensures Core(NULL) && MaskMatches(mask, lists)
      ensures Busy(tiles) == Busy(old(tiles)) - {g}
      ensures Kept(geo, Busy(old(tiles)) - {g}, old(mem[..]), mem[..])
    {
      hide Represents, Shr, Shl, MaskMatches, Kept, Size, BuddyOf, Busy;
      ghost var m0, tags0, heads0, lists0 := mem[..], tags[..], heads[..], lists;
      TileFacts(geo, m0, tags0, heads0, lists, tiles, g, g);
      LinkedOf(geo, m0, tags0, heads0, lists, tiles, g);
      LinkFront(g, o);
      mask := SetBit(mask, o);
      MaskSet(old(mask), lists0, o, lists[o]);
      PushStep(geo, m0, tags0, heads0, lists0, tiles, g, o, mem[..], heads[..]);
      tiles := tiles[g := Tile(o, Free)];
    }

    // ---- split, merge, grant -----------------------------------------------------------------

    /** The lowest non-empty order at or above `o`, or `max_order`. */
    function FindFreeOrder(o: nat): (r: nat)
      reads this
      ensures r < geo.top ==> o <= r && Bit(mask, r)
      ensures forall j: nat :: o <= j < r && j < geo.top ==> !Bit(mask, j)
    {
      var m := Shr(mask, o);
      FindFreeOrderBits(mask, o, geo.top);
      if m == 0 then geo.top else o + Ctz(m)
    }

    method TakeAndSplit(from: nat, target: nat) returns (g: nat)
      requires Core(NULL) && MaskMatches(mask, lists) && target <= from < geo.top && NonEmpty(lists, from)
      modifies this`lists, this`tiles, this`mask, heads, tags, mem
      ensures Core(g) && MaskMatches(mask, lists)
      ensures g in tiles && tiles[g] == Tile(target, Large) && g !in Busy(old(tiles)) && IsFree(old(tiles), g, from)
      ensures Busy(tiles) == Busy(old(tiles))[g := Tile(target, Large)]
      ensures Kept(geo, Busy(old(tiles)), old(mem[..]), mem[..])
    {
      hide Represents, MaskMatches, Kept, Size, Busy, SetRange;
      var next;
      g, next := TakeHead(from);
      ghost var rest := Busy(old(tiles));
      var m := if next == NULL then ClearBit(mask, from) else mask;
      var o := from;
      SetRangeEmpty(m, from);
      while o > target
        invariant target <= o <= from && Core(g) && mask == old(mask)
        invariant MaskMatches(SetRange(m, o, from), lists)
        invariant g in tiles && tiles[g] == Tile(o, Large) && Busy(tiles) == rest[g := Tile(o, Large)]
        invariant Kept(geo, rest, old(mem[..]), mem[..])
      {
        o := o - 1;
        ghost var m1, l1 := mem[..], lists;
        SplitOnce(g, o);
        MaskSetLower(m, l1, o + 1, from, lists[o]);
        assert (rest[g := Tile(o + 1, Large)] - {g}) == rest;
        KeptTrans(geo, rest, old(mem[..]), m1, mem[..]);
      }
      mask := SetRange(m, target, from);
    }

    /** The first half of `__take_and_split`: the head of list `from` is popped and in hand.  The
        head exists, and its successor always passes the link check. */
    method TakeHead(from: nat) returns (g: nat, next: nat)
      requires Core(NULL) && MaskMatches(mask, lists) && from < geo.top && NonEmpty(lists, from)
      modifies this`lists, this`tiles, heads
      ensures Core(g) && MaskMatches(if next == NULL then ClearBit(mask, from) else mask, lists)
      ensures g in tiles && tiles[g] == Tile(from, Large) && g !in Busy(old(tiles)) && IsFree(old(tiles), g, from)
      ensures Busy(tiles) == Busy(old(tiles))[g := Tile(from, Large)]
      ensures Kept(geo, Busy(old(tiles)), mem[..], mem[..])
    {
      hide Represents, MaskMatches, Kept, Size, Busy, Linked;
      ghost var h0, l := heads[..], lists[from][1..];
      LinkedOf(geo, mem[..], tags[..], h0, lists, tiles, NULL);
      HeadOf(BuddyLinks, mem[..], h0, lists, from);
      LinkedPop(BuddyLinks, mem[..], h0, lists, from);
      ghost var i := NodeAt(BuddyLinks, mem[..], h0, lists, from, lists[from][0]);
      g := heads[from];
      next := Next(BuddyLinks, mem[g]);
      assert next != NULL ==> next in lists[from];
      if checkLinks && !LinkValid(next) {
        next := NULL;
      }
      heads[from] := next;
      assert heads[..] == h0[from := next];
      MaskDrop(mask, lists, from, l);
      PopStep(geo, mem[..], tags[..], h0, lists, tiles, g, from, l, mem[..], heads[..]);
      lists, tiles := lists[from := l], tiles[g := Tile(from, Large)];
    }

    /** One turn of the splitting loop: the upper half becomes a free tile of order `o`. */
    method SplitOnce(g: nat, o: nat)
      requires Core(g) && g in tiles && !tiles[g].use.Free? && tiles[g].order == o + 1
      modifies this`lists, this`tiles, heads, tags, mem
      ensures Core(g) && o < |lists| && lists[o] != [] && lists == old(lists)[o := lists[o]]
      ensures g in tiles && tiles[g] == Tile(o, old(tiles)[g].use)
      ensures Busy(tiles) == Busy(old(tiles))[g := Tile(o, old(tiles)[g].use)]
      ensures Kept(geo, Busy(old(tiles)) - {g}, old(mem[..]), mem[..])
    {
      hide Represents, Kept, Size, Busy, Linked, Shr, Aligned;
      ghost var m0, tags0, h0, l0 := mem[..], tags[..], heads[..], lists;
      TileFacts(geo, m0, tags0, h0, lists, tiles, g, g);
      UpperHalf(geo, m0, tags0, h0, lists, tiles, g, o);
      LinkedOf(geo, m0, tags0, h0, lists, tiles, g);
      LinkFront(g + Size(geo, o), o);
      HalveStep(geo, m0, tags0, h0, l0, tiles, g, o, g + Size(geo, o), mem[..], heads[..]);
      tiles := Halve(geo, tiles, g);
    }

    /** Merges the block upwards while its buddy is free, then pushes it. */
    method MergeAndFree(g: nat, o: nat)
      requires Core(NULL) && MaskMatches(mask, lists)
      requires g in tiles && !tiles[g].use.Free? && tiles[g].order == o
      modifies this`lists, this`tiles, this`mask, heads, tags, mem
      ensures Core(NULL) && MaskMatches(mask, lists)
      ensures Busy(tiles) == Busy(old(tiles)) - {g}
      ensures Kept(geo, Busy(old(tiles)) - {g}, old(mem[..]), mem[..])
    {
      hide Represents, MaskMatches, Kept, Size, Busy, Shr, FlipBit;
      ghost var rest := Busy(tiles) - {g};
      TileFacts(geo, mem[..], tags[..], heads[..], lists, tiles, NULL, g);
      TakeInHand(geo, mem[..], tags[..], heads[..], lists, tiles, g);
      var off, k := g, o;
      while k + 1 < geo.top
        invariant k < geo.top && Core(off) && MaskMatches(mask, lists)
        invariant off in tiles && !tiles[off].use.Free? && tiles[off].order == k
        invariant Busy(tiles) - {off} == rest && Kept(geo, rest, old(mem[..]), mem[..])
      {
        var b := FlipBit(off, geo.lm + k);
        BuddyTag(geo, mem[..], tags[..], heads[..], lists, tiles, off, k);
        if b >= geo.total {
          break;
        }
        if tags[Shr(b, geo.lm)] != TAG_FREE + k {
          break;
        }
        ghost var m1 := mem[..];
        off := Absorb(off, k);
        KeptTrans(geo, rest, old(mem[..]), m1, mem[..]);
        k := k + 1;
      }
      ghost var m1 := mem[..];
      PushFree(off, k);
      KeptTrans(geo, rest, old(mem[..]), m1, mem[..]);
    }

    /** One turn of the merging loop.  Its link check passes, so the loop never stops on it. */
    method Absorb(g: nat, o: nat) returns (p: nat)
      requires Core(g) && MaskMatches(mask, lists)
      requires g in tiles && !tiles[g].use.Free? && tiles[g].order == o && o + 1 < geo.top
      requires IsFree(tiles, BuddyOf(geo, g, o), o)
      modifies this`lists, this`tiles, this`mask, heads, tags, mem
      ensures Core(p) && MaskMatches(mask, lists)
      ensures p == Parent(geo, g, o) && p in tiles && tiles[p] == Tile(o + 1, old(tiles)[g].use)
      ensures Busy(tiles) - {p} == Busy(old(tiles)) - {g}
      ensures Kept(geo, Busy(old(tiles)) - {g}, old(mem[..]), mem[..])
    {
      hide Represents, MaskMatches, Kept, Size, Busy, Linked, Shr, FlipBit, SetBit, ClearBit, Aligned;
      ghost var m0, tags0, h0, l0, b := mem[..], tags[..], heads[..], lists, BuddyOf(geo, g, o);
      TileFacts(geo, m0, tags0, h0, lists, tiles, g, b);
      LinkedOf(geo, m0, tags0, h0, lists, tiles, g);
      var ok := UnlinkCheck(FlipBit(g, geo.lm + o), o, g);
      assert ok;
      ghost var l := UnlinkDo(FlipBit(g, geo.lm + o), o);
      JoinStep(geo, m0, tags0, h0, l0, tiles, g, o, l, mem[..], heads[..]);
      KeptSub(geo, Busy(tiles), Busy(tiles) - {g}, m0, mem[..]);
      tags[Shr(SetBit(g, geo.lm + o), geo.lm)] := TAG_NONE;
      assert tags[..] == tags0[Shr(SetBit(g, geo.lm + o), geo.lm) := TAG_NONE];
      p := ClearBit(g, geo.lm + o);
      tiles := Join(geo, tiles, g);
    }

    // ---- allocation ----------------------------------------------------------------------------

    /** Fails exactly when no aligned run of the order is free; then nothing changes.  A grant is the front
        of a free block that fits best. */
    method AllocateOrder(o: nat) returns (c: Chunk)
      requires Valid()
      modifies this`lists, this`tiles, this`mask, this`allocatedBytes, heads, tags, mem
      ensures Valid()
      ensures c.Null? <==> !Servable(geo, old(tiles), o)
      ensures c.Null? ==> tiles == old(tiles) && mem[..] == old(mem[..])
      ensures c.Chunk? ==> c.pos !in Busy(old(tiles)) && c.len == OrderSize(geo, o)
                           && Busy(tiles) == Busy(old(tiles))[c.pos := Tile(o, Large)]
                              && BestFit(geo, old(tiles), o, c.pos)
      ensures Kept(geo, Busy(old(tiles)), old(mem[..]), mem[..])
    {
      hide Represents, MaskMatches, Kept, Size, Busy, Shr, Servable;
      KeptSelf(geo, Busy(tiles), mem[..]);
      NotServableAbove(geo, tiles, o);
      if o >= geo.top {
        return Null;
      }
      var i := FindFreeOrder(o);
      MaskFinds(geo, mem[..], tags[..], heads[..], lists, tiles, mask, o, i);
      if i >= geo.top {
        return Null;
      }
      var g := TakeAndSplit(i, o);
      assert Busy(tiles) - {g} == Busy(old(tiles));
      c := Grant(g, o);
    }

    method Grant(g: nat, o: nat) returns (c: Chunk)
      requires Core(g) && g in tiles && tiles[g] == Tile(o, Large) && MaskMatches(mask, lists)
      requires allocatedBytes == 16 * Weigh(geo, Busy(tiles) - {g})
      modifies this`allocatedBytes, tags
      ensures Valid() && c == Chunk(g, OrderSize(geo, o))
    {
      hide Represents, MaskMatches, Size, Shr, Busy, Weigh;
      GrantStep(geo, mem[..], tags[..], heads[..], lists, tiles, g, g, Large);
      TileFacts(geo, mem[..], tags[..], heads[..], lists, tiles, g, g);
      ghost var t0, rest := tags[..], Busy(tiles) - {g};
      var v: nat := TAG_ALLOC + o;
      tags[Shr(g, geo.lm)] := v;
      assert tags[..] == t0[Shr(g, geo.lm) := v];
      assert tiles == tiles[g := Tile(o, Large)];
      allocatedBytes := allocatedBytes + OrderSize(geo, o);
      WeighAdd(geo, rest, g, Tile(o, Large));
      BusyAt(tiles, g);
      return Chunk(g, OrderSize(geo, o));
    }

    method Allocate(n: nat) returns (c: Chunk)
      requires Valid()
      modifies this`lists, this`tiles, this`mask, this`allocatedBytes, heads, tags, mem
      ensures Valid()
      ensures c.Null? <==> n == 0 || !Servable(geo, old(tiles), OrderForSize(geo, n))
      ensures c.Null? ==> tiles == old(tiles) && mem[..] == old(mem[..])
      ensures c.Chunk? ==> c.pos !in Busy(old(tiles)) && c.len == OrderSize(geo, OrderForSize(geo, n)) >= n
                           && Busy(tiles) == Busy(old(tiles))[c.pos := Tile(OrderForSize(geo, n), Large)]
                           && BestFit(geo, old(tiles), OrderForSize(geo, n), c.pos)
      ensures Kept(geo, Busy(old(tiles)), old(mem[..]), mem[..])
    {
      hide Represents, MaskMatches, Kept, Size, Busy, OrderForSize, Servable, OrderSize, Weigh, BestFit;
      KeptSelf(geo, Busy(tiles), mem[..]);
      if n == 0 {
        return Null;
      }
      OrderForSizeIsLeast(geo, n);
      c := AllocateOrder(OrderForSize(geo, n));
    }

    /** A grant within the recorded base alignment starts at a multiple of the alignment. */
    method AllocateAligned(n: nat, alignment: nat) returns (c: Chunk)
      requires Valid()
      modifies this`lists, this`tiles, this`mask, this`allocatedBytes, heads, tags, mem
      ensures Valid()
      ensures c.Null? <==> n == 0 || !IsPow2(alignment) || alignment > baseAlign
                           || !Servable(geo, old(tiles), AlignedOrder(geo, n, alignment))
      ensures c.Null? ==> tiles == old(tiles) && mem[..] == old(mem[..])
      ensures c.Chunk? ==> c.pos !in Busy(old(tiles)) && c.len == OrderSize(geo, AlignedOrder(geo, n, alignment)) >= n
                           && Busy(tiles) == Busy(old(tiles))[c.pos := Tile(AlignedOrder(geo, n, alignment), Large)]
                           && BestFit(geo, old(tiles), AlignedOrder(geo, n, alignment), c.pos)
                           && 16 * c.pos % alignment == 0
      ensures Kept(geo, Busy(old(tiles)), old(mem[..]), mem[..])
    {
      hide Represents, MaskMatches, Kept, Size, Busy, OrderForSize, Servable, OrderSize, IsPow2, Weigh, AlignedOrder,
           BestFit;
      KeptSelf(geo, Busy(tiles), mem[..]);
      if n == 0 || !IsPow2(alignment) {
        return Null;
      }
      if alignment > baseAlign {
        return Null;
      }
      IsPow2Positive(alignment);
      c := AllocateOrder(AlignedOrder(geo, n, alignment));
      AlignedOrderHolds(geo, n, alignment);
      if c.Chunk? {
        BusyAt(tiles, c.pos);
        TileFacts(geo, mem[..], tags[..], heads[..], lists, tiles, NULL, c.pos);
        AlignedGrant(geo, n, alignment, c.pos);
      }
    }

    /** `servable`: some block of the region could be large enough. */
    predicate CouldServe(n: nat) { n != 0 && OrderForSize(geo, n) < geo.top }

    predicate CouldServeAligned(n: nat, alignment: nat) {
      n != 0 && IsPow2(alignment) && alignment <= baseAlign
          && (IsPow2Positive(alignment); AlignedOrder(geo, n, alignment) < geo.top)
    }

    // ---- queries and release -----------------------------------------------------------------------

    /** `__order_at`: the order of the lent block that starts at byte offset `off`, or -1.  It looks
        only at the tags, so it is exact whatever the memory holds. */
    method OrderAt(off: nat) returns (r: int)
      requires Valid()
      ensures r == if off % 16 == 0 && off / 16 in Busy(tiles) then tiles[off / 16].order else -1
    {
      hide Represents, MaskMatches, Shr, Shl, Aligned, Weigh, Size;
      var g := off / 16;
      Granular(off, geo.lm);
      if g in tiles {
        TileFacts(geo, mem[..], tags[..], heads[..], lists, tiles, NULL, g);
      }
      if off >= 16 * geo.total || !Aligned(off, geo.lm + 4) {
        return -1;
      }
      UnitFacts(geo, mem[..], tags[..], heads[..], lists, tiles, g);
      TagDecodes(tiles, g);
      var t := tags[Shr(off, geo.lm + 4)];
      var o := t % 64;
      return if t / 64 % 2 == 1 && o < geo.top then o else -1;
    }

    method DeallocateOrder(g: nat, o: nat)
      requires Valid() && g in tiles && !tiles[g].use.Free? && tiles[g].order == o
      modifies this`lists, this`tiles, this`mask, this`allocatedBytes, heads, tags, mem
      ensures Valid() && Busy(tiles) == Busy(old(tiles)) - {g}
      ensures Kept(geo, Busy(old(tiles)) - {g}, old(mem[..]), mem[..])
    {
      hide Represents, MaskMatches, Kept, Size, Busy, Weigh;
      TileFacts(geo, mem[..], tags[..], heads[..], lists, tiles, NULL, g);
      BusyAt(tiles, g);
      WeighRemove(geo, Busy(tiles), g);
      allocatedBytes := allocatedBytes - OrderSize(geo, o);
      MergeAndFree(g, o);
    }

    /** Frees the block that starts at byte offset `off`; anything else is refused unchanged. */
    method Deallocate(off: nat) returns (ok: bool)
      requires Valid()
      modifies this`lists, this`tiles, this`mask, this`allocatedBytes, heads, tags, mem
      ensures Valid() && (ok <==> off % 16 == 0 && off / 16 in Busy(old(tiles)))
      ensures !ok ==> tiles == old(tiles) && mem[..] == old(mem[..])
      ensures ok ==> Busy(tiles) == Busy(old(tiles)) - {off / 16}
      ensures ok ==> Kept(geo, Busy(old(tiles)) - {off / 16}, old(mem[..]), mem[..])
    {
      hide Represents, MaskMatches, Kept, Size, Weigh;
      var o := OrderAt(off);
      if o < 0 {
        return false;
      }
      DeallocateOrder(off / 16, o);
      return true;
    }

    /** In-place growth: all or nothing.  When the block really has to grow, it does so exactly when
        it is aligned to the wanted order and the grown block meets no other lent block. */
    method Grow(off: nat, n: nat) returns (len: nat)
      requires Valid()
      modifies this`lists, this`tiles, this`mask, this`allocatedBytes, heads, tags, mem
      ensures Valid()
      ensures off % 16 != 0 || off / 16 !in Busy(old(tiles)) || n == 0 ==> len == 0
      ensures off % 16 == 0 && off / 16 in Busy(old(tiles)) && n > 0 ==>
                var g, o, want := off / 16, old(tiles)[off / 16].order, OrderForSize(geo, n);
                if want <= o then len == OrderSize(geo, o) && tiles == old(tiles)
                else if CanGrow(geo, old(tiles), g, want)
                then len == OrderSize(geo, want) && Busy(tiles) == Busy(old(tiles))[g := Tile(want, Large)]
                else len == 0
      ensures len == 0 ==> tiles == old(tiles) && mem[..] == old(mem[..])
      ensures Kept(geo, Busy(old(tiles)), old(mem[..]), mem[..])
    {
      hide Represents, MaskMatches, Kept, Size, Shr, Aligned, OrderForSize, Weigh, UpperFree, Clear;
      KeptSelf(geo, Busy(tiles), mem[..]);
      var r := OrderAt(off);
      if r < 0 || n == 0 {
        return 0;
      }
      var g, o: nat := off / 16, r;
      var want := OrderForSize(geo, n);
      if want <= o {
        return OrderSize(geo, o);
      }
      if want >= geo.top {
        return 0;
      }
      if !Aligned(g, geo.lm + want) {
        return 0;
      }
      GrowIff(geo, mem[..], tags[..], heads[..], lists, tiles, g, want);
      for j: nat := o to want
        invariant forall i: nat :: o <= i < j ==> UpperFree(geo, tiles, g, i)
        invariant tiles == old(tiles) && Valid() && mem[..] == old(mem[..])
      {
        UpperTag(geo, mem[..], tags[..], heads[..], lists, tiles, NULL, g, j, want);
        var u := g + Size(geo, j);
        if u >= geo.total || tags[Shr(u, geo.lm)] != TAG_FREE + j {
          return 0;
        }
        var ok := UpperCheck(g, u, j);
        assert ok;
      }
      GrowUp(g, o, want);
      return OrderSize(geo, want);
    }

    method UpperCheck(g: nat, u: nat, j: nat) returns (ok: bool)
      requires Valid() && u == g + Size(geo, j) && UpperFree(geo, tiles, g, j)
      ensures ok
    {
      hide Represents, MaskMatches, Size, Weigh;
      ok := UnlinkCheck(u, j, NULL);
    }

    /** The second pass of `grow`: it absorbs what the first pass checked. */
    method GrowUp(g: nat, o: nat, want: nat)
      requires Valid() && g in tiles && !tiles[g].use.Free? && tiles[g].order == o < want < geo.top
      requires Aligned(g, geo.lm + want) && UpperBuddiesFree(geo, tiles, g, o, want)
      modifies this`lists, this`tiles, this`mask, this`allocatedBytes, heads, tags, mem
      ensures Valid() && Busy(tiles) == Busy(old(tiles))[g := Tile(want, Large)]
      ensures Kept(geo, Busy(old(tiles)), old(mem[..]), mem[..])
    {
      hide Represents, MaskMatches, Kept, Size, Shr, Aligned, Weigh, Busy, UpperBuddiesFree;
      ghost var b0, rest := Busy(tiles), Busy(tiles) - {g};
      TakeInHand(geo, mem[..], tags[..], heads[..], lists, tiles, g);
      TileFacts(geo, mem[..], tags[..], heads[..], lists, tiles, NULL, g);
      BusyAt(tiles, g);
      WeighAdd(geo, b0, g, Tile(want, Large));
      for j: nat := o to want
        invariant Core(g) && MaskMatches(mask, lists) && allocatedBytes == old(allocatedBytes)
        invariant g in tiles && !tiles[g].use.Free? && tiles[g].order == j
        invariant UpperBuddiesFree(geo, tiles, g, j, want)
        invariant Busy(tiles) - {g} == rest && Kept(geo, b0, old(mem[..]), mem[..])
      {
        ghost var m1, b1 := mem[..], Busy(tiles);
        BusyAt(tiles, g);
        AbsorbUpper(g, j, want);
        BusyAt(old(tiles), g);
        BusyOver(old(tiles), b1, g, j);
        KeptSub(geo, b1, b0, m1, mem[..]);
        KeptTrans(geo, b0, old(mem[..]), m1, mem[..]);
      }
      ghost var t0 := tags[..];
      GrantStep(geo, mem[..], t0, heads[..], lists, tiles, g, g, Large);
      var v: nat := TAG_ALLOC + want;
      tags[Shr(g, geo.lm)] := v;
      assert tags[..] == t0[Shr(g, geo.lm) := v];
      allocatedBytes := allocatedBytes + (OrderSize(geo, want) - OrderSize(geo, o));
      BusyRegrown(old(tiles), tiles, g, want);
      tiles := tiles[g := Tile(want, Large)];
    }

    method AbsorbUpper(g: nat, j: nat, ghost want: nat)
      requires Core(g) && MaskMatches(mask, lists)
      requires g in tiles && !tiles[g].use.Free? && tiles[g].order == j < want < geo.top
      requires Aligned(g, geo.lm + want) && UpperBuddiesFree(geo, tiles, g, j, want)
      modifies this`lists, this`tiles, this`mask, heads, tags, mem
      ensures Core(g) && MaskMatches(mask, lists)
      ensures g in tiles && tiles[g] == Tile(j + 1, old(tiles)[g].use)
      ensures UpperBuddiesFree(geo, tiles, g, j + 1, want)
      ensures Busy(tiles) - {g} == Busy(old(tiles)) - {g}
      ensures Kept(geo, Busy(old(tiles)), old(mem[..]), mem[..])
    {
      hide Represents, MaskMatches, Kept, Size, Busy, Linked, Shr, FlipBit, SetBit, ClearBit, Aligned;
      ghost var m0, tags0, h0, l0 := mem[..], tags[..], heads[..], lists;
      var u := g + Size(geo, j);
      GrowEnds(geo, g, j, want);
      assert UpperFree(geo, tiles, g, j);
      TileFacts(geo, m0, tags0, h0, lists, tiles, g, u);
      LinkedOf(geo, m0, tags0, h0, lists, tiles, g);
      ghost var l := UnlinkDo(u, j);
      JoinStep(geo, m0, tags0, h0, l0, tiles, g, j, l, mem[..], heads[..]);
      UpperStill(geo, tiles, g, j, want);
      tags[Shr(u, geo.lm)] := TAG_NONE;
      assert tags[..] == tags0[Shr(u, geo.lm) := TAG_NONE];
      tiles := Join(geo, tiles, g);
    }

    /** The size of the largest aligned free run, or 0. */
    method LargestFree() returns (len: nat)
      requires Valid()
      ensures len == 0 <==> forall o: nat :: !Servable(geo, tiles, o)
      ensures len > 0 ==> exists o: nat :: len == OrderSize(geo, o) && Servable(geo, tiles, o)
                                           && forall p: nat :: Servable(geo, tiles, p) ==> p <= o
    {
      hide Represents, MaskMatches, Size, Bit, Fls, Servable, Weigh;
      forall p: nat
        ensures (exists j: nat :: p <= j < geo.top && Bit(mask, j)) <==> Servable(geo, tiles, p)
        ensures forall j: nat :: Bit(mask, j) ==> j < geo.top
      {
        MaskComplete(geo, mem[..], tags[..], heads[..], lists, tiles, mask, p);
      }
      ZeroIff(mask);
      if mask == 0 {
        return 0;
      }
      FlsIsHighest(mask);
      assert Servable(geo, tiles, Fls(mask));
      return OrderSize(geo, Fls(mask));
    }

    // ---- sheets ----------------------------------------------------------------------------------

    method MarkSheet(g: nat)
      requires Valid() && g in tiles && tiles[g].use.Large?
      modifies this`tiles, tags
      ensures Valid() && tiles == old(tiles)[g := Tile(old(tiles)[g].order, Sheet)]
      ensures Busy(tiles) == Busy(old(tiles))[g := Tile(old(tiles)[g].order, Sheet)]
    {
      Retag(g, Sheet);
    }

    method UnmarkSheet(g: nat)
      requires Valid() && g in tiles && tiles[g].use.Sheet?
      modifies this`tiles, tags
      ensures Valid() && tiles == old(tiles)[g := Tile(old(tiles)[g].order, Large)]
      ensures Busy(tiles) == Busy(old(tiles))[g := Tile(old(tiles)[g].order, Large)]
    {
      Retag(g, Large);
    }

    /** `t | 0xC0` marks a sheet, `t & 0x7F` unmarks it; the order bits stay. */
    method Retag(g: nat, use: Use)
      requires Valid() && g in tiles && !tiles[g].use.Free? && !use.Free? && tiles[g].use != use
      modifies this`tiles, tags
      ensures Valid() && tiles == old(tiles)[g := Tile(old(tiles)[g].order, use)]
      ensures Busy(tiles) == Busy(old(tiles))[g := Tile(old(tiles)[g].order, use)]
    {
      hide Represents, MaskMatches, Size, Shr, Weigh, Aligned;
      ghost var t0 := tags[..];
      TileFacts(geo, mem[..], t0, heads[..], lists, tiles, NULL, g);
      GrantStep(geo, mem[..], t0, heads[..], lists, tiles, NULL, g, use);
      WeighAdd(geo, Busy(tiles), g, Tile(tiles[g].order, use));
      var t := tags[Shr(g, geo.lm)];
      tags[Shr(g, geo.lm)] := if use.Sheet? then TAG_SHEET + t % 64 else t % 128;
      ghost var v: nat := KindTag(use) + tiles[g].order;
      assert tags[..] == t0[Shr(g, geo.lm) := v];
      tiles := tiles[g := Tile(tiles[g].order, use)];
    }

    method IsSheetAt(g: nat) returns (b: bool)
      requires Valid() && g < geo.total && Aligned(g, geo.lm)
      ensures b <==> g in tiles && tiles[g].use.Sheet?
    {
      hide Represents, MaskMatches, Shr, Weigh, Aligned;
      UnitFacts(geo, mem[..], tags[..], heads[..], lists, tiles, g);
      TagDecodes(tiles, g);
      return tags[Shr(g, geo.lm)] / 64 * 64 == TAG_SHEET;
    }

    method Used() returns (r: nat)
      requires Valid()
      ensures r == 16 * Weigh(geo, Busy(tiles)) <= 16 * geo.total
    {
      hide TagsMatch, Members, Linked, MaskMatches, Weigh;
      WeighBound(geo, tiles);
      return allocatedBytes;
    }
  }

  // ---- arithmetic of requests ------------------------------------------------------------------------

  /** The order used for `n` bytes at an alignment. */
  function AlignedOrder(geo: Geometry, n: nat, alignment: nat): nat
    requires n > 0 && alignment > 0
  {
    var o, oa := OrderForSize(geo, n), OrderForSize(geo, alignment);
    if oa > o then oa else o
  }

  lemma IsPow2Positive(v: nat)
    requires IsPow2(v)
    ensures v > 0
  {
  }

  lemma AlignedOrderHolds(geo: Geometry, n: nat, alignment: nat)
    requires n > 0 && alignment > 0
    ensures n <= OrderSize(geo, AlignedOrder(geo, n, alignment))
    ensures alignment <= OrderSize(geo, AlignedOrder(geo, n, alignment))
    ensures forall o: nat :: n <= OrderSize(geo, o) && alignment <= OrderSize(geo, o) ==>
              AlignedOrder(geo, n, alignment) <= o
  {
    hide OrderForSize, Pow2;
    OrderForSizeIsLeast(geo, n);
    OrderForSizeIsLeast(geo, alignment);
    Pow2Mono(geo.lm + OrderForSize(geo, n), geo.lm + AlignedOrder(geo, n, alignment));
    Pow2Mono(geo.lm + OrderForSize(geo, alignment), geo.lm + AlignedOrder(geo, n, alignment));
  }

  /** A size is worth trying exactly when the largest order could hold it. */
  lemma CouldServeIff(geo: Geometry, n: nat, alignment: nat)
    requires geo.top > 0 && n > 0 && alignment > 0
    ensures OrderForSize(geo, n) < geo.top <==> n <= OrderSize(geo, geo.top - 1)
    ensures AlignedOrder(geo, n, alignment) < geo.top
            <==> n <= OrderSize(geo, geo.top - 1) && alignment <= OrderSize(geo, geo.top - 1)
  {
    hide OrderForSize, AlignedOrder, Pow2;
    OrderForSizeIsLeast(geo, n);
    AlignedOrderHolds(geo, n, alignment);
    var o, a := OrderForSize(geo, n), AlignedOrder(geo, n, alignment);
    if o < geo.top { Pow2Mono(geo.lm + o, geo.lm + geo.top - 1); }
    if a < geo.top { Pow2Mono(geo.lm + a, geo.lm + geo.top - 1); }
  }

  lemma AlignedGrant(geo: Geometry, n: nat, alignment: nat, g: nat)
    requires n > 0 && IsPow2(alignment) && alignment > 0
    requires Aligned(g, geo.lm + AlignedOrder(geo, n, alignment))
    ensures 16 * g % alignment == 0
  {
    hide OrderForSize, Pow2, Aligned, AlignedOrder, IsPow2, Fls;
    AlignedOrderHolds(geo, n, alignment);
    IsPow2Iff(alignment);
    var k := geo.lm + AlignedOrder(geo, n, alignment);
    Granular(16 * g, k);
    if Fls(alignment) > k + 4 {
      Pow2Mono(k + 4, Fls(alignment));
    }
    AlignedWeaken(16 * g, Fls(alignment), k + 4);
    AlignedIffMod(16 * g, Fls(alignment));
  }

  /** What in-place growth needs. */
  ghost predicate CanGrow(geo: Geometry, t: Tiles, g: nat, want: nat) {
    && want < geo.top && Aligned(g, geo.lm + want)
    && g + Size(geo, want) <= geo.total && Clear(geo, t - {g}, g, Size(geo, want))
  }

  lemma GrowIff(geo: Geometry, mem: seq<Granule>, tags: seq<nat>, heads: seq<nat>, lists: seq<seq<nat>>, t: Tiles,
                g: nat, want: nat)
    requires Represents(geo, mem, tags, heads, lists, t, NULL)
    requires g in t && !t[g].use.Free? && t[g].order < want < geo.top && Aligned(g, geo.lm + want)
    ensures UpperBuddiesFree(geo, t, g, t[g].order, want) <==> CanGrow(geo, t, g, want)
  {
    hide TagsMatch, Members, Linked, Tiled, Merged, Aligned, Size, Clear, UpperBuddiesFree;
    UpperBuddiesFreeIff(geo, t, g, want);
  }

  lemma KeptSelf(geo: Geometry, kept: Tiles, m: seq<Granule>)
    ensures Kept(geo, kept, m, m)
  {
  }

  lemma BusyAt(t: Tiles, g: nat)
    ensures g in Busy(t) <==> g in t && !t[g].use.Free?
    ensures g in Busy(t) ==> Busy(t)[g] == t[g] && Busy(t) == (Busy(t) - {g})[g := t[g]]
  {
  }

  lemma BusyOver(t0: Tiles, b1: Tiles, g: nat, j: nat)
    requires g in t0 && !t0[g].use.Free? && t0[g].order <= j
    requires g in b1 && b1[g].order == j && b1 - {g} == Busy(t0) - {g}
    ensures forall h :: h in Busy(t0) ==> h in b1 && Busy(t0)[h].order <= b1[h].order
  {
    forall h | h in Busy(t0) ensures h in b1 && Busy(t0)[h].order <= b1[h].order {
      if h != g {
        assert h in Busy(t0) - {g};
        assert (b1 - {g})[h] == (Busy(t0) - {g})[h];
      }
    }
  }

  lemma BusyRegrown(t0: Tiles, t: Tiles, g: nat, want: nat)
    requires g in t && Busy(t) - {g} == Busy(t0) - {g}
    ensures Busy(t[g := Tile(want, Large)]) == Busy(t0)[g := Tile(want, Large)]
  {
    var a, b := Busy(t[g := Tile(want, Large)]), Busy(t0)[g := Tile(want, Large)];
    assert a - {g} == Busy(t) - {g};
    assert b - {g} == Busy(t0) - {g};
    assert a == (a - {g})[g := Tile(want, Large)];
    assert b == (b - {g})[g := Tile(want, Large)];
  }

  lemma UnitFacts(geo: Geometry, mem: seq<Granule>, tags: seq<nat>, heads: seq<nat>, lists: seq<seq<nat>>, t: Tiles,
                  g: nat)
    requires Represents(geo, mem, tags, heads, lists, t, NULL) && g < geo.total && Aligned(g, geo.lm)
    ensures Shr(g, geo.lm) < |tags| && tags[Shr(g, geo.lm)] == TagOf(t, g)
    ensures g in t ==> t[g].order < geo.top
  {
    hide TagsMatch, Members, Linked, Merged, Tiled, Aligned, Shr, Shl, TagOf;
    TagIndex(geo, |tags|, g);
    TagAt(geo, tags, t, NULL, g);
    if g in t {
      TilePlace(geo, t, g);
    }
  }
}
