/** `bb_allocator`: a closed form for how much a request will get, and the allocator that reports it. */
module Extent {
  import opened Bits
  import opened Tiling
  import opened BuddyTier
  import opened RegionTier
  import opened HeapState
  import opened HeapBytes
  import opened HeapTier
  import opened MallocTier
  import opened Setup

  const MAX: nat := WORD - 1

  /** The compile-time parameters: red zone, small class and smallest block, in bytes. */
  datatype Limits = Limits(rz: nat, small: nat, min: nat)

  ghost predicate Sensible(c: Limits) {
    c.small % 16 == 0 && c.rz < c.small && IsPow2(c.min) && 16 <= c.min && c.small < 0x1_0000_0000
        && c.min < 0x1_0000_0000
  }

  /** The smallest power of two that is at least `v`. */
  function PowerUp(v: nat): nat { if v <= 1 then 1 else Pow2(Fls(v - 1) + 1) }

  /** What a request of `bytes` bytes at an alignment gets. */
  function Extent(c: Limits, bytes: nat, alignment: nat): int {
    if bytes == 0 then 0
    else if bytes + c.rz > MAX then MAX
    else if alignment <= NATIVE_ALIGNMENT && bytes + c.rz <= c.small then (bytes + c.rz + 15) / 16 * 16 - c.rz
    else BlockExtent(c, if bytes + c.rz < c.min then c.min else bytes + c.rz, alignment)
  }

  /** The same for a whole block of at least `v` bytes. */
  function BlockExtent(c: Limits, v: nat, alignment: nat): int {
    if PowerUp(v) > MAX then MAX
    else (if PowerUp(v) < alignment then alignment else PowerUp(v)) - c.rz
  }

  /** `allocation_extent`, with its bit-counting loop. */
  method AllocationExtent(c: Limits, bytes: nat, alignment: nat) returns (e: int)
    requires Sensible(c) && bytes <= MAX
    ensures e == Extent(c, bytes, alignment)
  {
    hide Pow2, Fls, IsPow2;
    if bytes == 0 {
      return 0;
    }
    if MAX - c.rz < bytes {
      return MAX;
    }
    var want := bytes + c.rz;
    if alignment <= NATIVE_ALIGNMENT && want <= c.small {
      var r := (want + 15) / 16 * 16;
      return (if r < 16 then 16 else r) - c.rz;
    }
    var v: nat := if want < c.min then c.min else want;
    var top: nat, t: nat := 0, v - 1;
    while t > 0
      invariant if t > 0 then Fls(v - 1) == Fls(t) + top else top == Fls(v - 1) + 1
    {
      FlsHalf(t);
      t := t / 2;
      top := top + 1;
    }
    WordIs(top);
    if top >= 64 {
      return MAX;
    }
    var p := Pow2(top);
    return (if p < alignment then alignment else p) - c.rz;
  }

  lemma FlsHalf(t: nat)
    requires t > 0
    ensures if t / 2 > 0 then Fls(t) == Fls(t / 2) + 1 else Fls(t) == 0
  {
  }

  /** The powers of two that fit a word. */
  lemma WordIs(k: nat)
    ensures Pow2(k) > MAX <==> k >= 64
  {
    hide Pow2;
    SixtyFour();
    if k >= 64 {
      Pow2Mono(64, k);
    } else {
      Pow2Mono(k, 63);
      Pow2Add(63, 1);
      TwoIs();
    }
  }

  lemma SixtyFour()
    ensures Pow2(64) == WORD
  {
    Eight();
    hide Pow2;
    Pow2Add(8, 8);
    Pow2Add(16, 16);
    Pow2Add(32, 32);
  }

  lemma Eight()
    ensures Pow2(8) == 256
  {
    assert Pow2(4) == 16;
    hide Pow2;
    Pow2Add(4, 4);
  }

  // ---- properties -----------------------------------------------------------------------------------------

  lemma PowerUpIs(v: nat)
    ensures v <= PowerUp(v) && IsPow2(PowerUp(v)) && PowerUp(v) >= 1
    ensures forall k: nat :: v <= Pow2(k) ==> PowerUp(v) <= Pow2(k)
  {
    hide Pow2, Fls, IsPow2;
    if v <= 1 {
      IsPow2Of(0);
      ZeroPower();
    } else {
      FlsBounds(v - 1);
      Pow2Twice(Fls(v - 1));
      IsPow2Of(Fls(v - 1) + 1);
      forall k: nat | v <= Pow2(k) ensures PowerUp(v) <= Pow2(k) {
        if k < Fls(v - 1) + 1 { Pow2Mono(k, Fls(v - 1)); }
        Pow2Mono(if k < Fls(v - 1) + 1 then k else Fls(v - 1) + 1, k);
      }
    }
  }

  lemma ZeroPower()
    ensures Pow2(0) == 1
  {
  }

  lemma PowerUpMono(a: nat, b: nat)
    requires a <= b
    ensures PowerUp(a) <= PowerUp(b)
  {
    hide PowerUp, Pow2, IsPow2, Fls;
    PowerUpIs(a);
    PowerUpIs(b);
    IsPow2Iff(PowerUp(b));
  }

  lemma PowerUpOfPower(p: nat)
    requires IsPow2(p) && p > 0
    ensures PowerUp(p) == p
  {
    hide PowerUp, Pow2, IsPow2, Fls;
    PowerUpIs(p);
    IsPow2Iff(p);
  }

  /** Never below the request, and never more than a word holds. */
  lemma ExtentHolds(c: Limits, b: nat, alignment: nat)
    requires Sensible(c) && b <= MAX && alignment <= MAX
    ensures b <= Extent(c, b, alignment) <= MAX
    ensures b > 0 ==> Extent(c, b, alignment) > 0
  {
    hide PowerUp, IsPow2;
    PowerUpIs(if b + c.rz < c.min then c.min else b + c.rz);
  }

  /** Below the small class the extent, with its red zone, is the least multiple of 16 that holds the request.
      Beyond it is the least power of two no smaller than the request with its red zone, the smallest block and
      the alignment, if a word holds that. */
  lemma ExtentIsLeast(c: Limits, b: nat, alignment: nat)
    requires Sensible(c) && 0 < b <= MAX && IsPow2(alignment) && 0 < alignment <= MAX
    ensures var e, n := Extent(c, b, alignment) + c.rz, b + c.rz;
            if alignment <= NATIVE_ALIGNMENT && n <= c.small then e % 16 == 0 && n <= e < n + 16
            else if exists k: nat :: Pow2(k) <= MAX && n <= Pow2(k) && c.min <= Pow2(k) then
              && (exists k: nat :: e == Pow2(k))
              && n <= e && c.min <= e && alignment <= e
              && (forall k: nat :: n <= Pow2(k) && c.min <= Pow2(k) && alignment <= Pow2(k) ==> e <= Pow2(k))
            else Extent(c, b, alignment) == MAX
  {
    hide PowerUp, IsPow2, Pow2;
    var n := b + c.rz;
    var v := if n < c.min then c.min else n;
    PowerUpIs(v);
    IsPow2Iff(PowerUp(v));
    IsPow2Iff(alignment);
  }

  /** More bytes never get less. */
  lemma ExtentMono(c: Limits, a: nat, b: nat, alignment: nat)
    requires Sensible(c) && a <= b <= MAX && alignment <= MAX
    ensures Extent(c, a, alignment) <= Extent(c, b, alignment)
  {
    hide PowerUp, IsPow2;
    var va, vb := if a + c.rz < c.min then c.min else a + c.rz, if b + c.rz < c.min then c.min else b + c.rz;
    PowerUpMono(va, vb);
    PowerUpIs(vb);
    PowerUpIs(va);
  }

  /** Asking for what one gets gets the same. */
  lemma ExtentIdempotent(c: Limits, b: nat, alignment: nat)
    requires Sensible(c) && b <= MAX && IsPow2(alignment) && 0 < alignment <= MAX
    ensures Extent(c, b, alignment) >= 0
    ensures Extent(c, Extent(c, b, alignment), alignment) == Extent(c, b, alignment)
  {
    hide PowerUp, IsPow2;
    ExtentHolds(c, b, alignment);
    var v := if b + c.rz < c.min then c.min else b + c.rz;
    PowerUpIs(v);
    PowerUpOfPower(PowerUp(v));
    PowerUpOfPower(alignment);
    PowerUpOfPower(c.min);
    TopPower();
  }

  /** A whole word's worth of bytes has no power of two above it. */
  lemma TopPower()
    ensures PowerUp(MAX) > MAX
  {
    hide PowerUp, IsPow2, Pow2, Fls;
    PowerUpIs(MAX);
    IsPow2Iff(PowerUp(MAX));
    WordIs(Fls(PowerUp(MAX)));
    WordIs(64);
    WordIs(63);
    Pow2Twice(63);
    if PowerUp(MAX) == MAX {
      OddPower(Fls(PowerUp(MAX)));
    }
  }

  lemma OddPower(k: nat)
    ensures Pow2(k) != MAX
  {
  }

  /** As many bytes of `e` as make up whole items of `s` bytes. */
  function Whole(e: nat, s: nat): nat
    requires s > 0
  {
    e / s * s
  }

  /** A container that grows to a whole number of items within its extent keeps its extent. */
  lemma ExtentOfItems(c: Limits, b: nat, s: nat, alignment: nat)
    requires Sensible(c) && b <= MAX && s > 0 && b % s == 0 && IsPow2(alignment) && 0 < alignment <= MAX
    ensures Extent(c, b, alignment) >= 0
    ensures Extent(c, Whole(Extent(c, b, alignment), s), alignment) == Extent(c, b, alignment)
  {
    hide Extent, IsPow2, Whole;
    ExtentHolds(c, b, alignment);
    ExtentIdempotent(c, b, alignment);
    var e: nat := Extent(c, b, alignment);
    WholeItems(b, e, s);
    ExtentMono(c, b, Whole(e, s), alignment);
    ExtentMono(c, Whole(e, s), e, alignment);
  }

  lemma WholeItems(b: nat, e: nat, s: nat)
    requires s > 0 && b % s == 0 && b <= e
    ensures b <= Whole(e, s) <= e
  {
    var q := b / s;
    assert b == q * s;
    assert e / s * s <= e < (e / s + 1) * s;
    MulBelow(q, e / s, s);
    MulMono(q, e / s, s);
  }

  // ---- the allocator -----------------------------------------------------------------------------------------

  /** The parameters a heap was built with. */
  ghost predicate Agree(h: Heap, c: Limits) {
    c.small == h.cfg.smallMax && c.min == 16 * Pow2(h.lm)
  }

  /** `create`: what it reports never exceeds what the block can hold, whichever tier it came from. */
  method Create(h: Heap, c: Limits, bytes: nat, alignment: nat) returns (m: Memory)
    requires h.Valid() && Sensible(c) && Agree(h, c) && bytes <= MAX && alignment <= MAX
    modifies Footprint(h.regions)
    ensures h.Valid() && h.regions == old(h.regions)
    ensures if m.NullMemory? then h.Live() == old(h.Live())
            else m.len == Extent(c, bytes, alignment)
                 && 0 < bytes <= m.len <= LenOf(Find(h.regions, h.Live(), m.ptr)) - c.rz
                 && Find(h.regions, old(h.Live()), m.ptr) == Nowhere
                    && SameBut(h.regions, old(h.Live()), h.Live(), m.ptr)
    ensures 0 < bytes && alignment <= NATIVE_ALIGNMENT && bytes + c.rz < WORD && old(h.NeedsSheet(bytes + c.rz)) ==>
              m.Memory? && OpensSheet(h.regions, h.cfg, h.Live(), m.ptr, bytes + c.rz)
    ensures AllIntact(h.regions, old(h.Live()), old(h.Mems()), h.Mems())
  {
    hide Heap.Valid, Heap.Live, Heap.Mems, AllIntact, Find, SameBut, IsPow2, Extent, Heap.NeedsSheet, OpensSheet;
    AllSame(h.regions, h.Live(), h.Mems());
    if bytes == 0 {
      return NullMemory;
    }
    var g := Obtain(h, c, bytes, alignment);
    if g.NullMemory? {
      return NullMemory;
    }
    var e := AllocationExtent(c, bytes, alignment);
    return Memory(g.ptr, e);
  }

  /** The block `create` takes: it holds the extent. */
  method Obtain(h: Heap, c: Limits, bytes: nat, alignment: nat) returns (g: Memory)
    requires h.Valid() && Sensible(c) && Agree(h, c) && 0 < bytes <= MAX && alignment <= MAX
    modifies Footprint(h.regions)
    ensures h.Valid() && h.regions == old(h.regions)
    ensures UserOutcome(h.regions, old(h.Live()), h.Live(), g, bytes, c.rz)
    ensures g.Memory? ==> 0 < bytes <= Extent(c, bytes, alignment) <= g.len
    ensures alignment <= NATIVE_ALIGNMENT && bytes + c.rz < WORD && old(h.NeedsSheet(bytes + c.rz)) ==>
              g.Memory? && OpensSheet(h.regions, h.cfg, h.Live(), g.ptr, bytes + c.rz)
    ensures AllIntact(h.regions, old(h.Live()), old(h.Mems()), h.Mems())
  {
    hide Heap.Valid, Heap.Live, Heap.Mems, Heap.Cans, Heap.NeedsSheet, AllIntact, Find, SameBut, IsPow2, NoneSmall,
         NoneLarge, Extent, RegionOf, LargeFits, AlignedFits, OpensSheet, Gained, Routed, RouteAligned, Footprint;
    ExtentHolds(c, bytes, alignment);
    if alignment <= NATIVE_ALIGNMENT {
      g := Balloc(h, c.rz, bytes);
      if g.Memory? {
        RoutedWhere(h.regions, h.cfg, old(h.Live()), old(h.Cans(bytes + c.rz)), h.Live(), g.ptr, bytes + c.rz);
        GainedAt(h.regions, old(h.Live()), h.Live(), Memory(g.ptr, g.len + c.rz), bytes + c.rz);
        GrantCovers(h, c, bytes, alignment, g.ptr);
      }
    } else {
      g := AlignedBalloc(h, c.rz, alignment, bytes);
      if g.Memory? {
        AlignedWhere(h.regions, h.cfg, old(h.Live()), h.Live(), g, c.rz, bytes, alignment);
        GrantCovers(h, c, bytes, alignment, g.ptr);
      }
    }
  }

  /** A block suited to a request holds its extent. */
  lemma GrantCovers(h: Heap, c: Limits, bytes: nat, alignment: nat, p: nat)
    requires h.Valid() && Sensible(c) && Agree(h, c) && 0 < bytes && alignment <= MAX
    requires var at := Find(h.regions, h.Live(), p);
             at != Nowhere && bytes + c.rz <= LenOf(at) && Suited(h.cfg, at, bytes + c.rz, alignment)
    ensures Extent(c, bytes, alignment) <= LenOf(Find(h.regions, h.Live(), p)) - c.rz
  {
    hide Heap.Valid, Heap.Live, IsPow2, Find, PowerUp, Extent;
    var at := Find(h.regions, h.Live(), p);
    h.BlockSizes(p);
    if at.InBuddy? {
      BlockHolds(h.lm, at.order, bytes + c.rz, c.min, LenOf(at));
    }
    ExtentWithin(c, bytes, alignment, LenOf(at));
  }

  /** The bytes a whole block is sought for. */
  function Sought(c: Limits, bytes: nat): nat { if bytes + c.rz < c.min then c.min else bytes + c.rz }

  /** The extent fits `len` bytes. */
  predicate ExtentFits(c: Limits, bytes: nat, alignment: nat, len: nat) {
    || (alignment <= NATIVE_ALIGNMENT && bytes + c.rz <= c.small)
    || (PowerUp(Sought(c, bytes)) <= len && alignment <= len)
  }

  lemma ExtentWithin(c: Limits, bytes: nat, alignment: nat, len: nat)
    requires Sensible(c) && 0 < bytes && bytes + c.rz <= len < 0x1_0000_0000 && len % 16 == 0
    ensures Extent(c, bytes, alignment) <= len - c.rz <==> ExtentFits(c, bytes, alignment, len)
  {
    hide IsPow2, PowerUp;
    SmallPower(Sought(c, bytes));
    RoundFits(bytes + c.rz, len);
  }

  lemma SmallPower(v: nat)
    requires v < 0x1_0000_0000
    ensures PowerUp(v) <= MAX
  {
    hide PowerUp, Pow2, IsPow2;
    PowerUpIs(v);
    ThirtyTwo();
  }

  lemma ThirtyTwo()
    ensures Pow2(32) == 0x1_0000_0000
  {
    Eight();
    hide Pow2;
    Pow2Add(8, 8);
    Pow2Add(16, 16);
  }

  lemma RoundFits(want: nat, len: nat)
    requires len % 16 == 0 && want <= len
    ensures (want + 15) / 16 * 16 <= len
  {
  }

  /** A block of an order, as a power of two. */
  lemma BlockHolds(lm: nat, o: nat, want: nat, min: nat, len: nat)
    requires len == 16 * Pow2(lm + o) && want <= len && min == 16 * Pow2(lm)
    ensures PowerUp(if want < min then min else want) <= len
  {
    hide PowerUp, Pow2, IsPow2;
    Granular(0, lm + o);
    Pow2Mono(lm, lm + o);
    PowerUpIs(if want < min then min else want);
  }

  /** The least block that holds `n` bytes is as long as the extent assumes. */
  lemma LeastBlock(geo: Geometry, n: nat, min: nat)
    requires n > 0 && min == 16 * Pow2(geo.lm)
    ensures OrderSize(geo, OrderForSize(geo, n)) == PowerUp(if n < min then min else n)
  {
    hide PowerUp, Pow2, IsPow2, Fls, OrderForSize;
    var o, v := OrderForSize(geo, n), if n < min then min else n;
    OrderForSizeIsLeast(geo, n);
    BlockHolds(geo.lm, o, n, min, OrderSize(geo, o));
    PowerUpIs(v);
    IsPow2Iff(PowerUp(v));
    Granular(0, geo.lm);
    var j := Fls(PowerUp(v));
    if j < geo.lm + 4 { Pow2Mono(j, geo.lm + 4); }
    var k: nat := j - 4 - geo.lm;
    Granular(0, geo.lm + k);
    assert n <= OrderSize(geo, k);
    Pow2Mono(geo.lm + o, geo.lm + k);
  }

  // ---- resizing ---------------------------------------------------------------------------------------------------

  /** When the extent that `resize` is going to report fits the block it is going to return, judged before the
      call.  A block that must move always gets enough.  A whole block kept in place must be as long as the
      alignment, or become so by growing.  A small block kept in place must be asked for a small request at an
      ordinary alignment, or have the length of the power of two and of the alignment all the same. */
  ghost predicate Sufficient(h: Heap, c: Limits, p: nat, bytes: nat, alignment: nat)
    reads h, Footprint(h.regions)
  {
    var at, len := Find(h.regions, h.Live(), p), LenInPlace(h, p, bytes + c.rz, alignment);
    var pow := PowerUp(Sought(c, bytes));
    || len == 0
    || (at.InBuddy? && (alignment <= at.len || alignment <= pow))
    || (at.InTlsf? && ((alignment <= NATIVE_ALIGNMENT && bytes + c.rz <= c.small) || (pow <= len && alignment <= len)))
  }

  /** The condition on the block as it is comes to the fit of the block as it will be. */
  lemma KeptCovers(h: Heap, c: Limits, p: nat, bytes: nat, alignment: nat)
    requires h.Valid() && Sensible(c) && Agree(h, c) && 0 < bytes
    requires LenInPlace(h, p, bytes + c.rz, alignment) > 0
    ensures ExtentFits(c, bytes, alignment, LenInPlace(h, p, bytes + c.rz, alignment))
            <==> Sufficient(h, c, p, bytes, alignment)
  {
    hide Heap.Valid, Heap.Live, IsPow2, Find, PowerUp, RegionOf, Region.GrownTo, Whose;
    KeptIsLive(h, p, bytes + c.rz, alignment);
    if Find(h.regions, h.Live(), p).InBuddy? {
      BuddyInPlace(h, c, p, bytes, alignment);
    }
  }

  /** What can be kept in place is a live block. */
  lemma KeptIsLive(h: Heap, p: nat, n: nat, alignment: nat)
    requires n > 0 && LenInPlace(h, p, n, alignment) > 0
    ensures Find(h.regions, h.Live(), p) != Nowhere
  {
    hide Heap.Live, Find, RegionOf;
  }

  /** A whole block kept in place is as long as before, or as the extent assumes. */
  lemma BuddyInPlace(h: Heap, c: Limits, p: nat, bytes: nat, alignment: nat)
    requires h.Valid() && Sensible(c) && Agree(h, c) && 0 < bytes && Find(h.regions, h.Live(), p).InBuddy?
    requires LenInPlace(h, p, bytes + c.rz, alignment) > 0
    ensures var len, pow := Find(h.regions, h.Live(), p).len, PowerUp(Sought(c, bytes));
            && 16 <= len && LenInPlace(h, p, bytes + c.rz, alignment) == if pow <= len then len else pow
  {
    hide Heap.Valid, Heap.Live, IsPow2, Find, PowerUp, RegionOf, Whose, Pow2, OrderForSize, CanGrow, Fls;
    var at, n := Find(h.regions, h.Live(), p), bytes + c.rz;
    var i, up := h.AtPointer(p);
    h.BlockSizes(p);
    h.UnitOf(i);
    PowerUpIs(Sought(c, bytes));
    if n <= at.len {
      BlockHolds(h.lm, at.order, n, c.min, at.len);
    } else {
      GrowSizes(h.regions[i].buddy.geo, n, at.order);
      LeastBlock(h.regions[i].buddy.geo, n, c.min);
    }
  }

  /** At the ordinary alignment only a small block kept for a request beyond the small class falls short: one that
      is longer than the small class, but not as long as the next power of two. */
  lemma OrdinarySufficient(h: Heap, c: Limits, p: nat, bytes: nat)
    requires h.Valid() && Sensible(c) && Agree(h, c) && 0 < bytes
    ensures var at, n := Find(h.regions, h.Live(), p), bytes + c.rz;
            Sufficient(h, c, p, bytes, NATIVE_ALIGNMENT)
            <==> !(at.InTlsf? && c.small < n <= at.len && ShrunkBytes(at.len, n) < PowerUp(Sought(c, bytes)))
  {
    hide Heap.Valid, Heap.Live, IsPow2, Find, PowerUp, RegionOf, Whose, Pow2, OrderForSize, OrderSize, CanGrow;
    var at, n := Find(h.regions, h.Live(), p), bytes + c.rz;
    if at != Nowhere {
      var i, up := h.AtPointer(p);
      h.BlockSizes(p);
      h.UnitOf(i);
      SixteenIs();
      h.NativelyAligned(Memory(p, at.len), NATIVE_ALIGNMENT);
      if at.InBuddy? {
        ShortestBlock(h.lm, at.order);
      }
    } else if LenInPlace(h, p, n, NATIVE_ALIGNMENT) > 0 {
      KeptIsLive(h, p, n, NATIVE_ALIGNMENT);
    }
  }

  lemma ShortestBlock(lm: nat, o: nat)
    ensures 16 * Pow2(lm + o) >= 16
  {
  }

  /** `resize` reports the extent without looking at the block.  Whether that fits what the block can hold is
      decided by the state before the call. */
  method ResizeReported(h: Heap, c: Limits, was: Memory, bytes: nat, preserve: nat, alignment: nat) returns (m: Memory)
    requires h.Valid() && Sensible(c) && Agree(h, c) && bytes <= MAX && alignment <= MAX
    modifies Footprint(h.regions)
    ensures h.Valid() && h.regions == old(h.regions)
    ensures m.NullMemory? <==> old(ResizeFails(h, c.rz, was, bytes, alignment))
    ensures m.Memory? ==>
            m.len == Extent(c, bytes, alignment)
            && LenOf(Find(h.regions, h.Live(), m.ptr)) >= bytes + c.rz
    ensures m.Memory? && was.Memory? ==>
              Stayed(Memory(m.ptr, LenOf(Find(h.regions, h.Live(), m.ptr))), was.ptr,
                  old(LenInPlace(h, was.ptr, bytes + c.rz, alignment)))
    ensures m.Memory? && was.Memory? ==>
              Resized(h.regions, old(h.Live()), h.Live(), old(h.Mems()), h.Mems(), was,
                      Memory(m.ptr, LenOf(Find(h.regions, h.Live(), m.ptr)) - c.rz), c.rz, bytes, preserve, alignment)
    ensures m.Memory? ==> (m.len <= LenOf(Find(h.regions, h.Live(), m.ptr)) - c.rz <==>
                           was.NullMemory? || old(Sufficient(h, c, was.ptr, bytes, alignment)))
  {
    hide Heap.Valid, Heap.Live, Heap.Mems, Heap.Cans, AllIntact, Find, IsPow2, Extent, Moved, LenInPlace, Sufficient,
         ResizeFails, Resized, Stayed, Sensible, Agree;
    if bytes == 0 {
      FailsOnNothing(h, c.rz, was, alignment);
      if was.Memory? {
        var ok := Dealloc(h, c.rz, was.ptr);
      }
      return NullMemory;
    }
    var g := Resettle(h, c, was, bytes, preserve, alignment);
    if g.NullMemory? {
      return NullMemory;
    }
    ExtentHolds(c, bytes, alignment);
    var e := AllocationExtent(c, bytes, alignment);
    return Memory(g.ptr, e);
  }

  lemma FailsOnNothing(h: Heap, rz: nat, was: Memory, alignment: nat)
    ensures ResizeFails(h, rz, was, 0, alignment)
  {
  }

  /** In place with `len` bytes if that is not 0, elsewhere otherwise. */
  predicate Stayed(m: Memory, p: nat, len: nat) {
    m.Memory? && if len > 0 then m == Memory(p, len) else m.ptr != p
  }

  /** The block `resize` takes. */
  method Resettle(h: Heap, c: Limits, was: Memory, bytes: nat, preserve: nat, alignment: nat) returns (g: Memory)
    requires h.Valid() && Sensible(c) && Agree(h, c) && 0 < bytes <= MAX && alignment <= MAX
    modifies Footprint(h.regions)
    ensures h.Valid() && h.regions == old(h.regions)
    ensures g.NullMemory? <==> old(ResizeFails(h, c.rz, was, bytes, alignment))
    ensures g.Memory? ==> LenOf(Find(h.regions, h.Live(), g.ptr)) == g.len + c.rz >= bytes + c.rz
    ensures g.Memory? && was.Memory? ==>
              Stayed(Memory(g.ptr, g.len + c.rz), was.ptr, old(LenInPlace(h, was.ptr, bytes + c.rz, alignment)))
    ensures g.Memory? && was.Memory? ==>
              Resized(h.regions, old(h.Live()), h.Live(), old(h.Mems()), h.Mems(), was, g, c.rz, bytes, preserve,
                  alignment)
    ensures g.Memory? ==> (Extent(c, bytes, alignment) <= g.len <==>
                           was.NullMemory? || old(Sufficient(h, c, was.ptr, bytes, alignment)))
  {
    hide Heap.Valid, Heap.Live, Heap.Mems, Heap.Cans, AllIntact, Find, IsPow2, Extent, ExtentFits, SamePrefix, KeptBut,
         Moved, LenInPlace, Suited, NoneServes, PowerUp, ResizeFails, SameBut, Footprint;
    ghost var len := if was.Memory? then LenInPlace(h, was.ptr, bytes + c.rz, alignment) else 0;
    if len > 0 {
      KeptCovers(h, c, was.ptr, bytes, alignment);
    }
    g := Resize(h, c.rz, was, bytes, preserve, alignment);
    if g.Memory? {
      ResultFits(h, c, bytes, alignment, g, len);
    }
  }

  /** The extent fits the block that `resize` returns if that is new, or if it fits the length kept. */
  lemma ResultFits(h: Heap, c: Limits, bytes: nat, alignment: nat, g: Memory, len: nat)
    requires h.Valid() && Sensible(c) && Agree(h, c) && 0 < bytes && alignment <= MAX && g.Memory? && bytes <= g.len
    requires LenOf(Find(h.regions, h.Live(), g.ptr)) == g.len + c.rz && (len > 0 ==> len == g.len + c.rz)
    requires len == 0 ==> Suited(h.cfg, Find(h.regions, h.Live(), g.ptr), bytes + c.rz, alignment)
    ensures Extent(c, bytes, alignment) <= g.len <==> len == 0 || ExtentFits(c, bytes, alignment, len)
  {
    hide Heap.Valid, Heap.Live, IsPow2, Find, Extent, ExtentFits, Suited;
    h.BlockSizes(g.ptr);
    if len == 0 {
      GrantCovers(h, c, bytes, alignment, g.ptr);
    } else {
      ExtentWithin(c, bytes, alignment, len);
    }
  }
}
