/** `bb_allocator::resize` does report more than a block can hold: one kept block for which it must, and a run of
    the default configuration that gets there. */
module Overstated {
  import opened Bits
  import opened Mapping
  import opened RegionTier
  import opened HeapState
  import opened HeapTier
  import opened MallocTier
  import opened Setup
  import opened Extent

  /** In every heap, a small block of 1040 bytes resized to 1030 stays where it is and as it is, and is reported to
      hold 2048. */
  method ResizeOverstates(h: Heap, c: Limits, was: Memory, preserve: nat) returns (m: Memory)
    requires h.Valid() && Sensible(c) && Agree(h, c) && c.rz == 0 && c.small == 1024 && c.min <= 2048
    requires was.Memory? && Find(h.regions, h.Live(), was.ptr).InTlsf? && Find(h.regions, h.Live(), was.ptr).len == 1040
    modifies Footprint(h.regions)
    ensures h.Valid() && h.regions == old(h.regions)
    ensures m == Memory(was.ptr, 2048) && LenOf(Find(h.regions, h.Live(), m.ptr)) == 1040
  {
    hide Heap.Valid, Heap.Live, Heap.Cans, Find, IsPow2, PowerUp, Pow2, Sufficient, ResizeFails, LenInPlace,
         Extent.Extent, Footprint;
    KeptLong(h, c, was);
    m := ResizeReported(h, c, was, 1030, preserve, 16);
  }

  lemma KeptLong(h: Heap, c: Limits, was: Memory)
    requires h.Valid() && Sensible(c) && Agree(h, c) && c.rz == 0 && c.small == 1024 && c.min <= 2048
    requires was.Memory? && Find(h.regions, h.Live(), was.ptr).InTlsf? && Find(h.regions, h.Live(), was.ptr).len == 1040
    ensures LenInPlace(h, was.ptr, 1030, 16) == 1040 && !Sufficient(h, c, was.ptr, 1030, 16)
    ensures !ResizeFails(h, 0, was, 1030, 16) && Extent.Extent(c, 1030, 16) == 2048
  {
    hide Heap.Valid, Heap.Live, Heap.Cans, Find, RegionOf, Whose, IsPow2, PowerUp, Pow2, NoneServes, Separate;
    SixteenIs();
    h.NativelyAligned(was, 16);
    PowersAre();
    PowerIs(11, if 1030 < c.min then c.min else 1030);
    var i, up := h.AtPointer(was.ptr);
  }

  lemma PowersAre()
    ensures Pow2(4) == 16 && Pow2(5) == 32 && Pow2(6) == 64 && Pow2(7) == 128
    ensures Pow2(9) == 512 && Pow2(10) == 1024 && Pow2(11) == 2048
  {
    Eight();
    assert Pow2(4) == 16;
    Pow2Twice(4);
    Pow2Twice(5);
    Pow2Twice(6);
    Pow2Twice(8);
    Pow2Twice(9);
    Pow2Twice(10);
  }

  /** Between two powers of two, the upper one is the next. */
  lemma PowerIs(k: nat, v: nat)
    requires k > 0 && Pow2(k - 1) < v <= Pow2(k)
    ensures PowerUp(v) == Pow2(k)
  {
    hide PowerUp, IsPow2, Pow2;
    PowerUpIs(v);
    IsPow2Iff(PowerUp(v));
    var f := Fls(PowerUp(v));
    if f < k { Pow2Mono(f, k - 1); }
    Pow2Mono(if f < k then f else k, f);
  }

  // ---- a run ---------------------------------------------------------------------------------------------------

  /** The default configuration. */
  const DEFAULT := Config(10, 4, 8, 1024)
  const DEFAULT_LIMITS := Limits(0, 1024, 32)

  lemma DefaultIsSound()
    ensures Sound(DEFAULT) && Sensible(DEFAULT_LIMITS)
    ensures Span(DEFAULT) == 1024 && DataOff(DEFAULT) == 9 && IsPow2(32)
  {
    hide Pow2, IsPow2, Fls;
    PowersAre();
    IsPow2Of(5);
    FlsBounds(16 * DataSpan(DEFAULT));
    Pow2Mono(13, 13);
    Pow2Twice(11);
    Pow2Twice(12);
    Pow2Twice(13);
    FlsUnique(16 * DataSpan(DEFAULT), 13);
  }

  /** A range of at least four sheets has room for one. */
  lemma RoomForSheet(r: Range, p: Plan)
    requires Sane(r, 32, 4096, 20, p) && !r.ext && r.len >= 0x1_0000 && r.raw + r.len < WORD
    ensures p.units >= 512
  {
    hide IsPow2, Pow2, Fls;
    FlsBounds(4096);
    Pow2Mono(10, 20);
    PowersAre();
    RoundUpIs(DataAt(r, 32), p.align);
    assert UnitBytes(p.units + 1, 32) == 32 * p.units + 32;
  }

  /** A fresh heap needs, and can have, a sheet for its first small request. */
  lemma FreshNeeds(h: Heap, r: Range, n: nat)
    requires h.Valid() && |h.regions| == 1 && h.cfg == DEFAULT && h.lm == 1 && h.regions[0].Blank()
    requires Built(r, 1, 4096, 20, h.regions[0]) && !r.ext && r.len >= 0x1_0000 && r.raw + r.len < WORD
             && 1 <= n <= 1024
    ensures h.NeedsSheet(n)
  {
    hide Region.Valid, Region.Blank, Separate, Sane, Pow2, Fls, Shl, Region.FitsNow, Region.CanSmall;
    var g := h.regions[0];
    DefaultIsSound();
    PowersAre();
    TwoIs();
    RoomForSheet(r, Plan(g.base, g.buddy.baseAlign, g.buddy.units));
    FlsUnique(512, 9);
    FlsMono(512, g.buddy.units);
    ShlIsMul(g.buddy.units, 1);
    g.BlankOpens(n);
  }

  /** The first payload of a sheet is an even granule, hence at a multiple of 32 bytes. */
  lemma OpensEven(h: Heap, r: Range, p: nat, n: nat)
    requires h.Valid() && |h.regions| == 1 && Built(r, 1, 4096, 20, h.regions[0])
             && OpensSheet(h.regions, DEFAULT, h.Live(), p, n)
    ensures p % 32 == 0
  {
    hide Region.Valid, Separate, LiveOf, Find, IsPow2, Pow2, BaseAligned, Sane, Shl, Fls, FirstPayload;
    var g := h.regions[0];
    var x := (p - g.base) / 16;
    TwoIs();
    PlanAlign(r, Plan(g.base, g.buddy.baseAlign, g.buddy.units));
    g.BaseIsAligned();
    FirstIsEven(x);
    DefaultIsSound();
    AlignedAddress(g.base, g.buddy.baseAlign, 32, x);
  }

  lemma PlanAlign(r: Range, p: Plan)
    requires Sane(r, 32, 4096, 20, p)
    ensures p.align >= 32
  {
  }

  lemma FirstIsEven(x: nat)
    requires FirstPayload(DEFAULT, x)
    ensures x % 2 == 0
  {
    hide Keep, Pow2, Aligned;
    DefaultIsSound();
    TwoIs();
    KeepFloor(x, 10);
    AlignedWeaken(Keep(x, 10), 1, 10);
    AlignedIffMod(Keep(x, 10), 1);
  }

  /** A small block of less than 97 bytes stays in place for 65, and the power of two above 65 does not fit it. */
  lemma KeptShort(h: Heap, p: nat)
    requires h.Valid() && Agree(h, DEFAULT_LIMITS) && p % 32 == 0
    requires var at := Find(h.regions, h.Live(), p); at.InTlsf? && 65 <= at.len < 97
    ensures 0 < LenInPlace(h, p, 65, 32) <= 96 && !Sufficient(h, DEFAULT_LIMITS, p, 65, 32)
    ensures forall m: Memory :: m.Memory? && m.ptr == p ==> !ResizeFails(h, 0, m, 65, 32)
    ensures Extent.Extent(DEFAULT_LIMITS, 65, 32) == 128
  {
    hide Heap.Valid, Heap.Live, Heap.Cans, Find, RegionOf, Whose, IsPow2, PowerUp, Pow2, NoneServes, Separate;
    PowersAre();
    PowerIs(7, 65);
    DefaultIsSound();
    h.BlockSizes(p);
    var i, up := h.AtPointer(p);
  }

  /** A heap of the default configuration over one range. */
  method Start(r: Range) returns (h: Heap)
    requires r.raw > 0 && r.raw + r.len < WORD && r.len >= 0x1_0000 && !r.ext
    ensures h.Valid() && Agree(h, DEFAULT_LIMITS) && h.cfg == DEFAULT && h.lm == 1 && fresh(h)
            && fresh(Footprint(h.regions))
    ensures |h.regions| == 1 && h.regions[0].Blank() && Built(r, 1, 4096, 20, h.regions[0])
  {
    hide Heap.Valid, Heap.Live, Heap.Mems, IsPow2, Pow2, Sound, Sane, Region.Blank, Built;
    DefaultIsSound();
    TwoIs();
    h := new Heap(DEFAULT, 1, 20, 4096, 2, true);
    var ok := h.Attach(r, 0);
  }

  /** Over any range of at least four sheets: create 65 bytes, then resize them to 65 bytes at an alignment of 32.
      The block stays where it is, holds at most 96 bytes, and is reported to hold 128. */
  method Run(r: Range) returns (h: Heap, first: Memory, m: Memory)
    requires r.raw > 0 && r.raw + r.len < WORD && r.len >= 0x1_0000 && !r.ext
    ensures h.Valid() && h.cfg == DEFAULT && Agree(h, DEFAULT_LIMITS)
    ensures first.Memory? && m == Memory(first.ptr, 128)
    ensures LenOf(Find(h.regions, h.Live(), m.ptr)) <= 96
  {
    hide Heap.Valid, Heap.Live, Heap.Cans, Heap.Mems, Heap.NeedsSheet, Find, IsPow2, AllIntact, Extent.Extent, SameBut,
         Region.Blank, Built, Sufficient, ResizeFails, LenInPlace, RegionOf, FirstPayload, Sensible, Footprint;
    DefaultIsSound();
    h := Start(r);
    FreshNeeds(h, r, 65);
    first := Create(h, DEFAULT_LIMITS, 65, 16);
    OpensEven(h, r, first.ptr, 65);
    KeptShort(h, first.ptr);
    m := ResizeReported(h, DEFAULT_LIMITS, first, 65, 65, 32);
  }
}
