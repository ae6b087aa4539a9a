/** The heap (`__heap`): a dispatcher over several regions.  Pointers are addresses. */
module HeapTier {
  import opened Bits
  import opened Granules
  import opened Bytes
  import opened Tiling
  import opened Mapping
  import opened BuddyTier
  import opened TlsfState
  import opened TlsfTier
  import opened RegionState
  import opened RegionTier
  import opened HeapState
  import opened HeapBytes
  import opened Setup

  class Heap {
    const cfg: Config
    const lm: nat
    const mx: nat
    const maxAlign: nat
    const maxRegions: nat
    const checkLinks: bool
    var regions: seq<Region>

    constructor (cfg: Config, lm: nat, mx: nat, maxAlign: nat, maxRegions: nat, checkLinks: bool)
      requires Sound(cfg) && lm <= cfg.sheetLog && lm <= 26 && 0 < mx <= 63 && maxRegions >= 1
      ensures Valid() && regions == [] && this.cfg == cfg && this.lm == lm && this.mx == mx && this.maxAlign == maxAlign
      ensures this.maxRegions == maxRegions && this.checkLinks == checkLinks
    {
      this.cfg, this.lm, this.mx, this.maxAlign, this.maxRegions, this.checkLinks := cfg, lm, mx, maxAlign, maxRegions,
          checkLinks;
      this.regions := [];
    }

    /** Every region is sound, and they are apart. */
    ghost predicate Valid()
      reads this, Footprint(regions)
    {
      && Separate(regions) && this !in Footprint(regions) && |regions| <= maxRegions
      && Sound(cfg) && lm <= cfg.sheetLog && lm <= 26 && 0 < mx <= 63
      && (forall i :: 0 <= i < |regions| ==>
         regions[i].Valid() && regions[i].tlsf.cfg == cfg
         && regions[i].buddy.geo.lm == lm)
    }

    ghost function Live(): (l: seq<Loans>)
      reads this, Footprint(regions)
      ensures |l| == |regions|
    {
      LiveOf(regions)
    }

    ghost function Mems(): (m: seq<seq<Granule>>)
      reads this, Footprint(regions)
      ensures |m| == |regions|
    {
      MemsOf(regions)
    }

    ghost function Cans(n: nat): (c: seq<bool>)
      reads this, Footprint(regions)
      ensures |c| == |regions|
    {
      CansOf(regions, n)
    }

    /** A small request for which the first region needs, and can have, one more sheet. */
    ghost predicate NeedsSheet(n: nat)
      reads this, Footprint(regions)
    {
      |regions| > 0 && 1 <= n <= cfg.smallMax && !regions[0].FitsNow(n) && Cans(n)[0]
    }

    /** After a step of region `i` alone: what the others have lent, hold and could do is the same. */
    twostate lemma After(i: nat)
      requires regions == old(regions) && i < |regions|
      requires forall j :: 0 <= j < |regions| && j != i ==> unchanged(regions[j].Repr())
      requires old(Valid()) && regions[i].Valid()
      ensures Valid() && Live() == old(Live())[i := regions[i].Lends()]
              && Mems() == old(Mems())[i := regions[i].Memory()]
      ensures forall n: nat :: Cans(n) == old(Cans(n))[i := regions[i].CanSmall(n)]
    {
      hide Region.Valid, Region.Lends, Region.Memory, Separate, Region.CanSmall;
    }

    // ---- attaching memory --------------------------------------------------------------------------------

    /** `__clear_of_all`: no attached range meets [lo, lo + len). */
    method ClearOfAll(lo: nat, len: nat) returns (b: bool)
      requires Valid() && len > 0
      ensures b <==> ClearOf(regions, lo, len)
    {
      hide Region.Valid, Separate, Sound, Attached, Overlaps;
      for i := 0 to |regions|
        invariant forall j, a: nat :: 0 <= j < i && lo <= a < lo + len ==> !Attached(regions[j], a)
      {
        NotEmpty(i);
        OverlapsIff(regions[i], lo, len);
        if Overlaps(regions[i], lo, len) {
          return false;
        }
      }
      return true;
    }

    /** No attached range is empty. */
    lemma NotEmpty(i: nat)
      requires Valid() && i < |regions|
      ensures regions[i].rawLen > 0
    {
      hide Separate, Sound;
      regions[i].Sized();
      regions[i].HasUnits();
    }

    /** `__attach`.  A range is refused exactly when there are too many regions, it is too small, it wraps
        around, or it or its tags meet a range attached before; otherwise it becomes one more region with
        nothing lent. */
    method Attach(r: Range, tagsAt: nat) returns (ok: bool)
      requires Valid()
      modifies this
      ensures Valid()
      ensures ok <==> Attachable(old(regions), maxRegions, 16 * Pow2(lm), r, tagsAt)
      ensures !ok ==> regions == old(regions)
      ensures ok ==> |regions| == |old(regions)| + 1 && regions[..|old(regions)|] == old(regions)
                     && Live() == old(Live()) + [Loans(map[], map[])] && Mems()[..|old(regions)|] == old(Mems())
                     && Built(r, lm, maxAlign, mx, regions[|old(regions)|]) && regions[|old(regions)|].Blank()
                     && fresh(regions[|old(regions)|].Repr())
    {
      hide Valid, Live, Mems, Sound, Pow2, Sane, ClearOf, Built, Region.Blank;
      Params();
      var min := 16 * Pow2(lm);
      UnitIsSane(lm);
      var fine := Admissible(r, tagsAt);
      if !fine {
        return false;
      }
      var plan := SetUp(r, min, maxAlign, mx);
      if plan.NoPlan? {
        return false;
      }
      Enrol(r, plan);
      return true;
    }

    /** The range becomes a region. */
    method Enrol(r: Range, plan: Plan)
      requires Valid() && |regions| < maxRegions && Sane(r, 16 * Pow2(lm), maxAlign, mx, plan)
      requires r.len > 0 && ClearOf(regions, r.raw, r.len)
      modifies this
      ensures Valid() && |regions| == |old(regions)| + 1 && regions[..|old(regions)|] == old(regions)
      ensures Live() == old(Live()) + [Loans(map[], map[])] && Mems()[..|old(regions)|] == old(Mems())
      ensures Built(r, lm, maxAlign, mx, regions[|old(regions)|]) && regions[|old(regions)|].Blank()
      ensures fresh(regions[|old(regions)|].Repr())
    {
      hide Region.Valid, Separate, LiveOf, MemsOf, Sound, Pow2, Sane, ClearOf, Built, Region.Blank;
      var region := NewRegion(r, plan);
      AddRegion(region);
    }

    lemma Params()
      requires Valid()
      ensures Sound(cfg) && lm <= cfg.sheetLog && lm <= 26 && 0 < mx <= 63 && this !in Footprint(regions)
    {
      hide Sound, Separate, Region.Valid;
    }

    /** The tests of `__attach` on the range and its tags. */
    method Admissible(r: Range, tagsAt: nat) returns (b: bool)
      requires Valid()
      ensures b <==> Admits(regions, maxRegions, r, tagsAt)
    {
      hide Region.Valid, Separate, Sound, ClearOf;
      if |regions| >= maxRegions || r.raw == 0 || r.len == 0 || r.raw + r.len >= WORD {
        return false;
      }
      var clear := ClearOfAll(r.raw, r.len);
      if !clear {
        return false;
      }
      if r.ext {
        if r.extCap == 0 || tagsAt + r.extCap >= WORD || (tagsAt < r.raw + r.len && r.raw < tagsAt + r.extCap) {
          return false;
        }
        clear := ClearOfAll(tagsAt, r.extCap);
        return clear;
      }
      return true;
    }

    method NewRegion(r: Range, plan: Plan) returns (region: Region)
      requires Sound(cfg) && lm <= cfg.sheetLog && lm <= 26 && 0 < mx <= 63
               && Sane(r, 16 * Pow2(lm), maxAlign, mx, plan)
      ensures fresh(region.Repr()) && region.Valid() && region.Lends() == Loans(map[], map[])
      ensures region.tlsf.cfg == cfg && region.buddy.geo.lm == lm && region.raw == r.raw && region.rawLen == r.len
              && InRange(region)
      ensures Built(r, lm, maxAlign, mx, region) && region.Blank()
    {
      hide Region.Valid, Region.Blank, Sound, Pow2, Fls, Shl, IsPow2, RoomAt, DataAt;
      PlanGranules(r, lm, maxAlign, mx, plan);
      var mem := new Granule[Shl(plan.units, lm)];
      var tags := new nat[plan.units];
      region := new Region(r.raw, r.len, plan.base, lm, mx, plan.units, plan.align, checkLinks, cfg, mem, tags);
    }

    method AddRegion(region: Region)
      requires Valid() && |regions| < maxRegions && region.Valid() && region.tlsf.cfg == cfg
               && region.buddy.geo.lm == lm
      requires region.Repr() !! Footprint(regions) && this !in region.Repr() && InRange(region)
      requires region.rawLen > 0 && ClearOf(regions, region.raw, region.rawLen)
      modifies this
      ensures Valid() && regions == old(regions) + [region]
      ensures Live() == old(Live()) + [region.Lends()] && Mems()[..|old(regions)|] == old(Mems())
    {
      hide Region.Valid, Region.Lends, Region.Memory, Sound, Region.Repr;
      forall i | 0 <= i < |regions| ensures regions[i].rawLen > 0 {
        NotEmpty(i);
      }
      SeparateMore(regions, region);
      FootprintMore(regions, region);
      regions := regions + [region];
    }

    // ---- finding -----------------------------------------------------------------------------------------

    /** `region_of`: the region that contains a pointer, if any. */
    method FindRegion(p: nat) returns (i: nat)
      requires Valid()
      ensures i == RegionOf(regions, p, 0)
    {
      hide Region.Valid, Separate;
      i := 0;
      while i < |regions| && !Contains(regions[i], p)
        invariant i <= |regions| && RegionOf(regions, p, 0) == RegionOf(regions, p, i)
      {
        i := i + 1;
      }
    }

    /** `locate`: exact.  Foreign, interior, freed and metadata pointers lead nowhere, whatever callers
        have written. */
    method Locate(p: nat) returns (i: nat, l: Located)
      requires Valid()
      ensures l == Find(regions, Live(), p) && i == RegionOf(regions, p, 0)
      ensures l != Nowhere ==> i < |regions| && Contains(regions[i], p)
                               && l == Whose(regions[i].buddy.geo, Live()[i], p - regions[i].base)
    {
      hide Region.Valid, Separate, LiveOf, Whose, RegionOf;
      i := FindRegion(p);
      if i == |regions| {
        return i, Nowhere;
      }
      l := regions[i].Locate(p - regions[i].base);
    }

    // ---- allocation ------------------------------------------------------------------------------------

    /** What a step of region `i` gives the heap. */
    method Report(i: nat, c: Chunk, n: nat, ghost o: nat, ghost l0: seq<Loans>) returns (m: Memory)
      requires Valid() && i < |regions| && |l0| == |regions| && n > 0 && Live() == l0[i := Live()[i]]
      requires SmallResult(l0[i], Live()[i], c, n) || LargeResult(regions[i].buddy.geo, l0[i], Live()[i], c, n, o)
      ensures m == if c.Null? then NullMemory else Memory(regions[i].base + 16 * c.pos, c.len)
      ensures Valid() && Live() == old(Live()) && Mems() == old(Mems()) && forall k: nat :: Cans(k) == old(Cans(k))
      ensures forall j, k: nat :: 0 <= j < |regions| ==> regions[j].FitsNow(k) == old(regions[j].FitsNow(k))
      ensures Outcome(regions, l0, Live(), m, n)
      ensures m.Memory? ==> RegionOf(regions, m.ptr, 0) == i
      ensures m.Memory? && SmallResult(l0[i], Live()[i], c, n) ==> Find(regions, Live(), m.ptr).InTlsf?
      ensures m.Memory? && LargeResult(regions[i].buddy.geo, l0[i], Live()[i], c, n, o)
              ==> Find(regions, Live(), m.ptr).InBuddy?
    {
      hide Region.Valid, Separate, LiveOf, Whose, RegionOf, Find, Gained, Holds;
      if c.Null? {
        assert l0[i := l0[i]] == l0;
        return NullMemory;
      }
      if SmallResult(l0[i], Live()[i], c, n) {
        WhoseLent(regions[i].buddy.geo, l0[i], Live()[i], c, n);
      } else {
        WhoseLentLarge(regions[i].buddy.geo, l0[i], Live()[i], c, n, o);
      }
      regions[i].LoansApart(c.pos, c.pos, c.pos);
      GainedBy(regions, l0, i, Live()[i], c, n, o);
      GrantedAt(regions, l0, i, Live()[i], c, n, o);
      return Memory(regions[i].base + 16 * c.pos, c.len);
    }

    // One region's answer, and that nothing else has changed.

    method SmallIn(i: nat, n: nat) returns (c: Chunk)
      requires Valid() && i < |regions| && 1 <= n <= cfg.smallMax
      modifies Footprint(regions)
      ensures Valid() && regions == old(regions) && AllIntact(regions, old(Live()), old(Mems()), Mems())
      ensures Live() == old(Live())[i := Live()[i]] && SmallResult(old(Live())[i], Live()[i], c, n)
      ensures c.Null? <==> !old(Cans(n))[i]
      ensures Cans(n) == old(Cans(n))[i := Cans(n)[i]]
    {
      hide Region.Valid, Separate, LiveOf, MemsOf, CansOf, AllIntact, Intact, Region.CanSmall, SmallResult;
      Others(regions, i);
      c := regions[i].SmallAlloc(n);
      After(i);
      IntactAt(regions, old(Live()), old(Mems()), i, Mems()[i]);
    }

    method SmallTryIn(n: nat) returns (c: Chunk)
      requires Valid() && |regions| > 0 && n > 0
      modifies Footprint(regions)
      ensures Valid() && regions == old(regions) && AllIntact(regions, old(Live()), old(Mems()), Mems())
      ensures Live() == old(Live())[0 := Live()[0]] && SmallResult(old(Live())[0], Live()[0], c, n)
      ensures c.Chunk? ==> old(Cans(n))[0] && old(regions[0].FitsNow(n))
      ensures c.Null? ==> !regions[0].FitsNow(n) && Cans(n) == old(Cans(n))
    {
      hide Region.Valid, Separate, LiveOf, MemsOf, CansOf, AllIntact, Intact, SmallResult, FitsIn, Servable;
      Others(regions, 0);
      c := regions[0].SmallTry(n);
      After(0);
      IntactAt(regions, old(Live()), old(Mems()), 0, Mems()[0]);
    }

    method SmallSlowIn(n: nat) returns (c: Chunk)
      requires Valid() && |regions| > 0 && 1 <= n <= cfg.smallMax
      requires !regions[0].FitsNow(n)
      modifies Footprint(regions)
      ensures Valid() && regions == old(regions) && AllIntact(regions, old(Live()), old(Mems()), Mems())
      ensures Live() == old(Live())[0 := Live()[0]] && SmallResult(old(Live())[0], Live()[0], c, n)
      ensures (c.Null? <==> !old(Cans(n))[0]) && (c.Chunk? ==> FirstPayload(cfg, c.pos))
      ensures Cans(n) == old(Cans(n))[0 := Cans(n)[0]]
    {
      hide Region.Valid, Separate, LiveOf, MemsOf, CansOf, AllIntact, Intact, SmallResult, FitsIn, Servable,
           FirstPayload;
      Others(regions, 0);
      c := regions[0].SmallAllocSlow(n);
      After(0);
      IntactAt(regions, old(Live()), old(Mems()), 0, Mems()[0]);
    }

    method LargeIn(i: nat, n: nat) returns (c: Chunk)
      requires Valid() && i < |regions| && n > 0
      modifies Footprint(regions)
      ensures Valid() && regions == old(regions) && AllIntact(regions, old(Live()), old(Mems()), Mems())
      ensures Live() == old(Live())[i := Live()[i]]
      ensures LargeResult(regions[i].buddy.geo, old(Live())[i], Live()[i], c, n, OrderForSize(regions[i].buddy.geo, n))
      ensures c.Null? <==> !LargeFits(regions[i].buddy.geo, cfg, old(Live())[i], n)
    {
      hide Region.Valid, Separate, LiveOf, MemsOf, CansOf, AllIntact, Intact, Servable, OrderForSize, LargeResult,
           Pinned;
      Others(regions, i);
      c := regions[i].LargeAlloc(n);
      After(i);
      IntactAt(regions, old(Live()), old(Mems()), i, Mems()[i]);
    }

    method BuddyIn(n: nat) returns (c: Chunk)
      requires Valid() && |regions| > 0 && n > 0
      modifies Footprint(regions)
      ensures Valid() && regions == old(regions) && AllIntact(regions, old(Live()), old(Mems()), Mems())
      ensures Live() == old(Live())[0 := Live()[0]]
      ensures LargeResult(regions[0].buddy.geo, old(Live())[0], Live()[0], c, n, OrderForSize(regions[0].buddy.geo, n))
      ensures c.Chunk? ==> LargeFits(regions[0].buddy.geo, cfg, old(Live())[0], n)
      ensures c.Null? ==> !Servable(regions[0].buddy.geo, regions[0].buddy.tiles, OrderForSize(regions[0].buddy.geo, n))
    {
      hide Region.Valid, Separate, LiveOf, MemsOf, CansOf, AllIntact, Intact, Servable, OrderForSize, LargeResult,
           Pinned;
      Others(regions, 0);
      regions[0].SpareHides(OrderForSize(regions[0].buddy.geo, n));
      c := regions[0].BuddyAllocate(n);
      After(0);
      IntactAt(regions, old(Live()), old(Mems()), 0, Mems()[0]);
    }

    method LargeSlowIn(n: nat) returns (c: Chunk)
      requires Valid() && |regions| > 0 && n > 0
      requires !Servable(regions[0].buddy.geo, regions[0].buddy.tiles, OrderForSize(regions[0].buddy.geo, n))
      modifies Footprint(regions)
      ensures Valid() && regions == old(regions) && AllIntact(regions, old(Live()), old(Mems()), Mems())
      ensures Live() == old(Live())[0 := Live()[0]]
      ensures LargeResult(regions[0].buddy.geo, old(Live())[0], Live()[0], c, n, OrderForSize(regions[0].buddy.geo, n))
      ensures c.Null? <==> !LargeFits(regions[0].buddy.geo, cfg, old(Live())[0], n)
    {
      hide Region.Valid, Separate, LiveOf, MemsOf, CansOf, AllIntact, Intact, Servable, OrderForSize, LargeResult,
           Pinned;
      Others(regions, 0);
      regions[0].SpareHides(OrderForSize(regions[0].buddy.geo, n));
      c := regions[0].LargeAllocSlow(n);
      After(0);
      IntactAt(regions, old(Live()), old(Mems()), 0, Mems()[0]);
    }

    method AlignedIn(i: nat, n: nat, alignment: nat) returns (c: Chunk)
      requires Valid() && i < |regions| && n > 0 && alignment > 0
      modifies Footprint(regions)
      ensures Valid() && regions == old(regions) && AllIntact(regions, old(Live()), old(Mems()), Mems())
      ensures Live() == old(Live())[i := Live()[i]]
      ensures LargeResult(regions[i].buddy.geo, old(Live())[i], Live()[i], c, n,
              AlignedOrder(regions[i].buddy.geo, n, alignment))
      ensures c.Null? <==> !AlignedFits(regions[i].buddy.geo, cfg, old(Live())[i], regions[i].buddy.baseAlign, n,
              alignment)
      ensures c.Chunk? ==> (regions[i].base + 16 * c.pos) % alignment == 0 && c.len >= alignment
    {
      hide Region.Valid, Separate, LiveOf, MemsOf, CansOf, AllIntact, Intact, Servable, AlignedOrder, Pinned, IsPow2;
      Others(regions, i);
      c := regions[i].LargeAllocAligned(n, alignment);
      AlignedOrderHolds(regions[i].buddy.geo, n, alignment);
      After(i);
      IntactAt(regions, old(Live()), old(Mems()), i, Mems()[i]);
    }

    method BuddyAlignedIn(n: nat, alignment: nat) returns (c: Chunk)
      requires Valid() && |regions| > 0 && n > 0 && alignment > 0
      modifies Footprint(regions)
      ensures Valid() && regions == old(regions) && AllIntact(regions, old(Live()), old(Mems()), Mems())
      ensures Live() == old(Live())[0 := Live()[0]]
      ensures LargeResult(regions[0].buddy.geo, old(Live())[0], Live()[0], c, n,
              AlignedOrder(regions[0].buddy.geo, n, alignment))
      ensures c.Chunk? ==> AlignedFits(regions[0].buddy.geo, cfg, old(Live())[0], regions[0].buddy.baseAlign, n,
              alignment)
      ensures c.Chunk? ==> (regions[0].base + 16 * c.pos) % alignment == 0 && c.len >= alignment
    {
      hide Region.Valid, Separate, LiveOf, MemsOf, CansOf, AllIntact, Intact, Servable, AlignedOrder, Pinned, IsPow2;
      Others(regions, 0);
      regions[0].SpareHides(AlignedOrder(regions[0].buddy.geo, n, alignment));
      c := regions[0].BuddyAllocateAligned(n, alignment);
      AlignedOrderHolds(regions[0].buddy.geo, n, alignment);
      After(0);
      IntactAt(regions, old(Live()), old(Mems()), 0, Mems()[0]);
    }

    // ---- the scans -----------------------------------------------------------------------------------------

    method SmallRest(n: nat) returns (m: Memory)
      requires Valid() && |regions| > 0 && 1 <= n <= cfg.smallMax
      modifies Footprint(regions)
      ensures Valid() && regions == old(regions) && AllIntact(regions, old(Live()), old(Mems()), Mems())
      ensures m.NullMemory? <==> NoneSmall(old(Cans(n)), 1)
      ensures Outcome(regions, old(Live()), Live(), m, n)
      ensures m.Memory? ==> RouteSmall(regions, old(Cans(n)), Live(), m.ptr, 1)
    {
      hide Find, RegionOf, Valid, Live, Mems, Cans, AllIntact, SmallResult, LargeResult, Gained, Footprint;
      ghost var l0, m0, cans := Live(), Mems(), Cans(n);
      AllSame(regions, l0, m0);
      for i := 1 to |regions|
        invariant Valid() && regions == old(regions) && Live() == l0 && AllIntact(regions, l0, m0, Mems())
        invariant forall j :: 0 < j < i ==> !cans[j]
        invariant forall j :: i <= j < |cans| ==> Cans(n)[j] == cans[j]
      {
        ghost var m1 := Mems();
        var c := SmallIn(i, n);
        AllTrans(regions, l0, m0, m1, Mems());
        m := Report(i, c, n, 0, l0);
        if m.Memory? {
          return;
        }
      }
      return NullMemory;
    }

    method LargeRest(n: nat) returns (m: Memory)
      requires Valid() && |regions| > 0 && n > 0
      modifies Footprint(regions)
      ensures Valid() && regions == old(regions) && AllIntact(regions, old(Live()), old(Mems()), Mems())
      ensures m.NullMemory? <==> NoneLarge(regions, cfg, old(Live()), n, 1)
      ensures Outcome(regions, old(Live()), Live(), m, n)
      ensures m.Memory? ==> RouteLarge(regions, cfg, old(Live()), Live(), m.ptr, n, 1)
    {
      hide Find, RegionOf, Valid, Live, Mems, Cans, AllIntact, Gained, NoneLarge, PassedLarge, RouteLarge, Footprint;
      ghost var l0, m0 := Live(), Mems();
      AllSame(regions, l0, m0);
      m := NullMemory;
      PassLarge(regions, cfg, l0, n, 1, 1);
      for i := 1 to |regions|
        invariant Valid() && regions == old(regions) && Live() == l0 && AllIntact(regions, l0, m0, Mems())
        invariant m.NullMemory? && PassedLarge(regions, cfg, l0, n, 1, i)
      {
        m := LargeStep(i, n, l0, m0);
        if m.Memory? {
          return;
        }
      }
      PassLarge(regions, cfg, l0, n, 1, |regions|);
    }

    /** One turn of that loop. */
    method LargeStep(i: nat, n: nat, ghost l0: seq<Loans>, ghost m0: seq<seq<Granule>>) returns (m: Memory)
      requires Valid() && 1 <= i < |regions| && n > 0 && Live() == l0 && AllIntact(regions, l0, m0, Mems())
      requires PassedLarge(regions, cfg, l0, n, 1, i)
      modifies Footprint(regions)
      ensures Valid() && regions == old(regions) && AllIntact(regions, l0, m0, Mems())
              && Outcome(regions, l0, Live(), m, n)
      ensures m.NullMemory? ==> PassedLarge(regions, cfg, l0, n, 1, i + 1)
      ensures m.Memory? ==> RouteLarge(regions, cfg, l0, Live(), m.ptr, n, 1) && !NoneLarge(regions, cfg, l0, n, 1)
    {
      hide Find, RegionOf, Valid, Live, Mems, Cans, AllIntact, SmallResult, LargeResult, Outcome, LargeFits,
           OrderForSize, RouteLarge, NoneLarge, PassedLarge, Footprint;
      var c := LargeIn(i, n);
      AllTrans(regions, l0, m0, old(Mems()), Mems());
      m := Report(i, c, n, OrderForSize(regions[i].buddy.geo, n), l0);
      PassLarge(regions, cfg, l0, n, 1, i);
      if m.Memory? {
        RouteLargeAt(regions, cfg, l0, Live(), m.ptr, n, 1, i);
      }
    }

    /** `__alloc_scan` for small requests: a fresh sheet of the first region, the small tiers of the
        others, then whole blocks everywhere. */
    method AllocScanSmall(n: nat) returns (m: Memory)
      requires Valid() && |regions| > 0 && 1 <= n <= cfg.smallMax && !regions[0].FitsNow(n)
      modifies Footprint(regions)
      ensures Valid() && regions == old(regions) && AllIntact(regions, old(Live()), old(Mems()), Mems())
      ensures m.NullMemory? <==> NoneSmall(old(Cans(n)), 0) && NoneLarge(regions, cfg, old(Live()), n, 0)
      ensures Outcome(regions, old(Live()), Live(), m, n)
      ensures m.Memory? ==> if !NoneSmall(old(Cans(n)), 0) then RouteSmall(regions, old(Cans(n)), Live(), m.ptr, 0)
                            else RouteLarge(regions, cfg, old(Live()), Live(), m.ptr, n, 0)
      ensures old(Cans(n))[0] ==> m.Memory? && OpensSheet(regions, cfg, Live(), m.ptr, n)
    {
      hide Find, RegionOf, Valid, Live, Mems, Cans, AllIntact, SmallResult, LargeResult, Gained, LargeFits,
           OrderForSize, Region.FitsNow, FirstPayload, OpensSheet, Footprint;
      ghost var l0, m0 := Live(), Mems();
      var c := SmallSlowIn(n);
      m := Report(0, c, n, 0, l0);
      if m.Memory? {
        OpensAt(regions, cfg, l0, Live(), l0[0], m, c, n, 0);
        return;
      }
      ghost var m1, cans := Mems(), old(Cans(n));
      NoneSmallSplit(cans, Cans(n));
      ghost var cans1 := Cans(n);
      m := SmallRest(n);
      AllTrans(regions, l0, m0, m1, Mems());
      if m.Memory? {
        RouteSmallDown(regions, cans, cans1, Live(), m.ptr);
        return;
      }
      m1 := Mems();
      m := LargeAll(n);
      AllTrans(regions, l0, m0, m1, Mems());
    }

    method LargeAll(n: nat) returns (m: Memory)
      requires Valid() && |regions| > 0 && n > 0
      modifies Footprint(regions)
      ensures Valid() && regions == old(regions) && AllIntact(regions, old(Live()), old(Mems()), Mems())
      ensures m.NullMemory? <==> NoneLarge(regions, cfg, old(Live()), n, 0)
      ensures Outcome(regions, old(Live()), Live(), m, n)
      ensures m.Memory? ==> RouteLarge(regions, cfg, old(Live()), Live(), m.ptr, n, 0)
    {
      hide Find, RegionOf, Valid, Live, Mems, Cans, AllIntact, SmallResult, LargeResult, Gained, LargeFits,
           OrderForSize, Footprint;
      ghost var l0, m0 := Live(), Mems();
      var c := LargeIn(0, n);
      m := Report(0, c, n, OrderForSize(regions[0].buddy.geo, n), l0);
      if m.NullMemory? {
        ghost var m1 := Mems();
        m := LargeRest(n);
        AllTrans(regions, l0, m0, m1, Mems());
        if m.Memory? {
          RouteLargeDown(regions, cfg, l0, Live(), m.ptr, n);
        }
      }
    }

    /** `__alloc_scan` for large requests. */
    method AllocScanLarge(n: nat) returns (m: Memory)
      requires Valid() && |regions| > 0 && n > 0
      requires !Servable(regions[0].buddy.geo, regions[0].buddy.tiles, OrderForSize(regions[0].buddy.geo, n))
      modifies Footprint(regions)
      ensures Valid() && regions == old(regions) && AllIntact(regions, old(Live()), old(Mems()), Mems())
      ensures m.NullMemory? <==> NoneLarge(regions, cfg, old(Live()), n, 0)
      ensures Outcome(regions, old(Live()), Live(), m, n)
      ensures m.Memory? ==> RouteLarge(regions, cfg, old(Live()), Live(), m.ptr, n, 0)
    {
      hide Find, RegionOf, Valid, Live, Mems, Cans, AllIntact, SmallResult, LargeResult, Gained, LargeFits,
           OrderForSize, Servable, Footprint;
      ghost var l0, m0 := Live(), Mems();
      var c := LargeSlowIn(n);
      m := Report(0, c, n, OrderForSize(regions[0].buddy.geo, n), l0);
      if m.NullMemory? {
        ghost var m1 := Mems();
        m := LargeRest(n);
        AllTrans(regions, l0, m0, m1, Mems());
        if m.Memory? {
          RouteLargeDown(regions, cfg, l0, Live(), m.ptr, n);
        }
      }
    }

    method AllocSmall(n: nat) returns (m: Memory)
      requires Valid() && |regions| > 0 && 1 <= n <= cfg.smallMax
      modifies Footprint(regions)
      ensures Valid() && regions == old(regions) && AllIntact(regions, old(Live()), old(Mems()), Mems())
      ensures m.NullMemory? <==> NoneSmall(old(Cans(n)), 0) && NoneLarge(regions, cfg, old(Live()), n, 0)
      ensures Outcome(regions, old(Live()), Live(), m, n)
      ensures m.Memory? ==> if !NoneSmall(old(Cans(n)), 0) then RouteSmall(regions, old(Cans(n)), Live(), m.ptr, 0)
                            else RouteLarge(regions, cfg, old(Live()), Live(), m.ptr, n, 0)
      ensures old(NeedsSheet(n)) ==> m.Memory? && OpensSheet(regions, cfg, Live(), m.ptr, n)
    {
      hide Find, RegionOf, Valid, Live, Mems, Cans, AllIntact, SmallResult, LargeResult, Gained, LargeFits,
           OrderForSize, Region.FitsNow, NoneLarge, OpensSheet, Footprint;
      ghost var l0, m0 := Live(), Mems();
      var c := SmallTryIn(n);
      m := Report(0, c, n, 0, l0);
      if m.NullMemory? {
        ghost var m1 := Mems();
        m := AllocScanSmall(n);
        AllTrans(regions, l0, m0, m1, Mems());
      }
    }

    method AllocLarge(n: nat) returns (m: Memory)
      requires Valid() && |regions| > 0 && n > 0
      modifies Footprint(regions)
      ensures Valid() && regions == old(regions) && AllIntact(regions, old(Live()), old(Mems()), Mems())
      ensures m.NullMemory? <==> NoneLarge(regions, cfg, old(Live()), n, 0)
      ensures Outcome(regions, old(Live()), Live(), m, n)
      ensures m.Memory? ==> RouteLarge(regions, cfg, old(Live()), Live(), m.ptr, n, 0)
    {
      hide Find, RegionOf, Valid, Live, Mems, Cans, AllIntact, SmallResult, LargeResult, Gained, LargeFits,
           OrderForSize, Servable, Footprint;
      ghost var l0, m0 := Live(), Mems();
      var c := BuddyIn(n);
      m := Report(0, c, n, OrderForSize(regions[0].buddy.geo, n), l0);
      if m.NullMemory? {
        ghost var m1 := Mems();
        m := AllocScanLarge(n);
        AllTrans(regions, l0, m0, m1, Mems());
      }
    }

    /** `alloc`.  Fails exactly when no region could serve the request from a sheet, from one more sheet
        or from a whole block, spare sheets given back. */
    method Alloc(n: nat) returns (m: Memory)
      requires Valid()
      modifies Footprint(regions)
      ensures Valid() && regions == old(regions) && AllIntact(regions, old(Live()), old(Mems()), Mems())
      ensures m.NullMemory? <==>
              (1 <= n <= cfg.smallMax ==> NoneSmall(old(Cans(n)), 0))
              && NoneLarge(regions, cfg, old(Live()), n, 0)
      ensures Outcome(regions, old(Live()), Live(), m, n)
      ensures m.Memory? ==> Routed(regions, cfg, old(Live()), old(Cans(n)), Live(), m.ptr, n)
      ensures old(NeedsSheet(n)) ==> m.Memory? && OpensSheet(regions, cfg, Live(), m.ptr, n)
    {
      hide Find, RegionOf, RouteSmall, RouteLarge, RouteAligned, Valid, Live, Mems, Cans, AllIntact, Gained, NoneLarge,
           NoneSmall, OpensSheet, Footprint;
      AllSame(regions, Live(), Mems());
      if |regions| == 0 || n == 0 {
        NoneTrivially(regions, cfg, Live(), Cans(n), n);
        return NullMemory;
      }
      if n <= cfg.smallMax {
        m := AllocSmall(n);
      } else {
        m := AllocLarge(n);
      }
    }

    // ---- aligned allocation -----------------------------------------------------------------------------------

    /** `__alloc_aligned_scan` */
    method AlignedScan(n: nat, alignment: nat) returns (m: Memory)
      requires Valid() && n > 0 && alignment > 0
      modifies Footprint(regions)
      ensures Valid() && regions == old(regions) && AllIntact(regions, old(Live()), old(Mems()), Mems())
      ensures m.NullMemory? <==> NoneAligned(regions, cfg, old(Live()), n, alignment)
      ensures Outcome(regions, old(Live()), Live(), m, n) && (m.Memory? ==> m.ptr % alignment == 0)
      ensures m.Memory? ==> RouteAligned(regions, cfg, old(Live()), Live(), m.ptr, n, alignment) && m.len >= alignment
    {
      hide Find, RegionOf, Valid, Live, Mems, Cans, AllIntact, Gained, NoneAligned, PassedAligned, RouteAligned,
           Footprint;
      ghost var l0, m0 := Live(), Mems();
      AllSame(regions, l0, m0);
      m := NullMemory;
      PassAligned(regions, cfg, l0, n, alignment, 0);
      for i := 0 to |regions|
        invariant Valid() && regions == old(regions) && Live() == l0 && AllIntact(regions, l0, m0, Mems())
        invariant m.NullMemory? && PassedAligned(regions, cfg, l0, n, alignment, i)
      {
        m := AlignedStep(i, n, alignment, l0, m0);
        if m.Memory? {
          return;
        }
      }
      PassAligned(regions, cfg, l0, n, alignment, |regions|);
    }

    /** One turn of that loop. */
    method AlignedStep(i: nat, n: nat, alignment: nat, ghost l0: seq<Loans>, ghost m0: seq<seq<Granule>>)
        returns (m: Memory)
      requires Valid() && i < |regions| && n > 0 && alignment > 0 && Live() == l0 && AllIntact(regions, l0, m0, Mems())
      requires PassedAligned(regions, cfg, l0, n, alignment, i)
      modifies Footprint(regions)
      ensures Valid() && regions == old(regions) && AllIntact(regions, l0, m0, Mems())
              && Outcome(regions, l0, Live(), m, n)
      ensures m.NullMemory? ==> PassedAligned(regions, cfg, l0, n, alignment, i + 1)
      ensures m.Memory? ==>
              m.ptr % alignment == 0 && m.len >= alignment
              && RouteAligned(regions, cfg, l0, Live(), m.ptr, n, alignment)
                            && !NoneAligned(regions, cfg, l0, n, alignment)
    {
      hide Find, RegionOf, Valid, Live, Mems, Cans, AllIntact, SmallResult, LargeResult, Outcome, AlignedFits,
           AlignedOrder, RouteAligned, NoneAligned, PassedAligned, Footprint;
      var c := AlignedIn(i, n, alignment);
      AllTrans(regions, l0, m0, old(Mems()), Mems());
      m := Report(i, c, n, AlignedOrder(regions[i].buddy.geo, n, alignment), l0);
      PassAligned(regions, cfg, l0, n, alignment, i);
      if m.Memory? {
        RouteAlignedAt(regions, cfg, l0, Live(), m.ptr, n, alignment, i);
      }
    }

    /** `alloc_aligned`: what is granted is really aligned. */
    method AllocAligned(n: nat, alignment: nat) returns (m: Memory)
      requires Valid()
      modifies Footprint(regions)
      ensures Valid() && regions == old(regions) && AllIntact(regions, old(Live()), old(Mems()), Mems())
      ensures m.NullMemory? <==> !IsPow2(alignment) || alignment == 0
                                 || NoneServes(regions, cfg, old(Live()), old(Cans(n)), n, alignment)
      ensures Outcome(regions, old(Live()), Live(), m, n) && (m.Memory? ==> alignment > 0 && m.ptr % alignment == 0)
      ensures m.Memory? ==> if alignment <= NATIVE_ALIGNMENT then Routed(regions, cfg, old(Live()), old(Cans(n)),
              Live(), m.ptr, n)
                            else RouteAligned(regions, cfg, old(Live()), Live(), m.ptr, n, alignment)
                                 && m.len >= alignment
    {
      hide Find, RegionOf, RouteSmall, RouteLarge, RouteAligned, Valid, Live, Mems, Cans, AllIntact, Gained, NoneLarge,
           NoneSmall, AlignedFits, IsPow2, Footprint;
      AllSame(regions, Live(), Mems());
      Pow2IsPositive(alignment);
      if n == 0 || !IsPow2(alignment) {
        return NullMemory;
      }
      if alignment <= NATIVE_ALIGNMENT {
        m := Alloc(n);
        if m.Memory? {
          GainedAt(regions, old(Live()), Live(), m, n);
          NativelyAligned(m, alignment);
        }
        return;
      }
      if |regions| == 0 {
        return NullMemory;
      }
      m := AlignedBlock(n, alignment);
    }

    method AlignedBlock(n: nat, alignment: nat) returns (m: Memory)
      requires Valid() && |regions| > 0 && n > 0 && alignment > 0
      modifies Footprint(regions)
      ensures Valid() && regions == old(regions) && AllIntact(regions, old(Live()), old(Mems()), Mems())
      ensures m.NullMemory? <==> NoneAligned(regions, cfg, old(Live()), n, alignment)
      ensures Outcome(regions, old(Live()), Live(), m, n) && (m.Memory? ==> m.ptr % alignment == 0)
      ensures m.Memory? ==> RouteAligned(regions, cfg, old(Live()), Live(), m.ptr, n, alignment) && m.len >= alignment
    {
      hide Find, RegionOf, Valid, Live, Mems, AllIntact, SmallResult, LargeResult, Gained, AlignedFits, AlignedOrder,
           Footprint;
      ghost var l0, m0 := Live(), Mems();
      var c := BuddyAlignedIn(n, alignment);
      m := Report(0, c, n, AlignedOrder(regions[0].buddy.geo, n, alignment), l0);
      if m.NullMemory? {
        ghost var m1 := Mems();
        m := AlignedScan(n, alignment);
        AllTrans(regions, l0, m0, m1, Mems());
      }
    }

    /** Every grant is aligned to 16 bytes, hence to any smaller power of two. */
    lemma NativelyAligned(m: Memory, alignment: nat)
      requires Valid() && m.Memory? && Find(regions, Live(), m.ptr) != Nowhere
      requires IsPow2(alignment) && 0 < alignment <= NATIVE_ALIGNMENT
      ensures m.ptr % alignment == 0
    {
      hide Region.Valid, LiveOf, Separate, IsPow2;
      var i := RegionOf(regions, m.ptr, 0);
      regions[i].BaseIsAligned();
      SixteenIs();
      WhoseReturned(regions[i].buddy.geo, Live()[i], m.ptr - regions[i].base);
      AlignedAddress(regions[i].base, regions[i].buddy.baseAlign, 16, (m.ptr - regions[i].base) / 16);
      SixteenDivides(m.ptr, alignment);
    }

    // ---- release ----------------------------------------------------------------------------------------------

    method SmallFreeIn(i: nat, hdr: nat)
      requires Valid() && i < |regions| && hdr in Live()[i].smalls
      modifies Footprint(regions)
      ensures Valid() && regions == old(regions) && AllIntact(regions, Live(), old(Mems()), Mems())
      ensures Live() == old(Live())[i := ReturnSmall(old(Live())[i], hdr)]
    {
      hide Region.Valid, Separate, LiveOf, MemsOf, CansOf, AllIntact, Intact;
      Others(regions, i);
      regions[i].SmallFree(hdr);
      After(i);
      NarrowAt(regions, old(Live()), i, Live()[i], old(Mems()), Mems()[i]);
    }

    method LargeFreeIn(i: nat, g: nat, o: nat)
      requires Valid() && i < |regions| && g in Live()[i].larges && Live()[i].larges[g] == o
      modifies Footprint(regions)
      ensures Valid() && regions == old(regions) && AllIntact(regions, Live(), old(Mems()), Mems())
      ensures Live() == old(Live())[i := ReturnLarge(old(Live())[i], g)]
    {
      hide Region.Valid, Separate, LiveOf, MemsOf, CansOf, AllIntact, Intact;
      Others(regions, i);
      regions[i].LargeFree(g, o);
      After(i);
      NarrowAt(regions, old(Live()), i, Live()[i], old(Mems()), Mems()[i]);
    }

    /** Facts about a located pointer that hold until its block is given up. */
    lemma AtPointer(p: nat) returns (i: nat, up: nat)
      requires Valid() && Find(regions, Live(), p) != Nowhere
      ensures i == RegionOf(regions, p, 0) < |regions| && up == p - regions[i].base < 16 * regions[i].buddy.geo.total
      ensures p == regions[i].base + up && up % 16 == 0 && Separate(regions)
      ensures Find(regions, Live(), p) == Whose(regions[i].buddy.geo, Live()[i], up)
      ensures IsLoan(regions[i].buddy.geo, Live()[i], Whose(regions[i].buddy.geo, Live()[i], up))
      ensures up / 16 in Live()[i].larges && up / 16 > 0 ==> up / 16 - 1 !in Live()[i].smalls
    {
      hide Region.Valid, LiveOf, Separate, Whose, RegionOf, IsLoan;
      i := RegionOf(regions, p, 0);
      up := p - regions[i].base;
      LoanAt(regions[i].buddy.geo, Live()[i], up);
      WhoseReturned(regions[i].buddy.geo, Live()[i], up);
      regions[i].StartsApart(up / 16);
    }

    /** `release`: the block found at `p` is gone, and nothing else. */
    method Release(i: nat, l: Located, p: nat) returns (ok: bool)
      requires Valid() && l == Find(regions, Live(), p) && i == RegionOf(regions, p, 0)
      modifies Footprint(regions)
      ensures Valid() && regions == old(regions) && AllIntact(regions, Live(), old(Mems()), Mems())
      ensures ok <==> l != Nowhere
      ensures Moved(regions, old(Live()), Live(), p, Nowhere)
      ensures !ok ==> Live() == old(Live()) && Mems() == old(Mems()) && forall k: nat :: Cans(k) == old(Cans(k))
    {
      hide Valid, Live, Mems, Cans, AllIntact, Find, RegionOf, Whose, Separate, Moved, IsLoan, Footprint;
      AllSame(regions, Live(), Mems());
      Unmoved(regions, Live(), p);
      if l == Nowhere {
        return false;
      }
      if l.InTlsf? {
        ReleaseSmall(i, l, p);
      } else {
        ReleaseLarge(i, l, p);
      }
      return true;
    }

    method ReleaseSmall(i: nat, l: Located, p: nat)
      requires Valid() && l == Find(regions, Live(), p) && i == RegionOf(regions, p, 0) && l.InTlsf?
      modifies Footprint(regions)
      ensures Valid() && regions == old(regions) && AllIntact(regions, Live(), old(Mems()), Mems())
      ensures Moved(regions, old(Live()), Live(), p, Nowhere)
    {
      hide Valid, Live, Mems, Cans, AllIntact, Find, RegionOf, Whose, Separate, Moved, IsLoan, Footprint;
      ghost var l0 := Live();
      ghost var j, up := AtPointer(p);
      WhoseReturned(regions[i].buddy.geo, l0[i], up);
      SmallFreeIn(i, l.hdr);
      MovedBy(regions, l0, i, ReturnSmall(l0[i], l.hdr), up);
    }

    method ReleaseLarge(i: nat, l: Located, p: nat)
      requires Valid() && l == Find(regions, Live(), p) && i == RegionOf(regions, p, 0) && l.InBuddy?
      modifies Footprint(regions)
      ensures Valid() && regions == old(regions) && AllIntact(regions, Live(), old(Mems()), Mems())
      ensures Moved(regions, old(Live()), Live(), p, Nowhere)
    {
      hide Valid, Live, Mems, Cans, AllIntact, Find, RegionOf, Whose, Separate, Moved, IsLoan, Footprint;
      ghost var l0 := Live();
      ghost var j, up := AtPointer(p);
      WhoseReturned(regions[i].buddy.geo, l0[i], up);
      LargeFreeIn(i, (p - regions[i].base) / 16, l.order);
      MovedBy(regions, l0, i, ReturnLarge(l0[i], up / 16), up);
    }

    /** `dealloc`: exactly the starts of live blocks can be given up. */
    method Dealloc(p: nat) returns (ok: bool)
      requires Valid()
      modifies Footprint(regions)
      ensures Valid() && regions == old(regions) && AllIntact(regions, Live(), old(Mems()), Mems())
      ensures ok <==> Find(regions, old(Live()), p) != Nowhere
      ensures Moved(regions, old(Live()), Live(), p, Nowhere)
      ensures !ok ==> Live() == old(Live()) && Mems() == old(Mems()) && forall k: nat :: Cans(k) == old(Cans(k))
    {
      hide Valid, Live, Mems, Cans, AllIntact, Find, RegionOf, Whose, Separate, Moved;
      var i, l := Locate(p);
      ok := Release(i, l, p);
    }

    // ---- resizing in place ----------------------------------------------------------------------------------------

    method ShrinkIn(i: nat, l: Located, n: nat) returns (nb: nat)
      requires Valid() && i < |regions| && IsLoan(regions[i].buddy.geo, Live()[i], l) && n > 0
      modifies Footprint(regions)
      ensures Valid() && regions == old(regions) && AllIntact(regions, Live(), old(Mems()), Mems())
      ensures nb > 0 <==> !l.Nowhere? && n <= l.len
      ensures nb > 0 ==> n <= nb <= l.len
      ensures Live() == if nb > 0 && l.InTlsf? then old(Live())[i := LendSmall(old(Live())[i], l.hdr, nb / 16 + 1)]
              else old(Live())
      ensures l.InBuddy? && nb > 0 ==> nb == l.len
      ensures l.InTlsf? ==> nb % 16 == 0 && (nb > 0 ==> nb == ShrunkBytes(l.len, n))
      ensures l.InTlsf? && nb > 0 ==> nb < n + 32 && (nb == l.len || nb < n + 16)
    {
      hide Region.Valid, Separate, LiveOf, MemsOf, CansOf, AllIntact, Intact;
      Others(regions, i);
      nb := regions[i].ShrinkAt(l, n);
      After(i);
      assert old(Live())[i := old(Live())[i]] == old(Live());
      NarrowAt(regions, old(Live()), i, Live()[i], old(Mems()), Mems()[i]);
    }

    method GrowIn(i: nat, l: Located, up: nat, n: nat) returns (nb: nat)
      requires Valid() && i < |regions| && l == Whose(regions[i].buddy.geo, Live()[i], up) && n > 0
      modifies Footprint(regions)
      ensures Valid() && regions == old(regions) && AllIntact(regions, old(Live()), old(Mems()), Mems())
      ensures nb > 0 ==> !l.Nowhere? && n <= nb && l.len <= nb
      ensures nb == 0 ==> Mems() == old(Mems()) && forall k: nat :: Cans(k) == old(Cans(k))
      ensures (nb > 0 <==> old(regions[i].GrowsInPlace(l, up, n))) && nb == old(regions[i].GrownTo(l, up, n))
      ensures l.InTlsf? && nb > l.len ==> n <= nb < n + 32
      ensures l.InTlsf? ==> Regrown(cfg, old(Live())[i].smalls, l.hdr, l.len, n, nb)
      ensures l.InBuddy? && nb > l.len ==> LeastOver(regions[i].buddy.geo, l.len, n, nb)
      ensures Live() == old(Live())[i := Live()[i]]
      ensures GrowResult(regions[i].buddy.geo, cfg, old(regions[i].buddy.tiles), old(regions[i].tlsf.blocks),
              old(Live())[i], Live()[i], l,
                         up / 16, n, nb)
    {
      hide Region.Valid, Separate, LiveOf, MemsOf, CansOf, AllIntact, Intact, GrowResult, Regrown, LeastOver,
           Whose, Region.GrowsInPlace,
           Region.GrownTo;
      Others(regions, i);
      nb := regions[i].GrowAt(l, up, n);
      After(i);
      assert old(Mems())[i := old(Mems())[i]] == old(Mems());
      assert forall k: nat :: old(Cans(k))[i := old(Cans(k))[i]] == old(Cans(k));
      IntactAt(regions, old(Live()), old(Mems()), i, Mems()[i]);
    }

    lemma GrownAt(i: nat, l: Located, up: nat, n: nat)
      requires Valid() && i < |regions| && l == Whose(regions[i].buddy.geo, Live()[i], up) && n > 0 && l.InTlsf?
      ensures Regrown(cfg, Live()[i].smalls, l.hdr, l.len, n, regions[i].GrownTo(l, up, n))
    {
      hide Region.Valid, Separate, LiveOf, Regrown, Whose, Region.GrownTo;
      regions[i].GrownIs(l, up, n);
    }

    /** `shrink_at`: the usable bytes of the block afterwards, or 0 if it is not that large. */
    method ShrinkAt(i: nat, l: Located, p: nat, n: nat) returns (nb: nat, ghost at: Located)
      requires Valid() && l == Find(regions, Live(), p) && i == RegionOf(regions, p, 0) && l != Nowhere && n > 0
      modifies Footprint(regions)
      ensures Valid() && regions == old(regions) && AllIntact(regions, Live(), old(Mems()), Mems())
      ensures nb > 0 <==> n <= l.len
      ensures nb > 0 ==> n <= nb <= l.len && nb == if l.InTlsf? then ShrunkBytes(l.len, n) else l.len
      ensures l.InTlsf? && nb > 0 ==> nb < n + 32 && (nb == l.len || nb < n + 16)
      ensures Moved(regions, old(Live()), Live(), p, at) && at != Nowhere && LenOf(at) == if nb > 0 then nb else l.len
    {
      hide Valid, Live, Mems, Cans, AllIntact, Find, RegionOf, Whose, Separate, Moved, IsLoan, Footprint;
      ghost var l0 := Live();
      ghost var j, up := AtPointer(p);
      Unmoved(regions, l0, p);
      nb := ShrinkIn(i, l, n);
      if nb > 0 && l.InTlsf? {
        WhoseResized(regions[i].buddy.geo, l0[i], up, nb, 0);
        MovedBy(regions, l0, i, LendSmall(l0[i], l.hdr, nb / 16 + 1), up);
        at := InTlsf(l.hdr, nb);
      } else {
        at := l;
      }
    }

    /** `grow_at`: the usable bytes of the block afterwards, or 0 and nothing has changed. */
    method GrowAt(i: nat, l: Located, p: nat, n: nat) returns (nb: nat, ghost at: Located)
      requires Valid() && l == Find(regions, Live(), p) && i == RegionOf(regions, p, 0) && l != Nowhere && n > 0
      modifies Footprint(regions)
      ensures Valid() && regions == old(regions) && AllIntact(regions, old(Live()), old(Mems()), Mems())
      ensures nb > 0 ==> n <= nb && l.len <= nb
      ensures i < |regions| && p >= regions[i].base
              && (nb > 0 <==> old(regions[i].GrowsInPlace(l, p - regions[i].base, n)))
      ensures nb == old(regions[i].GrownTo(l, p - regions[i].base, n))
      ensures l.InTlsf? && nb > l.len ==> n <= nb < n + 32
      ensures l.InTlsf? ==> Regrown(cfg, old(Live())[i].smalls, l.hdr, l.len, n, nb)
      ensures l.InBuddy? && nb > l.len ==> LeastOver(regions[i].buddy.geo, l.len, n, nb)
      ensures nb == 0 ==> Live() == old(Live()) && Mems() == old(Mems()) && forall k: nat :: Cans(k) == old(Cans(k))
      ensures Moved(regions, old(Live()), Live(), p, at) && at != Nowhere && LenOf(at) == if nb > 0 then nb else l.len
    {
      hide Valid, Live, Mems, Cans, AllIntact, Find, RegionOf, Whose, Separate, Moved, OrderSize, OrderForSize,
           Growable, CanGrow, LiveSizes, GrownSize, Regrown, LeastOver, Region.GrowsInPlace, Region.GrownTo, Footprint;
      ghost var l0 := Live();
      ghost var j, up := AtPointer(p);
      Unmoved(regions, l0, p);
      assert l0[i := l0[i]] == l0;
      nb := GrowIn(i, l, p - regions[i].base, n);
      ghost var want := OrderForSize(regions[i].buddy.geo, n);
      at := l;
      if nb > 0 && (l.InTlsf? || want > l.order) {
        WhoseResized(regions[i].buddy.geo, l0[i], up, nb, want);
        MovedBy(regions, l0, i, Live()[i], up);
        at := if l.InTlsf? then InTlsf(l.hdr, nb) else InBuddy(want, nb);
      }
    }

    // ---- accounting -------------------------------------------------------------------------------------------

    method UsedIn(i: nat) returns (u: nat)
      requires Valid() && i < |regions|
      ensures u == Usage(regions[i].buddy.geo, cfg, Live()[i])
    {
      hide Region.Valid, Separate, LiveOf, Usage;
      u := regions[i].Used();
    }

    method AvailableIn(i: nat) returns (u: nat)
      requires Valid() && i < |regions|
      ensures u == 16 * regions[i].buddy.geo.total - Usage(regions[i].buddy.geo, cfg, Live()[i])
      ensures Live()[i] == Loans(map[], map[]) ==> u == 16 * regions[i].buddy.geo.total
    {
      hide Region.Valid, Separate, LiveOf, Usage;
      u := regions[i].Available();
    }

    /** `used`: a function of the live blocks alone. */
    method Used() returns (r: nat)
      requires Valid()
      ensures r == UsageBelow(regions, cfg, Live(), |regions|)
    {
      hide Region.Valid, Separate, Live, Usage, Sound;
      r := 0;
      for i := 0 to |regions|
        invariant r == UsageBelow(regions, cfg, Live(), i)
      {
        var u := UsedIn(i);
        r := r + u;
      }
    }

    method Total() returns (r: nat)
      requires Valid()
      ensures r == TotalBelow(regions, |regions|)
    {
      hide Region.Valid, Separate;
      r := 0;
      for i := 0 to |regions|
        invariant r == TotalBelow(regions, i)
      {
        r := r + 16 * regions[i].buddy.geo.total;
      }
    }

    /** `available`: with `used` it makes up the total, and once every block is given back it is the
        total. */
    method Available() returns (r: nat)
      requires Valid()
      ensures r == TotalBelow(regions, |regions|) - UsageBelow(regions, cfg, Live(), |regions|)
      ensures (forall i :: 0 <= i < |regions| ==> Live()[i] == Loans(map[], map[]))
              ==> r == TotalBelow(regions, |regions|)
    {
      hide Region.Valid, Separate, Live, Usage, Sound;
      r := 0;
      for i := 0 to |regions|
        invariant r == TotalBelow(regions, i) - UsageBelow(regions, cfg, Live(), i)
        invariant (forall j :: 0 <= j < i ==> Live()[j] == Loans(map[], map[])) ==> r == TotalBelow(regions, i)
      {
        var a := AvailableIn(i);
        r := r + a;
      }
    }

    method LargestIn(i: nat) returns (v: nat)
      requires Valid() && i < |regions|
      modifies Footprint(regions)
      ensures Valid() && regions == old(regions) && Live() == old(Live())
      ensures AllIntact(regions, old(Live()), old(Mems()), Mems())
      ensures forall n: nat :: Cans(n) == old(Cans(n))[i := Cans(n)[i]]
      ensures forall n: nat :: n > 0 ==>
                (n <= v <==> (n <= cfg.smallMax && Cans(n)[i]) || LargeFits(regions[i].buddy.geo, cfg, Live()[i], n))
    {
      hide Region.Valid, Separate, LiveOf, MemsOf, CansOf, AllIntact, Intact, Region.CanSmall, LargeFits,
           Region.CanMeet;
      Others(regions, i);
      v := regions[i].LargestFree();
      After(i);
      assert old(Live())[i := old(Live())[i]] == old(Live());
      IntactAt(regions, old(Live()), old(Mems()), i, Mems()[i]);
    }

    /** `largest_free`: exactly the requests up to the answer can be served. */
    method LargestFree() returns (r: nat)
      requires Valid()
      modifies Footprint(regions)
      ensures Valid() && regions == old(regions) && Live() == old(Live())
      ensures AllIntact(regions, old(Live()), old(Mems()), Mems())
      ensures forall n: nat :: n > 0 ==> (n <= r <==> !NoneServes(regions, cfg, Live(), Cans(n), n, 1))
    {
      hide Valid, Live, Mems, Cans, AllIntact, LargeFits, AbleBelow, NoneSmall, NoneLarge, Footprint;
      ghost var l0, m0 := Live(), Mems();
      AllSame(regions, l0, m0);
      forall n: nat ensures !AbleBelow(regions, cfg, l0, Cans(n), n, 0) {
        NoneAble(regions, cfg, l0, Cans(n), n);
      }
      r := 0;
      for i := 0 to |regions|
        invariant Valid() && regions == old(regions) && Live() == l0 && AllIntact(regions, l0, m0, Mems())
        invariant forall n: nat :: n > 0 ==> (n <= r <==> AbleBelow(regions, cfg, l0, Cans(n), n, i))
      {
        ghost var m1 := Mems();
        label L:
        var v := LargestIn(i);
        AllTrans(regions, l0, m0, m1, Mems());
        forall n: nat
          ensures AbleBelow(regions, cfg, l0, Cans(n), n, i + 1)
                  <==> old@L(AbleBelow(regions, cfg, l0, Cans(n), n, i)) || (1 <= n <= cfg.smallMax && Cans(n)[i])
                       || LargeFits(regions[i].buddy.geo, cfg, l0[i], n)
        {
          AbleNext(regions, cfg, l0, old@L(Cans(n)), Cans(n), n, i);
        }
        if v > r {
          r := v;
        }
      }
      forall n: nat | n > 0 ensures n <= r <==> !NoneServes(regions, cfg, l0, Cans(n), n, 1) {
        AbleIsNotNone(regions, cfg, l0, Cans(n), n);
      }
    }

    /** Asking for exactly what `largest_free` reports always succeeds, unless it reports that there is nothing. */
    method TakeLargest() returns (r: nat, m: Memory)
      requires Valid()
      modifies Footprint(regions)
      ensures Valid() && regions == old(regions)
      ensures if r > 0 then Gained(regions, old(Live()), Live(), m, r) else m.NullMemory? && Live() == old(Live())
      ensures AllIntact(regions, old(Live()), old(Mems()), Mems())
    {
      hide Valid, Live, Mems, Cans, AllIntact, NoneSmall, NoneLarge, NoneServes, Gained, Footprint;
      r := LargestFree();
      ghost var m1 := Mems();
      ServesIs(regions, cfg, Live(), Cans(r), r);
      m := Alloc(r);
      AllTrans(regions, old(Live()), old(Mems()), m1, Mems());
    }

    // ---- callers' own memory -------------------------------------------------------------------------------------

    /** Live blocks lie inside their regions and are disjoint. */
    lemma Placed()
      requires Valid()
      ensures WellPlaced(regions, Live())
    {
      hide Region.Valid, LiveOf, Separate, Holds;
      forall i, p: nat, q: nat, x: nat | 0 <= i < |regions| && Holds(regions[i].buddy.geo, Live()[i], p, x)
        ensures x < regions[i].buddy.geo.total
        ensures Holds(regions[i].buddy.geo, Live()[i], q, x) ==> p == q
      {
        regions[i].LoansApart(p, q, x);
      }
    }

    method StoreIn(i: nat, up: nat, b: nat, ghost p: nat)
      requires Valid() && i < |regions| && Holds(regions[i].buddy.geo, Live()[i], p, up / 16) && b < 256
      modifies Footprint(regions)
      ensures Valid() && regions == old(regions) && Live() == old(Live())
      ensures up / 16 < |old(Mems())[i]|
      ensures Mems() == old(Mems())[i := old(Mems())[i][up / 16 := PutByte(old(Mems())[i][up / 16], up % 16, b)]]
    {
      hide Region.Valid, Separate, LiveOf, MemsOf, CansOf, Holds, PutByte;
      Others(regions, i);
      assert regions[i].buddy.mem in regions[i].Repr();
      regions[i].Store(up, b, p);
      After(i);
      assert old(Live())[i := old(Live())[i]] == old(Live());
    }

    /** A caller writes one byte of a live block: the heap does not notice. */
    method Store(a: nat, b: nat, ghost p: nat)
      requires Valid() && InBlock(regions, Live(), p, a) && b < 256
      modifies Footprint(regions)
      ensures Valid() && regions == old(regions) && Live() == old(Live())
      ensures forall c: nat :: ReadByte(regions, Mems(), c) == if c == a then b else ReadByte(regions, old(Mems()), c)
    {
      hide Valid, Live, Mems, Cans, Find, RegionOf, WellPlaced, PutByte, GetByte, Holds;
      Placed();
      ghost var j := BlockByte(regions, Live(), p, a);
      var i := FindRegion(a);
      StoreIn(i, a - regions[i].base, b, (p - regions[i].base) / 16);
      StoreByte(regions, old(Mems()), i, a, b);
    }

    /** A caller reads one byte of a live block. */
    method Load(a: nat, ghost p: nat) returns (b: nat)
      requires Valid() && InBlock(regions, Live(), p, a)
      ensures b == ReadByte(regions, Mems(), a) < 256
    {
      hide Region.Valid, Separate, Live, Mems, Find, RegionOf, WellPlaced, GetByte, Holds, Sound;
      Placed();
      ghost var j := BlockByte(regions, Live(), p, a);
      var i := FindRegion(a);
      b := LoadIn(i, a - regions[i].base);
    }

    method LoadIn(i: nat, up: nat) returns (b: nat)
      requires Valid() && i < |regions| && up / 16 < regions[i].buddy.geo.total
      ensures up / 16 < |Mems()[i]| && b == GetByte(Mems()[i][up / 16], up % 16)
    {
      hide Region.Valid, Separate, MemsOf, GetByte, Sound;
      MemoryLength(i);
      b := regions[i].Load(up);
    }

    lemma MemoryLength(i: nat)
      requires Valid() && i < |regions|
      ensures regions[i].Shape() && regions[i].buddy.mem.Length == regions[i].buddy.geo.total
    {
      hide Separate;
      regions[i].Sized();
    }

    lemma UnitOf(i: nat)
      requires Valid() && i < |regions|
      ensures regions[i].buddy.geo.lm == lm && regions[i].tlsf.cfg == cfg
    {
      hide Region.Valid, Separate, Sound;
    }

    /** Sizes of live blocks: a multiple of 16, and in the buddy tier a power of two. */
    lemma BlockSizes(p: nat)
      requires Valid() && Find(regions, Live(), p) != Nowhere
      ensures var at := Find(regions, Live(), p);
              && LenOf(at) % 16 == 0 && LenOf(at) < 0x1_0000_0000
              && (at.InBuddy? ==> LenOf(at) == 16 * Pow2(lm + at.order))
    {
      hide Region.Valid, LiveOf, Separate, Whose, RegionOf, Sound, Pow2;
      var i, up := AtPointer(p);
      SizeOf(regions[i].buddy.geo, Live()[i], up);
      Placed();
      MemoryLength(i);
      regions[i].Small();
      if LenOf(Whose(regions[i].buddy.geo, Live()[i], up)) > 0 {
        WhoseHolds(regions[i].buddy.geo, Live()[i], up, LenOf(Whose(regions[i].buddy.geo, Live()[i], up)) - 1);
      }
    }
  }

  /** The range, and its tags if they are apart, wrap around nowhere and meet nothing. */
  ghost predicate Admits(rs: seq<Region>, most: nat, r: Range, tagsAt: nat) {
    && |rs| < most && r.raw > 0 && r.len > 0 && r.raw + r.len < WORD && ClearOf(rs, r.raw, r.len)
    && (r.ext ==> r.extCap > 0 && tagsAt + r.extCap < WORD && (tagsAt >= r.raw + r.len || r.raw >= tagsAt + r.extCap)
                  && ClearOf(rs, tagsAt, r.extCap))
  }

  /** A region over a range is laid out as set-up planned. */
  ghost predicate Built(r: Range, lm: nat, want: nat, mx: nat, g: Region) {
    && g.raw == r.raw && g.rawLen == r.len && g.buddy.units > 0
    && g.buddy.geo == Geometry(lm, Shl(g.buddy.units, lm), Fls(g.buddy.units) + 1)
    && Sane(r, 16 * Pow2(lm), want, mx, Plan(g.base, g.buddy.baseAlign, g.buddy.units))
  }

  /** When a range may be attached: it also has room for four units. */
  ghost predicate Attachable(rs: seq<Region>, most: nat, min: nat, r: Range, tagsAt: nat) {
    Admits(rs, most, r, tagsAt) && r.len >= 4 * min
  }

  lemma UnitIsSane(lm: nat)
    requires lm <= 26
    ensures IsPow2(16 * Pow2(lm)) && 16 <= 16 * Pow2(lm) <= 0x4000_0000
  {
    hide Pow2, IsPow2;
    Granular(0, lm);
    IsPow2Of(lm + 4);
    Pow2Mono(lm, 26);
    TwentySix();
  }

  lemma TwentySix()
    ensures Pow2(26) == 0x400_0000
  {
    assert Pow2(13) == 0x2000;
    hide Pow2;
    Pow2Add(13, 13);
  }

  lemma SixteenUnits(u: nat, p: nat)
    ensures UnitBytes(u, 16 * p) == 16 * (u * p)
  {
  }

  /** The plan's units in granules. */
  lemma PlanGranules(r: Range, lm: nat, want: nat, mx: nat, p: Plan)
    requires Sane(r, 16 * Pow2(lm), want, mx, p) && lm <= 26
    ensures Shl(p.units, lm) <= 0x0FFF_FFFF && p.base + 16 * Shl(p.units, lm) <= r.raw + r.len && r.raw <= p.base
    ensures BaseAligned(p.base, p.align) && Fls(p.units) < mx && p.units > 0
  {
    hide Pow2, Shl, Fls, IsPow2, DataAt;
    ShlIsMul(p.units, lm);
    UnitIsSane(lm);
    SixteenUnits(p.units, Pow2(lm));
  }

  lemma SixteenDivides(p: nat, a: nat)
    requires p % 16 == 0 && IsPow2(a) && 0 < a <= 16
    ensures p % a == 0
  {
    hide IsPow2, Pow2, Fls, Aligned;
    IsPow2Iff(a);
    IsPow2Iff(16);
    SixteenIs();
    FlsMono(a, 16);
    AlignedIffMod(p, 4);
    AlignedWeaken(p, Fls(a), 4);
    AlignedIffMod(p, Fls(a));
  }

  lemma SixteenIs()
    ensures IsPow2(16) && Fls(16) == 4 && Pow2(4) == 16
  {
    assert Pow2(2) == 4 && Pow2(4) == 4 * Pow2(2);
    IsPow2Of(4);
  }
}
