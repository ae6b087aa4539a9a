/** A region (`__region`): a buddy tier whose blocks also serve as sheets of a TLSF tier.

    `Lends()` is what callers hold.  Every operation is stated on it, and the run-time answers that
    depend on more than it (is there a sheet with room?) are stated on the tiers' own states. */
module RegionTier {
  import opened Bits
  import opened Granules
  import opened Links
  import opened Bytes
  import opened Sums
  import opened Tiling
  import opened Mapping
  import opened BuddyTier
  import opened TlsfState
  import opened TlsfTier
  import opened RegionState
  import opened FreshSheets
  import BuddyState

  /** Where a pointer leads: to a small loan's header, to a large loan of an order, or nowhere. */
  datatype Located = Nowhere | InTlsf(hdr: nat, len: nat) | InBuddy(order: nat, len: nat)

  /** The loan whose memory starts at byte offset `up`. */
  function Whose(geo: Geometry, l: Loans, up: nat): Located {
    var p := up / 16;
    if up % 16 == 0 && p > 0 && p - 1 in l.smalls && l.smalls[p - 1] > 0 then InTlsf(p - 1, 16 * (l.smalls[p - 1] - 1))
    else if up % 16 == 0 && p in l.larges then InBuddy(l.larges[p], OrderSize(geo, l.larges[p]))
    else Nowhere
  }

  class Region {
    const raw: nat
    const rawLen: nat
    const base: nat
    const buddy: Buddy
    const tlsf: Tlsf
    var spare: nat

    /** What construction fixes: both tiers work on the same memory, with arrays of their own. */
    ghost predicate Shape() {
      && tlsf.mem == buddy.mem && buddy.geo.lm <= tlsf.cfg.sheetLog
      && tlsf.heads != buddy.heads && tlsf.heads != buddy.tags
      && tlsf.slBits != buddy.heads && tlsf.slBits != buddy.tags
      && BaseAligned(base, buddy.baseAlign) && raw <= base && base + 16 * buddy.geo.total <= raw + rawLen
    }

    lemma Sized()
      requires Valid()
      ensures Shape() && buddy.mem.Length == buddy.geo.total
    {
      hide BaseAligned;
    }

    lemma HasUnits()
      requires Valid()
      ensures buddy.geo.total > 0
    {
      hide BaseAligned, Rep, BuddyState.Represents, BuddyState.MaskMatches;
      ShlIsMul(buddy.units, buddy.geo.lm);
      MulMono(1, buddy.units, Pow2(buddy.geo.lm));
    }

    lemma Small()
      requires Valid()
      ensures buddy.geo.total <= 0x0FFF_FFFF
    {
      hide BaseAligned;
    }

    lemma BaseIsAligned()
      requires Valid()
      ensures BaseAligned(base, buddy.baseAlign)
    {
      hide BaseAligned;
    }

    ghost function Repr(): set<object> {
      {this, buddy, tlsf, buddy.mem, buddy.tags, buddy.heads, tlsf.heads, tlsf.slBits}
    }

    /** Both tiers are sound, and every sheet is a lent buddy block. */
    ghost predicate Core()
      reads Repr()
    {
      Shape() && buddy.Valid() && tlsf.Valid() && Hosted(buddy.geo, tlsf.cfg, buddy.tiles, tlsf.sheets)
    }

    ghost predicate Valid()
      reads Repr()
    {
      Core() && Joined(buddy.tiles, tlsf.sheets) && SpareHolds(tlsf.cfg, LiveSizes(tlsf.blocks), tlsf.sheets, spare)
    }

    ghost function Lends(): Loans
      reads Repr()
    {
      LoansOf(buddy.tiles, tlsf.blocks)
    }

    /** `attach`, once set-up has placed the data in the range [raw, raw + rawLen). */
    constructor (raw: nat, rawLen: nat, base: nat, lm: nat, mx: nat, units: nat, baseAlign: nat, checkLinks: bool,
        cfg: Config,
                 mem: array<Granule>, tags: array<nat>)
      requires 0 < units && Fls(units) < mx <= 63 && Sound(cfg) && lm <= cfg.sheetLog
      requires mem.Length == Shl(units, lm) <= 0x0FFF_FFFF && tags.Length == units
      requires BaseAligned(base, baseAlign) && raw <= base && base + 16 * mem.Length <= raw + rawLen
      modifies mem, tags
      ensures Valid() && Lends() == Loans(map[], map[])
      ensures this.raw == raw && this.rawLen == rawLen && this.base == base && buddy.mem == mem && buddy.tags == tags
              && tlsf.cfg == cfg && buddy.baseAlign == baseAlign
      ensures buddy.geo == Geometry(lm, mem.Length, Fls(units) + 1)
      ensures Blank() && buddy.units == units
      ensures fresh(Repr() - {mem, tags})
    {
      hide BaseAligned, BuddyState.Represents, BuddyState.MaskMatches, BuddyState.Weigh, Sum, Sound, NoHand, Shl, Fls,
           Decomposition, Rep;
      this.raw, this.rawLen, this.base := raw, rawLen, base;
      var b := new Buddy(lm, mx, units, baseAlign, checkLinks, mem, tags);
      var t := new Tlsf(cfg, mem);
      this.buddy, this.tlsf, this.spare := b, t, NULL;
      SeedLends(b.geo, units);
    }

    /** Nothing lent and no sheet yet. */
    ghost predicate Blank()
      reads Repr()
    {
      spare == NULL && tlsf.sheets == {} && tlsf.blocks == map[] && Lends() == Loans(map[], map[])
    }

    /** The memory of the region. */
    ghost function Memory(): seq<Granule>
      reads Repr()
    {
      buddy.mem[..]
    }

    // ---- large blocks ------------------------------------------------------------------------------

    lemma StartsApart(p: nat)
      requires Valid()
      ensures p in Lends().larges && p > 0 ==> p - 1 !in Lends().smalls
    {
      hide BaseAligned, BuddyState.Represents, BuddyState.MaskMatches, BuddyState.Weigh, Sum, Sound, LiveSizes, NoHand,
           Tiled, Hosted, Joined, Rep;
      NewApart(p);
    }

    lemma NewApart(p: nat)
      requires Core() && Joined(buddy.tiles, tlsf.sheets)
      ensures p in Lends().larges && p > 0 ==> p - 1 !in Lends().smalls
    {
      hide BaseAligned, Rep, BuddyState.Represents, BuddyState.MaskMatches, BuddyState.Weigh, Sum, Sound, LiveSizes,
           NoHand, Tiled, Hosted;
      BuddyState.LinkedOf(buddy.geo, buddy.mem[..], buddy.tags[..], buddy.heads[..], buddy.lists, buddy.tiles, NULL);
      Exclusive(buddy.geo, tlsf.cfg, tlsf.Now(), buddy.tiles, p);
    }

    /** `buddy.allocate`, seen from the region. */
    method BuddyAllocate(n: nat) returns (c: Chunk)
      requires Valid()
      modifies Repr()
      ensures Valid() && spare == old(spare) && tlsf.blocks == old(tlsf.blocks) && tlsf.sheets == old(tlsf.sheets)
      ensures tlsf.lists == old(tlsf.lists) && tlsf.count == old(tlsf.count)
      ensures c.Null? <==> n == 0 || !Servable(buddy.geo, old(buddy.tiles), OrderForSize(buddy.geo, n))
      ensures c.Null? ==> buddy.tiles == old(buddy.tiles) && buddy.mem[..] == old(buddy.mem[..])
      ensures n > 0 ==> LargeResult(buddy.geo, old(Lends()), Lends(), c, n, OrderForSize(buddy.geo, n))
      ensures n == 0 ==> Lends() == old(Lends())
      ensures Intact(buddy.geo, old(Lends()), old(buddy.mem[..]), buddy.mem[..])
    {
      hide BaseAligned, Rep, BuddyState.Represents, BuddyState.MaskMatches, BuddyState.Weigh, Sum, OrderForSize,
           Servable, OrderSize, Intact, Sound, LoansOf, LiveSizes, NoHand, BuddyState.Kept, Tiled, SpareHolds,
           EmptySheet;
      ghost var v, t0 := tlsf.Now(), buddy.tiles;
      BuddyState.LinkedOf(buddy.geo, v.mem, buddy.tags[..], buddy.heads[..], buddy.lists, t0, NULL);
      IntactSelf(buddy.geo, Lends(), v.mem);
      c := buddy.Allocate(n);
      if c.Chunk? {
        GrantKeeps(buddy.geo, tlsf.cfg, v, t0, buddy.tiles, c.pos, OrderForSize(buddy.geo, n), buddy.mem[..]);
        assert tlsf.Now() == v.(mem := buddy.mem[..]);
        NewApart(c.pos);
      } else {
        assert tlsf.Now() == v;
      }
    }

    // ---- sheets --------------------------------------------------------------------------------------

    /** The sheets in use: those that hold a small loan. */
    ghost function InUse(): set<nat>
      reads tlsf
    {
      SheetsUsed(tlsf.cfg, LiveSizes(tlsf.blocks))
    }

    /** `release_sheet`: an empty sheet goes back to the buddy tier; any other stays.  The branch that
        puts the sheet back when the buddy refuses it is never taken. */
    method ReleaseSheet(s: nat)
      requires Core() && Joined(buddy.tiles, tlsf.sheets) && (s == NULL || s in tlsf.sheets)
               && (spare == NULL || spare in tlsf.sheets)
      modifies Repr()
      ensures Core() && Joined(buddy.tiles, tlsf.sheets) && Lends() == old(Lends())
      ensures if s != NULL && s !in old(InUse())
              then tlsf.sheets == old(tlsf.sheets) - {s} && Busy(buddy.tiles) == Busy(old(buddy.tiles)) - {s}
                   && spare == if old(spare) == s then NULL else old(spare)
              else tlsf.sheets == old(tlsf.sheets) && buddy.tiles == old(buddy.tiles) && spare == old(spare)
      ensures Intact(buddy.geo, old(Lends()), old(buddy.mem[..]), buddy.mem[..])
    {
      hide BaseAligned, Rep, BuddyState.Represents, BuddyState.MaskMatches, BuddyState.Weigh, Sum, Intact, Sound,
           LoansOf, LiveSizes, NoHand, BuddyState.Kept, Tiled, SheetsUsed, Aligned;
      IntactSelf(buddy.geo, Lends(), buddy.mem[..]);
      if s == NULL {
        return;
      }
      BuddyState.LinkedOf(buddy.geo, buddy.mem[..], buddy.tags[..], buddy.heads[..], buddy.lists, buddy.tiles, NULL);
      SheetTile(buddy.geo, tlsf.cfg, buddy.tiles, tlsf.sheets, s);
      if s >= buddy.geo.total {
        return;
      }
      var here := buddy.IsSheetAt(s);
      if !here {
        return;
      }
      UsedIff(tlsf.cfg, tlsf.Now(), s);
      var ok := DropSheet(s);
      if !ok {
        return;
      }
      ghost var m1 := buddy.mem[..];
      GiveBack(s);
      IntactTrans(buddy.geo, old(Lends()), old(buddy.mem[..]), m1, buddy.mem[..]);
      if spare == s {
        spare := NULL;
      }
    }

    method DropSheet(s: nat) returns (ok: bool)
      requires Core() && s in tlsf.sheets && Joined(buddy.tiles, tlsf.sheets)
      modifies tlsf, tlsf.heads, tlsf.slBits, tlsf.mem
      ensures Core() && Lends() == old(Lends())
      ensures ok <==> s !in old(InUse())
      ensures tlsf.sheets == if ok then old(tlsf.sheets) - {s} else old(tlsf.sheets)
      ensures Intact(buddy.geo, old(Lends()), old(buddy.mem[..]), buddy.mem[..])
    {
      hide BaseAligned, Rep, BuddyState.Represents, BuddyState.MaskMatches, BuddyState.Weigh, Sum, Intact, Sound,
           LiveSizes, NoHand, Tiled, SheetsUsed, Spared;
      ghost var v := tlsf.Now();
      UsedIff(tlsf.cfg, v, s);
      BuddyState.LinkedOf(buddy.geo, v.mem, buddy.tags[..], buddy.heads[..], buddy.lists, buddy.tiles, NULL);
      ok := tlsf.RemoveSheet(s);
      SparedFrame(buddy.geo, tlsf.cfg, v.mem, buddy.mem[..], buddy.tags[..], buddy.heads[..], buddy.lists, buddy.tiles,
          v.sheets,
                  Lent(v.blocks));
      LentSizes(v.blocks);
      SparedIntact(buddy.geo, tlsf.cfg, buddy.tiles, v.sheets, Lent(v.blocks), old(Lends()), v.mem, buddy.mem[..]);
    }

    method GiveBack(s: nat)
      requires Core() && s !in tlsf.sheets && IsSheet(buddy.tiles, s)
      modifies buddy, buddy.mem, buddy.tags, buddy.heads
      ensures Core() && Lends() == old(Lends()) && Busy(buddy.tiles) == Busy(old(buddy.tiles)) - {s}
      ensures forall t: nat :: IsSheet(buddy.tiles, t) <==> t != s && IsSheet(old(buddy.tiles), t)
      ensures Intact(buddy.geo, old(Lends()), old(buddy.mem[..]), buddy.mem[..])
    {
      hide BaseAligned, Rep, BuddyState.Represents, BuddyState.MaskMatches, BuddyState.Weigh, Sum, Intact, Sound,
           LiveSizes, NoHand, Tiled, BuddyState.Kept;
      ghost var v, t0 := tlsf.Now(), buddy.tiles;
      buddy.UnmarkSheet(s);
      ghost var t1 := buddy.tiles;
      BuddyState.LinkedOf(buddy.geo, v.mem, buddy.tags[..], buddy.heads[..], buddy.lists, t1, NULL);
      var ok := buddy.Deallocate(16 * s);
      assert ok;
      FreeKeeps(buddy.geo, tlsf.cfg, v, t1, buddy.tiles, s, buddy.mem[..]);
      assert tlsf.Now() == v.(mem := buddy.mem[..]);
      UnmarkedLends(t0, s, v.blocks);
    }

    /** `flush_spare`: afterwards nothing is lent by the buddy tier but what the loans pin down. */
    method FlushSpare()
      requires Valid()
      modifies Repr()
      ensures Valid() && spare == NULL && Lends() == old(Lends())
      ensures old(spare) == NULL ==> buddy.tiles == old(buddy.tiles) && tlsf.sheets == old(tlsf.sheets)
      ensures Intact(buddy.geo, old(Lends()), old(buddy.mem[..]), buddy.mem[..])
    {
      hide BaseAligned, Rep, BuddyState.Represents, BuddyState.MaskMatches, BuddyState.Weigh, Sum, Intact, Sound,
           LiveSizes, NoHand, Tiled, SheetsUsed, Aligned, EmptySheet;
      IntactSelf(buddy.geo, Lends(), buddy.mem[..]);
      if spare == NULL {
        return;
      }
      var s := spare;
      spare := NULL;
      BuddyState.LinkedOf(buddy.geo, buddy.mem[..], buddy.tags[..], buddy.heads[..], buddy.lists, buddy.tiles, NULL);
      SheetTile(buddy.geo, tlsf.cfg, buddy.tiles, tlsf.sheets, s);
      UsedIff(tlsf.cfg, tlsf.Now(), s);
      var here := buddy.IsSheetAt(s);
      var empty := here;
      if here {
        empty := tlsf.SheetEmpty(s);
      }
      if empty {
        ReleaseSheet(s);
      }
    }

    // ---- large allocation ------------------------------------------------------------------------------

    /** What an empty spare sheet takes away from the buddy tier. */
    lemma SpareHides(o: nat)
      requires Valid()
      ensures Servable(buddy.geo, buddy.tiles, o) ==> Servable(buddy.geo, Pinned(buddy.geo, tlsf.cfg, Lends()), o)
      ensures spare == NULL
              ==> (Servable(buddy.geo, Pinned(buddy.geo, tlsf.cfg, Lends()), o)
              <==> Servable(buddy.geo, buddy.tiles, o))
    {
      hide BaseAligned, Rep, BuddyState.Represents, BuddyState.MaskMatches, BuddyState.Weigh, Sum, Sound, LoansOf,
           LiveSizes, NoHand, Servable, Tiled, SheetsUsed, Pinned, Hosted, Joined;
      PinnedIs(buddy.geo, tlsf.cfg, tlsf.Now(), buddy.tiles, spare);
      ServableBusy(buddy.geo, buddy.tiles, o);
      if Servable(buddy.geo, buddy.tiles, o) {
        ServableLess(buddy.geo, Pinned(buddy.geo, tlsf.cfg, Lends()), Busy(buddy.tiles), o);
      }
      if spare == NULL {
        NoSheetAtNull(tlsf.cfg, tlsf.Now());
      }
    }

    method LargeAllocSlow(n: nat) returns (c: Chunk)
      requires Valid()
      modifies Repr()
      ensures Valid()
      ensures c.Null? <==> old(spare) == NULL || n == 0
                           || !Servable(buddy.geo, Pinned(buddy.geo, tlsf.cfg, old(Lends())),
                              OrderForSize(buddy.geo, n))
      ensures n > 0 ==> LargeResult(buddy.geo, old(Lends()), Lends(), c, n, OrderForSize(buddy.geo, n))
      ensures n == 0 ==> Lends() == old(Lends())
      ensures buddy.geo.top > 0 && (n > OrderSize(buddy.geo, buddy.geo.top - 1) ==>
                spare == old(spare) && tlsf.sheets == old(tlsf.sheets))
      ensures Intact(buddy.geo, old(Lends()), old(buddy.mem[..]), buddy.mem[..])
    {
      hide BaseAligned, Rep, BuddyState.Represents, BuddyState.MaskMatches, BuddyState.Weigh, Sum, OrderForSize,
           Servable, OrderSize, Intact, Sound, LoansOf, LiveSizes, NoHand, Tiled, Pinned, SpareHolds, Hosted, Joined;
      IntactSelf(buddy.geo, Lends(), buddy.mem[..]);
      if n > 0 { CouldServeIff(buddy.geo, n, 1); }
      if spare == NULL {
        return Null;
      }
      if !buddy.CouldServe(n) {
        NotServable(buddy.geo, Pinned(buddy.geo, tlsf.cfg, Lends()), n);
        return Null;
      }
      FlushSpare();
      SpareHides(OrderForSize(buddy.geo, n));
      ghost var m1 := buddy.mem[..];
      c := BuddyAllocate(n);
      IntactTrans(buddy.geo, old(Lends()), old(buddy.mem[..]), m1, buddy.mem[..]);
    }

    /** Fails exactly when the loans leave no aligned run of the order: an empty spare sheet never
        stands in the way. */
    method LargeAlloc(n: nat) returns (c: Chunk)
      requires Valid()
      modifies Repr()
      ensures Valid()
      ensures c.Null? <==>
              n == 0
              || !Servable(buddy.geo, Pinned(buddy.geo, tlsf.cfg, old(Lends())), OrderForSize(buddy.geo, n))
      ensures n > 0 ==> LargeResult(buddy.geo, old(Lends()), Lends(), c, n, OrderForSize(buddy.geo, n))
      ensures n == 0 ==> Lends() == old(Lends())
      ensures n > 0 && Servable(buddy.geo, old(buddy.tiles), OrderForSize(buddy.geo, n)) ==>
                spare == old(spare) && tlsf.sheets == old(tlsf.sheets)
      ensures Intact(buddy.geo, old(Lends()), old(buddy.mem[..]), buddy.mem[..])
    {
      hide BaseAligned, Rep, BuddyState.Represents, BuddyState.MaskMatches, BuddyState.Weigh, Sum, OrderForSize,
           Servable, OrderSize, Intact, Sound, LoansOf, LiveSizes, NoHand, Tiled, Pinned, SpareHolds, Hosted, Joined;
      if n > 0 {
        SpareHides(OrderForSize(buddy.geo, n));
      }
      c := BuddyAllocate(n);
      if c.Null? {
        c := LargeAllocSlow(n);
      }
    }

    /** `buddy.allocate_aligned`, seen from the region. */
    method BuddyAllocateAligned(n: nat, alignment: nat) returns (c: Chunk)
      requires Valid()
      modifies Repr()
      ensures Valid() && spare == old(spare)
      ensures c.Null? <==> (n == 0 || !IsPow2(alignment) || alignment > buddy.baseAlign || alignment == 0
                            || !Servable(buddy.geo, old(buddy.tiles), AlignedOrder(buddy.geo, n, alignment)))
      ensures c.Null? ==> buddy.tiles == old(buddy.tiles) && Lends() == old(Lends())
      ensures c.Chunk? ==> n > 0 && alignment > 0 && (base + 16 * c.pos) % alignment == 0
                           && LargeResult(buddy.geo, old(Lends()), Lends(), c, n, AlignedOrder(buddy.geo, n, alignment))
      ensures tlsf.sheets == old(tlsf.sheets)
      ensures Intact(buddy.geo, old(Lends()), old(buddy.mem[..]), buddy.mem[..])
    {
      hide BaseAligned, Rep, BuddyState.Represents, BuddyState.MaskMatches, BuddyState.Weigh, Sum, AlignedOrder,
           Servable, OrderSize, Intact, Sound, LoansOf, LiveSizes, NoHand, BuddyState.Kept, Tiled, SpareHolds, IsPow2;
      ghost var v, t0 := tlsf.Now(), buddy.tiles;
      BuddyState.LinkedOf(buddy.geo, v.mem, buddy.tags[..], buddy.heads[..], buddy.lists, t0, NULL);
      IntactSelf(buddy.geo, Lends(), v.mem);
      Pow2IsPositive(alignment);
      c := buddy.AllocateAligned(n, alignment);
      if c.Chunk? {
        GrantKeeps(buddy.geo, tlsf.cfg, v, t0, buddy.tiles, c.pos, AlignedOrder(buddy.geo, n, alignment),
            buddy.mem[..]);
        assert tlsf.Now() == v.(mem := buddy.mem[..]);
        NewApart(c.pos);
        AlignedAddress(base, buddy.baseAlign, alignment, c.pos);
      } else {
        assert tlsf.Now() == v;
      }
    }

    /** The address of an aligned grant is a multiple of the alignment. */
    method LargeAllocAligned(n: nat, alignment: nat) returns (c: Chunk)
      requires Valid()
      modifies Repr()
      ensures Valid()
      ensures c.Null? <==> (n == 0 || !IsPow2(alignment) || alignment > buddy.baseAlign || alignment == 0
                            || !Servable(buddy.geo, Pinned(buddy.geo, tlsf.cfg, old(Lends())),
                               AlignedOrder(buddy.geo, n, alignment)))
      ensures c.Null? ==> Lends() == old(Lends())
      ensures c.Chunk? ==> n > 0 && alignment > 0 && (base + 16 * c.pos) % alignment == 0
                           && LargeResult(buddy.geo, old(Lends()), Lends(), c, n, AlignedOrder(buddy.geo, n, alignment))
      ensures n > 0 && alignment > 0 && IsPow2(alignment) && alignment <= buddy.baseAlign
              && Servable(buddy.geo, old(buddy.tiles), AlignedOrder(buddy.geo, n, alignment)) ==>
                spare == old(spare) && tlsf.sheets == old(tlsf.sheets)
      ensures buddy.geo.top > 0
      ensures !IsPow2(alignment) || alignment > buddy.baseAlign || n > OrderSize(buddy.geo, buddy.geo.top - 1)
              || alignment > OrderSize(buddy.geo, buddy.geo.top - 1) ==>
                spare == old(spare) && tlsf.sheets == old(tlsf.sheets)
      ensures Intact(buddy.geo, old(Lends()), old(buddy.mem[..]), buddy.mem[..])
    {
      hide BaseAligned, Rep, BuddyState.Represents, BuddyState.MaskMatches, BuddyState.Weigh, Sum, AlignedOrder,
           Servable, OrderSize, Intact, Sound, LoansOf, LiveSizes, NoHand, Tiled, SpareHolds, IsPow2, Pinned, Hosted,
           Joined;
      Pow2IsPositive(alignment);
      if n > 0 && alignment > 0 {
        SpareHides(AlignedOrder(buddy.geo, n, alignment));
        NotServableAligned(buddy.geo, Pinned(buddy.geo, tlsf.cfg, Lends()), n, alignment);
        CouldServeIff(buddy.geo, n, alignment);
      }
      c := BuddyAllocateAligned(n, alignment);
      if c.Null? && spare != NULL && buddy.CouldServeAligned(n, alignment) {
        ghost var m1 := buddy.mem[..];
        FlushSpare();
        SpareHides(AlignedOrder(buddy.geo, n, alignment));
        IntactTrans(buddy.geo, old(Lends()), old(buddy.mem[..]), m1, buddy.mem[..]);
        m1 := buddy.mem[..];
        c := BuddyAllocateAligned(n, alignment);
        IntactTrans(buddy.geo, old(Lends()), old(buddy.mem[..]), m1, buddy.mem[..]);
      }
    }

    /** `buddy.deallocate_order`, seen from the region. */
    method LargeFree(g: nat, o: nat)
      requires Valid() && g in Lends().larges && Lends().larges[g] == o
      modifies Repr()
      ensures Valid() && Lends() == ReturnLarge(old(Lends()), g)
      ensures Intact(buddy.geo, ReturnLarge(old(Lends()), g), old(buddy.mem[..]), buddy.mem[..])
    {
      hide BaseAligned, Rep, BuddyState.Represents, BuddyState.MaskMatches, BuddyState.Weigh, Sum, Intact, Sound,
           LiveSizes, NoHand, BuddyState.Kept, Tiled, SheetsUsed;
      ghost var v, t0 := tlsf.Now(), buddy.tiles;
      BuddyState.LinkedOf(buddy.geo, v.mem, buddy.tags[..], buddy.heads[..], buddy.lists, t0, NULL);
      assert !IsSheet(t0, g);
      buddy.DeallocateOrder(g, o);
      FreeKeeps(buddy.geo, tlsf.cfg, v, t0, buddy.tiles, g, buddy.mem[..]);
      assert tlsf.Now() == v.(mem := buddy.mem[..]);
    }

    // ---- small allocation --------------------------------------------------------------------------------

    /** `tlsf.allocate`, seen from the region. */
    method TlsfAllocate(n: nat) returns (c: Chunk)
      requires Core() && Joined(buddy.tiles, tlsf.sheets)
      modifies tlsf, tlsf.heads, tlsf.slBits, tlsf.mem
      ensures Core() && tlsf.sheets == old(tlsf.sheets) && tlsf.count == old(tlsf.count)
      ensures c.Null? <==> !FitsIn(tlsf.cfg, old(tlsf.lists), old(tlsf.blocks), n)
      ensures c.Null? ==>
              tlsf.blocks == old(tlsf.blocks) && tlsf.lists == old(tlsf.lists)
              && buddy.mem[..] == old(buddy.mem[..])
      ensures c.Chunk? ==> Granted(tlsf.cfg, old(tlsf.lists), old(tlsf.blocks), n, c)
      ensures SmallResult(old(Lends()), Lends(), c, n)
      ensures Intact(buddy.geo, old(Lends()), old(buddy.mem[..]), buddy.mem[..])
    {
      hide BaseAligned, Rep, BuddyState.Represents, BuddyState.MaskMatches, BuddyState.Weigh, Sum, Intact, Sound,
           LiveSizes, NoHand, Tiled, SheetsUsed, Spared, HeadsList, FitsIn;
      ghost var v := tlsf.Now();
      ParamBounds(tlsf.cfg, v, {}, {});
      BuddyState.LinkedOf(buddy.geo, v.mem, buddy.tags[..], buddy.heads[..], buddy.lists, buddy.tiles, NULL);
      c := tlsf.Allocate(n);
      SparedFrame(buddy.geo, tlsf.cfg, v.mem, buddy.mem[..], buddy.tags[..], buddy.heads[..], buddy.lists, buddy.tiles,
          v.sheets,
                  Lent(v.blocks));
      LentSizes(v.blocks);
      SparedIntact(buddy.geo, tlsf.cfg, buddy.tiles, v.sheets, Lent(v.blocks), old(Lends()), v.mem, buddy.mem[..]);
      if c.Chunk? {
        NewApart(c.pos);
      }
    }

    /** The first half of `small_alloc_slow`: a buddy block becomes a sheet. */
    method AcquireSheet() returns (s: nat)
      requires Valid()
      modifies Repr()
      ensures Core() && Joined(buddy.tiles, tlsf.sheets) && Lends() == old(Lends()) && spare == old(spare)
      ensures s == NULL <==> old(tlsf.count) >= tlsf.cfg.maxSheets
                             || !Servable(buddy.geo, old(buddy.tiles), SheetOrder(buddy.geo, tlsf.cfg))
      ensures s == NULL ==>
              tlsf.sheets == old(tlsf.sheets) && tlsf.blocks == old(tlsf.blocks)
              && buddy.tiles == old(buddy.tiles)
      ensures s != NULL ==>
              s !in old(tlsf.sheets) && tlsf.sheets == old(tlsf.sheets) + {s}
              && EmptySheet(tlsf.cfg, tlsf.blocks, s)
                            && FiledFirst(tlsf.cfg, old(tlsf.lists), tlsf.lists, s)
      ensures Intact(buddy.geo, old(Lends()), old(buddy.mem[..]), buddy.mem[..])
    {
      hide BaseAligned, Rep, BuddyState.Represents, BuddyState.MaskMatches, BuddyState.Weigh, Sum, Intact, Sound,
           LoansOf, LiveSizes, NoHand, Tiled, SheetsUsed, Servable, OrderForSize, FiledFirst, EmptySheet, Span;
      IntactSelf(buddy.geo, Lends(), buddy.mem[..]);
      if tlsf.count >= tlsf.cfg.maxSheets {
        return NULL;
      }
      SheetAsked(buddy.geo, tlsf.cfg);
      var c := BuddyAllocate(16 * Span(tlsf.cfg));
      if c.Null? {
        return NULL;
      }
      s := c.pos;
      ghost var m1 := buddy.mem[..];
      HostSheet(s, old(Lends()));
      IntactTrans(buddy.geo, old(Lends()), old(buddy.mem[..]), m1, buddy.mem[..]);
    }

    /** `add_sheet` and `mark_sheet` on a large block fresh from the buddy tier.  Adding never fails. */
    method HostSheet(s: nat, ghost l: Loans)
      requires Core() && Joined(buddy.tiles, tlsf.sheets) && tlsf.count < tlsf.cfg.maxSheets
      requires s !in l.larges && Lends() == LendLarge(l, s, SheetOrder(buddy.geo, tlsf.cfg))
      modifies tlsf, tlsf.heads, tlsf.slBits, tlsf.mem, buddy, buddy.tags
      ensures Core() && Joined(buddy.tiles, tlsf.sheets) && Lends() == l
      ensures s != NULL && s !in old(tlsf.sheets) && tlsf.sheets == old(tlsf.sheets) + {s}
              && EmptySheet(tlsf.cfg, tlsf.blocks, s)
      ensures FiledFirst(tlsf.cfg, old(tlsf.lists), tlsf.lists, s)
      ensures Intact(buddy.geo, l, old(buddy.mem[..]), buddy.mem[..])
    {
      hide BaseAligned, Rep, BuddyState.Represents, BuddyState.MaskMatches, BuddyState.Weigh, Sum, Intact, Sound,
           LiveSizes, NoHand, Tiled, SheetsUsed, FiledFirst, EmptySheet, Aligned, Spared, LargeOrders;
      ghost var t0, b0 := buddy.tiles, tlsf.blocks;
      LentLarge(t0, b0, l, s, SheetOrder(buddy.geo, tlsf.cfg));
      AddHosted(s, l);
      buddy.MarkSheet(s);
      MarkedLends(t0, s, b0, l);
    }

    method AddHosted(s: nat, ghost l: Loans)
      requires Core() && Joined(buddy.tiles, tlsf.sheets) && tlsf.count < tlsf.cfg.maxSheets
      requires s !in l.larges && Lends() == LendLarge(l, s, SheetOrder(buddy.geo, tlsf.cfg))
      modifies tlsf, tlsf.heads, tlsf.slBits, tlsf.mem
      ensures Core() && LiveSizes(tlsf.blocks) == LiveSizes(old(tlsf.blocks))
      ensures s != NULL && s !in old(tlsf.sheets) && tlsf.sheets == old(tlsf.sheets) + {s}
              && EmptySheet(tlsf.cfg, tlsf.blocks, s)
      ensures FiledFirst(tlsf.cfg, old(tlsf.lists), tlsf.lists, s)
      ensures Intact(buddy.geo, l, old(buddy.mem[..]), buddy.mem[..])
    {
      hide BaseAligned, Rep, BuddyState.Represents, BuddyState.MaskMatches, BuddyState.Weigh, Sum, Intact, Sound,
           LiveSizes, NoHand, Tiled, FiledFirst, EmptySheet, Aligned, Spared, LargeOrders;
      ghost var v, t0 := tlsf.Now(), buddy.tiles;
      BuddyState.LinkedOf(buddy.geo, v.mem, buddy.tags[..], buddy.heads[..], buddy.lists, t0, NULL);
      LentLarge(t0, v.blocks, l, s, SheetOrder(buddy.geo, tlsf.cfg));
      HostPlace(buddy.geo, tlsf.cfg, t0, s);
      MemBound(tlsf.cfg, v);
      var ok := tlsf.AddSheet(s);
      assert ok;
      SparedFrame(buddy.geo, tlsf.cfg, v.mem, buddy.mem[..], buddy.tags[..], buddy.heads[..], buddy.lists, buddy.tiles,
          v.sheets + {s},
                  Lent(v.blocks));
      LentSizes(v.blocks);
      SparedIntact(buddy.geo, tlsf.cfg, t0, v.sheets + {s}, Lent(v.blocks), l, v.mem, buddy.mem[..]);
    }

    /** Fails exactly when there may be no more sheets or no block can host one.  Otherwise the
        request is granted from the fresh sheet: the branch that would release it is never taken. */
    method SmallAllocSlow(n: nat) returns (c: Chunk)
      requires Valid() && 1 <= n <= tlsf.cfg.smallMax && !FitsIn(tlsf.cfg, tlsf.lists, tlsf.blocks, n)
      modifies Repr()
      ensures Valid()
      ensures c.Null? <==> old(tlsf.count) >= tlsf.cfg.maxSheets
                           || !Servable(buddy.geo, old(buddy.tiles), SheetOrder(buddy.geo, tlsf.cfg))
      ensures c.Chunk? ==> SheetOf(tlsf.cfg, c.pos) !in old(tlsf.sheets)
                           && tlsf.sheets == old(tlsf.sheets) + {SheetOf(tlsf.cfg, c.pos)}
                              && FirstPayload(tlsf.cfg, c.pos)
      ensures SmallResult(old(Lends()), Lends(), c, n)
      ensures Intact(buddy.geo, old(Lends()), old(buddy.mem[..]), buddy.mem[..])
    {
      hide BaseAligned, Rep, BuddyState.Represents, BuddyState.MaskMatches, BuddyState.Weigh, Sum, Intact, LiveSizes,
           NoHand, Tiled, SheetsUsed, Servable, FiledFirst, EmptySheet, SheetOf, Above, FitsIn, Sound, Hosted,
           HeadsList, DataOff;
      var s := AcquireSheet();
      if s == NULL {
        return Null;
      }
      EmptyIsAbove(tlsf.cfg, tlsf.Now(), s, n);
      EmptyFits(tlsf.cfg, tlsf.Now(), s, n);
      ghost var m1, l1, b1 := buddy.mem[..], tlsf.lists, tlsf.blocks;
      c := TlsfAllocate(n);
      assert c.Chunk?;
      IntactTrans(buddy.geo, old(Lends()), old(buddy.mem[..]), m1, buddy.mem[..]);
      GrantIsFresh(tlsf.cfg, old(tlsf.lists), old(tlsf.blocks), l1, b1, s, n, c.pos - 1);
      FreshPlace(tlsf.cfg, tlsf.Now(), s, c.pos - 1);
      UsedGrows(tlsf.cfg, b1, tlsf.blocks, c.pos - 1, c.len / 16 + 1);
    }

    /** A small request can be met from the sheets as they are. */
    ghost predicate FitsNow(n: nat)
      reads Repr()
    {
      tlsf.cfg.slLog <= 5 && FitsIn(tlsf.cfg, tlsf.lists, tlsf.blocks, n)
    }

    /** A small request can be met: from the sheets as they are, or from one more. */
    ghost predicate CanSmall(n: nat)
      reads Repr()
    {
      && tlsf.cfg.slLog <= 5 && buddy.geo.lm <= tlsf.cfg.sheetLog
      && (|| FitsIn(tlsf.cfg, tlsf.lists, tlsf.blocks, n)
          || (tlsf.count < tlsf.cfg.maxSheets && Servable(buddy.geo, buddy.tiles, SheetOrder(buddy.geo, tlsf.cfg))))
    }

    /** A region without sheets meets no small request as it is, and every one if it is as large as a sheet. */
    lemma BlankOpens(n: nat)
      requires Valid() && Blank() && SheetOrder(buddy.geo, tlsf.cfg) < buddy.geo.top
               && Span(tlsf.cfg) <= buddy.geo.total
      ensures !FitsNow(n) && CanSmall(n)
    {
      hide BaseAligned, Rep, BuddyState.Represents, BuddyState.MaskMatches, BuddyState.Weigh, Sum, LiveSizes, NoHand,
           Tiled, Aligned, Size, Hosted;
      BuddyState.LinkedOf(buddy.geo, buddy.mem[..], buddy.tags[..], buddy.heads[..], buddy.lists, buddy.tiles, NULL);
      ParamBounds(tlsf.cfg, tlsf.Now(), {}, {});
      NothingFits(tlsf.cfg, tlsf.Now(), n);
      SheetSize(buddy.geo, tlsf.cfg);
      AllFree(buddy.tiles, tlsf.blocks, tlsf.sheets);
      AlignedZero(buddy.geo.lm + SheetOrder(buddy.geo, tlsf.cfg));
      assert Run(buddy.geo, buddy.tiles, 0, SheetOrder(buddy.geo, tlsf.cfg));
    }

    /** `tlsf.allocate`, with nothing but the loans changed. */
    method SmallTry(n: nat) returns (c: Chunk)
      requires Valid() && tlsf.cfg.slLog <= 5
      modifies Repr()
      ensures Valid() && buddy.tiles == old(buddy.tiles) && tlsf.count == old(tlsf.count)
      ensures c.Null? <==> !FitsIn(tlsf.cfg, old(tlsf.lists), old(tlsf.blocks), n)
      ensures c.Null? ==> tlsf.blocks == old(tlsf.blocks) && tlsf.lists == old(tlsf.lists)
      ensures SmallResult(old(Lends()), Lends(), c, n)
      ensures Intact(buddy.geo, old(Lends()), old(buddy.mem[..]), buddy.mem[..])
    {
      hide BaseAligned, Rep, BuddyState.Represents, BuddyState.MaskMatches, BuddyState.Weigh, Sum, Intact, LiveSizes,
           NoHand, Tiled, SheetsUsed, SheetOf, FitsIn, Hosted, Joined, HeadsList, Sound;
      ghost var b0 := tlsf.blocks;
      c := TlsfAllocate(n);
      if c.Chunk? {
        UsedGrows(tlsf.cfg, b0, tlsf.blocks, c.pos - 1, c.len / 16 + 1);
      }
    }

    method SmallAlloc(n: nat) returns (c: Chunk)
      requires Valid() && tlsf.cfg.slLog <= 5 && 1 <= n <= tlsf.cfg.smallMax
      modifies Repr()
      ensures Valid()
      ensures c.Null? <==> !old(CanSmall(n))
      ensures SmallResult(old(Lends()), Lends(), c, n)
      ensures Intact(buddy.geo, old(Lends()), old(buddy.mem[..]), buddy.mem[..])
    {
      hide BaseAligned, Rep, BuddyState.Represents, BuddyState.MaskMatches, BuddyState.Weigh, Sum, Intact, LiveSizes,
           NoHand, Tiled, SheetsUsed, Servable, SheetOf, FitsIn, Hosted, Joined, HeadsList, Sound;
      c := SmallTry(n);
      if c.Null? {
        ghost var m1 := buddy.mem[..];
        c := SmallAllocSlow(n);
        IntactTrans(buddy.geo, old(Lends()), old(buddy.mem[..]), m1, buddy.mem[..]);
      }
    }

    // ---- release of small loans -----------------------------------------------------------------------------

    /** `__sheet_emptied`: the sheet becomes the spare, or goes back if there is an empty spare already. */
    method SheetEmptied(s: nat)
      requires Core() && Joined(buddy.tiles, tlsf.sheets) && (spare == NULL || spare in tlsf.sheets)
      requires s in tlsf.sheets && s !in InUse() && s != NULL && s != spare
      requires forall t: nat :: t in tlsf.sheets && t != s && t != spare ==> t in InUse()
      modifies Repr()
      ensures Valid() && Lends() == old(Lends())
      ensures SpareAfter(old(spare), old(spare) != NULL && old(spare) !in old(InUse()), s, old(tlsf.sheets), spare,
              tlsf.sheets)
      ensures Intact(buddy.geo, old(Lends()), old(buddy.mem[..]), buddy.mem[..])
    {
      hide BaseAligned, Rep, BuddyState.Represents, BuddyState.MaskMatches, BuddyState.Weigh, Sum, Intact, LiveSizes,
           NoHand, Tiled, SheetsUsed, SheetOf, Hosted, Joined, Sound, EmptySheet;
      IntactSelf(buddy.geo, Lends(), buddy.mem[..]);
      NoSheetAtNull(tlsf.cfg, tlsf.Now());
      if spare != NULL {
        UsedIff(tlsf.cfg, tlsf.Now(), spare);
        var empty := tlsf.SheetEmpty(spare);
        if empty {
          ReleaseSheet(s);
          return;
        }
      }
      spare := s;
    }

    /** A sheet that this empties becomes the spare if there is no empty spare, and goes back otherwise. */
    method SmallFree(hdr: nat)
      requires Valid() && hdr in Lends().smalls
      modifies Repr()
      ensures Valid() && Lends() == ReturnSmall(old(Lends()), hdr)
      ensures var s := SheetOf(tlsf.cfg, hdr);
              if s in InUse() || s == old(spare) then spare == old(spare) && tlsf.sheets == old(tlsf.sheets)
              else SpareAfter(old(spare), old(spare) != NULL && old(spare) !in InUse(), s, old(tlsf.sheets), spare,
                   tlsf.sheets)
      ensures Intact(buddy.geo, ReturnSmall(old(Lends()), hdr), old(buddy.mem[..]), buddy.mem[..])
    {
      hide BaseAligned, Rep, BuddyState.Represents, BuddyState.MaskMatches, BuddyState.Weigh, Sum, Intact, LiveSizes,
           NoHand, Tiled, SheetsUsed, SheetOf, Hosted, Joined, Sound, EmptySheet, LargeOrders;
      ghost var b0 := tlsf.blocks;
      var s := TlsfDeallocate(hdr);
      ghost var m1 := buddy.mem[..];
      IntactSelf(buddy.geo, Lends(), m1);
      UsedShrinks(tlsf.cfg, b0, tlsf.blocks, hdr);
      if s != NULL && s != spare {
        SheetEmptied(s);
      }
      IntactTrans(buddy.geo, Lends(), old(buddy.mem[..]), m1, buddy.mem[..]);
    }

    /** `tlsf.deallocate`, seen from the region: it reports the sheet if that is no longer in use. */
    method TlsfDeallocate(hdr: nat) returns (s: nat)
      requires Core() && Joined(buddy.tiles, tlsf.sheets) && hdr in Lends().smalls
      modifies tlsf, tlsf.heads, tlsf.slBits, tlsf.mem
      ensures Core() && tlsf.sheets == old(tlsf.sheets)
      ensures Lends() == ReturnSmall(old(Lends()), hdr)
      ensures SheetOf(tlsf.cfg, hdr) in tlsf.sheets && SheetOf(tlsf.cfg, hdr) != NULL
      ensures s == if SheetOf(tlsf.cfg, hdr) in InUse() then NULL else SheetOf(tlsf.cfg, hdr)
      ensures Intact(buddy.geo, Lends(), old(buddy.mem[..]), buddy.mem[..])
    {
      hide BaseAligned, Rep, BuddyState.Represents, BuddyState.MaskMatches, BuddyState.Weigh, Sum, Intact, Sound,
           LiveSizes, NoHand, Tiled, SheetsUsed, Spared, SheetOf, EmptySheet;
      ghost var v := tlsf.Now();
      LiveAt(tlsf.blocks, hdr);
      BlockFacts(tlsf.cfg, v, {}, {}, hdr);
      NoSheetAtNull(tlsf.cfg, v);
      BuddyState.LinkedOf(buddy.geo, v.mem, buddy.tags[..], buddy.heads[..], buddy.lists, buddy.tiles, NULL);
      s := tlsf.Deallocate(hdr);
      SparedFrame(buddy.geo, tlsf.cfg, v.mem, buddy.mem[..], buddy.tags[..], buddy.heads[..], buddy.lists, buddy.tiles,
          v.sheets,
                  Lent(v.blocks) - {hdr});
      LentSizes(v.blocks);
      SparedIntact(buddy.geo, tlsf.cfg, buddy.tiles, v.sheets, Lent(v.blocks) - {hdr}, Lends(), v.mem, buddy.mem[..]);
      UsedIff(tlsf.cfg, tlsf.Now(), SheetOf(tlsf.cfg, hdr));
    }

    // ---- accounting ---------------------------------------------------------------------------------------

    /** `used`: exact, and a function of the loans alone, so flushing the spare does not change it. */
    method Used() returns (r: nat)
      requires Valid()
      ensures r == Usage(buddy.geo, tlsf.cfg, Lends()) <= 16 * buddy.geo.total
    {
      hide BaseAligned, Rep, BuddyState.Represents, BuddyState.MaskMatches, BuddyState.Weigh, Sum, LiveSizes, NoHand,
           Tiled, SheetsUsed, Sound, EmptySheet, LargeOrders, Span, DataSpan, Aligned, Usage, SheetOf;
      ghost var v := tlsf.Now();
      BuddyState.LinkedOf(buddy.geo, v.mem, buddy.tags[..], buddy.heads[..], buddy.lists, buddy.tiles, NULL);
      SpanFacts(tlsf.cfg);
      var b := buddy.Used();
      var credit := tlsf.count * (16 * DataSpan(tlsf.cfg));
      NoSheetAtNull(tlsf.cfg, v);
      if spare != NULL {
        SheetTile(buddy.geo, tlsf.cfg, buddy.tiles, tlsf.sheets, spare);
        UsedIff(tlsf.cfg, v, spare);
        var here := buddy.IsSheetAt(spare);
        if here {
          var empty := tlsf.SheetEmpty(spare);
          if empty {
            credit := credit + 16 * (Span(tlsf.cfg) - DataSpan(tlsf.cfg));
          }
        }
      }
      Accounts(buddy.geo, tlsf.cfg, v, buddy.tiles, spare);
      return (if b < credit then 0 else b - credit) + tlsf.allocatedBytes;
    }

    /** `available`: what is used and what is available add up to the whole region. */
    method Available() returns (r: nat)
      requires Valid()
      ensures r == 16 * buddy.geo.total - Usage(buddy.geo, tlsf.cfg, Lends())
      ensures Lends() == Loans(map[], map[]) ==> r == 16 * buddy.geo.total
    {
      hide BaseAligned, Rep, BuddyState.Represents, BuddyState.MaskMatches, BuddyState.Weigh, Sum, LiveSizes, NoHand,
           Tiled, SheetsUsed, Sound, LargeOrders, Usage;
      var t := 16 * buddy.geo.total;
      var u := Used();
      if Lends() == Loans(map[], map[]) {
        NoUsage(buddy.geo, tlsf.cfg);
      }
      return if u >= t then 0 else t - u;
    }

    /** A request can be met as things stand, without looking for a fresh sheet. */
    ghost predicate CanMeet(n: nat)
      requires tlsf.cfg.slLog <= 5
      reads buddy, tlsf
    {
      && n > 0
      && ((n <= tlsf.cfg.smallMax && FitsIn(tlsf.cfg, tlsf.lists, tlsf.blocks, n))
          || Servable(buddy.geo, buddy.tiles, OrderForSize(buddy.geo, n)))
    }

    /** What can be met as things stand can be served. */
    lemma MeetServes(n: nat)
      requires Valid() && tlsf.cfg.slLog <= 5
      ensures CanMeet(n) ==> (n <= tlsf.cfg.smallMax && CanSmall(n)) || LargeFits(buddy.geo, tlsf.cfg, Lends(), n)
      ensures n > 0 ==> (LargeFits(buddy.geo, tlsf.cfg, Lends(), n)
                         <==> Servable(buddy.geo, Pinned(buddy.geo, tlsf.cfg, Lends()), OrderForSize(buddy.geo, n)))
    {
      hide BaseAligned, Rep, BuddyState.Represents, BuddyState.MaskMatches, BuddyState.Weigh, Sum, LiveSizes, Pinned,
           NoHand, Sound, FitsIn, Servable, OrderForSize, Joined;
      if n > 0 {
        SpareHides(OrderForSize(buddy.geo, n));
      }
    }

    /** Without a spare the two are the same: where a sheet could be opened, a block of that size is free. */
    lemma MeetIsServe(n: nat)
      requires Valid() && tlsf.cfg.slLog <= 5 && spare == NULL && n > 0
      ensures CanMeet(n) <==> (n <= tlsf.cfg.smallMax && CanSmall(n)) || LargeFits(buddy.geo, tlsf.cfg, Lends(), n)
    {
      hide BaseAligned, Rep, BuddyState.Represents, BuddyState.MaskMatches, BuddyState.Weigh, Sum, LiveSizes, Pinned,
           NoHand, FitsIn, Servable, OrderForSize, OrderSize, Joined, Sound, Span, DataSpan;
      MeetServes(n);
      SpareHides(OrderForSize(buddy.geo, n));
      if n <= tlsf.cfg.smallMax && Servable(buddy.geo, buddy.tiles, SheetOrder(buddy.geo, tlsf.cfg)) {
        SmallInSheet(buddy.geo, tlsf.cfg, n);
        ServableDown(buddy.geo, buddy.tiles, SheetOrder(buddy.geo, tlsf.cfg), OrderForSize(buddy.geo, n));
      }
    }

    /** Exactly the requests up to the answer can be met as things stand; beyond those not even a fresh sheet
        helps. */
    method LargestFree() returns (r: nat)
      requires Valid() && tlsf.cfg.slLog <= 5
      modifies Repr()
      ensures Valid() && spare == NULL && Lends() == old(Lends())
      ensures forall n: nat :: n > 0 ==> (n <= r <==> CanMeet(n))
      ensures forall n: nat :: n > 0 ==>
                (n <= r <==> (n <= tlsf.cfg.smallMax && CanSmall(n)) || LargeFits(buddy.geo, tlsf.cfg, Lends(), n))
      ensures Intact(buddy.geo, old(Lends()), old(buddy.mem[..]), buddy.mem[..])
    {
      hide BaseAligned, Rep, BuddyState.Represents, BuddyState.MaskMatches, BuddyState.Weigh, Sum, LiveSizes, Pinned,
           Intact, NoHand, Tiled, SheetsUsed, Sound, LargeOrders, FitsIn, Servable, OrderForSize, Hosted, Joined,
           OrderSize;
      FlushSpare();
      var b := buddy.LargestFree();
      var t := tlsf.LargestFree();
      if t > tlsf.cfg.smallMax {
        t := tlsf.cfg.smallMax;
      }
      forall n: nat | n > 0
        ensures n <= b <==> Servable(buddy.geo, buddy.tiles, OrderForSize(buddy.geo, n))
        ensures CanMeet(n) <==> (n <= tlsf.cfg.smallMax && CanSmall(n)) || LargeFits(buddy.geo, tlsf.cfg, Lends(), n)
      {
        LargestIs(buddy.geo, buddy.tiles, b, n);
        MeetIsServe(n);
      }
      return if b > t then b else t;
    }

    /** Once everything has been given back, in whatever order, and the spare flushed, the buddy tier is
        the seed again. */
    lemma Drained()
      requires Valid() && Lends() == Loans(map[], map[]) && spare == NULL
      ensures buddy.tiles == Decomposition(buddy.geo, buddy.units, buddy.geo.top, 0)
    {
      hide BaseAligned, Rep, BuddyState.MaskMatches, BuddyState.Weigh, Sum, LiveSizes, NoHand, Tiled, Sound,
           Decomposition, Shl, Fls, Hosted, Joined, SheetOf, BuddyState.TagsMatch, BuddyState.Members, Merged;
      PinnedIs(buddy.geo, tlsf.cfg, tlsf.Now(), buddy.tiles, spare);
      NoSheetAtNull(tlsf.cfg, tlsf.Now());
      assert SheetsUsed(tlsf.cfg, map[]) == {};
      assert Busy(buddy.tiles) == map[];
      ShlIsMul(buddy.units, buddy.geo.lm);
      FlsBounds(buddy.units);
      Pow2Twice(Fls(buddy.units));
      DrainedIsSeed(buddy.geo, buddy.units, buddy.tiles);
    }

    /** Flushing the spare leaves a state that `FlushedByLoans` pins down. */
    lemma SpareFlushed()
      requires Valid() && spare == NULL
      ensures Flushed(buddy.geo, tlsf.cfg, tlsf.Now(), buddy.tiles)
              && Lends() == LoansOf(buddy.tiles, tlsf.Now().blocks)
    {
      hide BaseAligned, Rep, BuddyState.MaskMatches, BuddyState.Weigh, Sum, LiveSizes, NoHand, Tiled, Sound, Hosted,
           Joined, SheetOf, BuddyState.TagsMatch, BuddyState.Members, Merged;
    }

    // ---- finding a loan --------------------------------------------------------------------------------------

    /** `locate`, within the region: exact, and a function of the loans alone, so nothing that callers
        write can change the answer. */
    method Locate(up: nat) returns (l: Located)
      requires Valid() && up < 16 * buddy.geo.total
      ensures l == Whose(buddy.geo, Lends(), up)
    {
      hide BaseAligned, Rep, BuddyState.Represents, BuddyState.MaskMatches, BuddyState.Weigh, Sum, LiveSizes, NoHand,
           Tiled, Sound, SheetOf, Aligned, OrderSize, IsLive;
      var s := SheetOf(tlsf.cfg, up / 16);
      ghost var v := tlsf.Now();
      BuddyState.LinkedOf(buddy.geo, v.mem, buddy.tags[..], buddy.heads[..], buddy.lists, buddy.tiles, NULL);
      SheetUnit(buddy.geo, tlsf.cfg, up / 16);
      WhoseBySheet(buddy.geo, tlsf.cfg, v, buddy.tiles, up);
      var here := buddy.IsSheetAt(s);
      if here {
        var hdr, len := tlsf.OwnsLen(up);
        return if hdr == NULL then Nowhere else InTlsf(hdr, len);
      }
      var o := buddy.OrderAt(up);
      return if o < 0 then Nowhere else InBuddy(o, OrderSize(buddy.geo, o));
    }

    // ---- resizing in place ----------------------------------------------------------------------------------

    /** `shrink_at`: the usable bytes afterwards, or 0.  A small loan gives back what it can, a large one
        keeps its block. */
    method ShrinkAt(l: Located, n: nat) returns (nb: nat)
      requires Valid() && IsLoan(buddy.geo, Lends(), l) && n > 0
      modifies Repr()
      ensures Valid() && Intact(buddy.geo, Lends(), old(buddy.mem[..]), buddy.mem[..])
      ensures nb > 0 <==> !l.Nowhere? && n <= l.len
      ensures nb > 0 ==> n <= nb <= l.len
      ensures Lends() == if nb > 0 && l.InTlsf? then LendSmall(old(Lends()), l.hdr, nb / 16 + 1) else old(Lends())
      ensures l.InBuddy? && nb > 0 ==> nb == l.len
      ensures l.InTlsf? ==> nb % 16 == 0 && (nb > 0 ==> nb == ShrunkBytes(l.len, n))
      ensures l.InTlsf? && nb > 0 ==> nb < n + 32 && (nb == l.len || nb < n + 16)
    {
      hide BaseAligned, Rep, BuddyState.Represents, BuddyState.MaskMatches, BuddyState.Weigh, Sum, Intact, LiveSizes,
           NoHand, Tiled, SheetsUsed, SheetOf, Hosted, Joined, Sound, LargeOrders, OrderSize, Adjusted, DataSpan;
      IntactSelf(buddy.geo, Lends(), buddy.mem[..]);
      match l
      case InTlsf(hdr, len) =>
        LoanSize(tlsf.cfg, tlsf.Now(), hdr, n);
        nb := TlsfShrink(hdr, n);
      case InBuddy(o, len) =>
        nb := if n <= len then len else 0;
      case Nowhere =>
        nb := 0;
    }

    /** `tlsf.shrink` and `tlsf.payload`, seen from the region. */
    method TlsfShrink(hdr: nat, n: nat) returns (nb: nat)
      requires Valid() && hdr in Lends().smalls
      modifies tlsf, tlsf.heads, tlsf.slBits, tlsf.mem
      ensures Valid() && Intact(buddy.geo, Lends(), old(buddy.mem[..]), buddy.mem[..])
      ensures var size := old(Lends()).smalls[hdr];
              if 2 <= Adjusted(tlsf.cfg, n) <= size
              then Lends() == LendSmall(old(Lends()), hdr, ShrunkSize(tlsf.cfg, size, n))
                   && nb == 16 * (ShrunkSize(tlsf.cfg, size, n) - 1)
              else Lends() == old(Lends()) && nb == 0
    {
      hide BaseAligned, Rep, BuddyState.Represents, BuddyState.MaskMatches, BuddyState.Weigh, Sum, Intact, Sound,
           LiveSizes, NoHand, Tiled, SheetsUsed, Spared, SheetOf, Adjusted;
      ghost var v := tlsf.Now();
      BuddyState.LinkedOf(buddy.geo, v.mem, buddy.tags[..], buddy.heads[..], buddy.lists, buddy.tiles, NULL);
      var ok := tlsf.Shrink(hdr, n);
      ghost var size := LiveSizes(v.blocks)[hdr];
      ghost var lent := if ok then Trimmed(v.blocks, hdr, ShrunkSize(tlsf.cfg, size, n)) else Lent(v.blocks);
      SparedFrame(buddy.geo, tlsf.cfg, v.mem, buddy.mem[..], buddy.tags[..], buddy.heads[..], buddy.lists, buddy.tiles,
          v.sheets, lent);
      TrimSizes(v.blocks, hdr, if ok then ShrunkSize(tlsf.cfg, size, n) else size);
      SparedIntact(buddy.geo, tlsf.cfg, buddy.tiles, v.sheets, lent, Lends(), v.mem, buddy.mem[..]);
      UsedResized(tlsf.cfg, LiveSizes(v.blocks), LiveSizes(tlsf.blocks), hdr);
      if ok {
        nb := tlsf.Payload(hdr);
      } else {
        nb := 0;
      }
    }

    /** When growing in place succeeds. */
    ghost predicate GrowsInPlace(l: Located, up: nat, n: nat)
      reads Repr()
    {
      n > 0 && match l
               case Nowhere => false
               case InTlsf(hdr, _) =>
                 && n <= tlsf.cfg.smallMax && hdr in LiveSizes(tlsf.blocks)
                 && Growable(tlsf.cfg, tlsf.blocks, hdr, n)
               case InBuddy(o, _) =>
                 || OrderForSize(buddy.geo, n) <= o
                 || CanGrow(buddy.geo, buddy.tiles, up / 16, OrderForSize(buddy.geo, n))
    }

    /** The usable bytes that growing in place comes to, 0 when it fails. */
    ghost function GrownTo(l: Located, up: nat, n: nat): nat
      reads Repr()
    {
      if !GrowsInPlace(l, up, n) then 0
      else if l.InTlsf? then LoanBytes(GrownSize(tlsf.cfg, tlsf.blocks, l.hdr, n))
      else OrderSize(buddy.geo, if OrderForSize(buddy.geo, n) <= l.order then l.order else OrderForSize(buddy.geo, n))
    }

    /** What growing in place comes to, told from the loans alone. */
    lemma GrownIs(l: Located, up: nat, n: nat)
      requires Valid() && l == Whose(buddy.geo, Lends(), up) && n > 0
      ensures l.InTlsf? ==> Regrown(tlsf.cfg, Lends().smalls, l.hdr, l.len, n, GrownTo(l, up, n))
      ensures l.InBuddy? && GrownTo(l, up, n) > l.len ==> LeastOver(buddy.geo, l.len, n, GrownTo(l, up, n))
    {
      hide BaseAligned, Rep, BuddyState.Represents, BuddyState.MaskMatches, BuddyState.Weigh, Sum, LiveSizes, NoHand,
           Tiled, Sound, Hosted, Joined, OrderForSize, OrderSize, CanGrow, RoomBehind, GrownSize, Growable;
      if l.InTlsf? {
        GrowsIntoRoom(tlsf.cfg, tlsf.Now(), l.hdr, n);
        GrownHolds(tlsf.cfg, tlsf.Now(), l.hdr, n);
      } else if l.InBuddy? {
        LeastBytes(buddy.geo, n);
        GrowSizes(buddy.geo, n, l.order);
      }
    }

    /** `grow_at`: the usable bytes afterwards, or 0 and nothing changed. */
    method GrowAt(l: Located, up: nat, n: nat) returns (nb: nat)
      requires Valid() && l == Whose(buddy.geo, Lends(), up) && n > 0
      modifies Repr()
      ensures Valid() && Intact(buddy.geo, old(Lends()), old(buddy.mem[..]), buddy.mem[..])
      ensures nb > 0 ==> !l.Nowhere? && n <= nb && l.len <= nb
      ensures nb == 0 ==> buddy.mem[..] == old(buddy.mem[..]) && forall k: nat :: CanSmall(k) == old(CanSmall(k))
      ensures (nb > 0 <==> old(GrowsInPlace(l, up, n))) && nb == old(GrownTo(l, up, n))
      ensures l.InTlsf? && nb > l.len ==> n <= nb < n + 32
      ensures l.InTlsf? ==> Regrown(tlsf.cfg, old(Lends()).smalls, l.hdr, l.len, n, nb)
      ensures l.InBuddy? && nb > l.len ==> LeastOver(buddy.geo, l.len, n, nb)
      ensures GrowResult(buddy.geo, tlsf.cfg, old(buddy.tiles), old(tlsf.blocks), old(Lends()), Lends(), l, up / 16, n,
              nb)
    {
      hide BaseAligned, Rep, BuddyState.Represents, BuddyState.MaskMatches, BuddyState.Weigh, Sum, Intact, LiveSizes,
           NoHand, Tiled, SheetsUsed, SheetOf, Hosted, Joined, Sound, LargeOrders, OrderSize, OrderForSize, Adjusted,
           DataSpan, CanGrow, FitsIn, Servable, SheetOrder, RoomBehind;
      IntactSelf(buddy.geo, Lends(), buddy.mem[..]);
      GrownIs(l, up, n);
      match l
      case InTlsf(hdr, len) =>
        if n > tlsf.cfg.smallMax {
          nb := 0;
        } else {
          nb := TlsfGrow(hdr, n);
        }
      case InBuddy(o, len) =>
        nb := BuddyGrow(up, n);
      case Nowhere =>
        nb := 0;
    }

    /** `tlsf.grow` and `tlsf.payload`, seen from the region. */
    method TlsfGrow(hdr: nat, n: nat) returns (nb: nat)
      requires Valid() && hdr in Lends().smalls && n > 0
      modifies tlsf, tlsf.heads, tlsf.slBits, tlsf.mem
      ensures Valid() && Intact(buddy.geo, old(Lends()), old(buddy.mem[..]), buddy.mem[..])
      ensures hdr in LiveSizes(old(tlsf.blocks)) && (nb > 0 <==> Growable(tlsf.cfg, old(tlsf.blocks), hdr, n))
      ensures nb > 0 ==> nb == 16 * (GrownSize(tlsf.cfg, old(tlsf.blocks), hdr, n) - 1)
      ensures nb % 16 == 0 && (nb > 0 ==> n <= nb && 16 * (old(Lends()).smalls[hdr] - 1) <= nb)
      ensures nb == 0 ==>
              buddy.mem[..] == old(buddy.mem[..]) && tlsf.blocks == old(tlsf.blocks)
              && tlsf.lists == old(tlsf.lists)
      ensures tlsf.count == old(tlsf.count)
      ensures Lends() == if nb > 0 then LendSmall(old(Lends()), hdr, nb / 16 + 1) else old(Lends())
    {
      hide BaseAligned, Rep, BuddyState.Represents, BuddyState.MaskMatches, BuddyState.Weigh, Sum, Intact, Sound,
           LiveSizes, NoHand, Tiled, SheetsUsed, Spared, SheetOf, Growable, GrownSize, Hosted, Adjusted;
      ghost var v := tlsf.Now();
      BuddyState.LinkedOf(buddy.geo, v.mem, buddy.tags[..], buddy.heads[..], buddy.lists, buddy.tiles, NULL);
      GrownHolds(tlsf.cfg, v, hdr, n);
      var ok := tlsf.Grow(hdr, n);
      SparedFrame(buddy.geo, tlsf.cfg, v.mem, buddy.mem[..], buddy.tags[..], buddy.heads[..], buddy.lists, buddy.tiles,
          v.sheets,
                  Lent(v.blocks));
      LentSizes(v.blocks);
      SparedIntact(buddy.geo, tlsf.cfg, buddy.tiles, v.sheets, Lent(v.blocks), old(Lends()), v.mem, buddy.mem[..]);
      UsedResized(tlsf.cfg, LiveSizes(v.blocks), LiveSizes(tlsf.blocks), hdr);
      if ok {
        nb := tlsf.Payload(hdr);
      } else {
        nb := 0;
      }
    }

    /** `buddy.grow`, seen from the region. */
    method BuddyGrow(up: nat, n: nat) returns (nb: nat)
      requires Valid() && up % 16 == 0 && up / 16 in Lends().larges && n > 0
      modifies buddy, buddy.mem, buddy.tags, buddy.heads
      ensures Valid() && Intact(buddy.geo, old(Lends()), old(buddy.mem[..]), buddy.mem[..])
      ensures var o, want := old(Lends()).larges[up / 16], OrderForSize(buddy.geo, n);
              && (nb > 0 <==> want <= o || CanGrow(buddy.geo, old(buddy.tiles), up / 16, want))
              && nb == (if nb == 0 then 0 else OrderSize(buddy.geo, if want <= o then o else want))
              && Lends() == if nb > 0 && want > o then LendLarge(old(Lends()), up / 16, want) else old(Lends())
      ensures nb > 0 ==> n <= nb && OrderSize(buddy.geo, old(Lends()).larges[up / 16]) <= nb
      ensures nb == 0 ==> buddy.mem[..] == old(buddy.mem[..]) && buddy.tiles == old(buddy.tiles)
    {
      hide BaseAligned, Rep, BuddyState.Represents, BuddyState.MaskMatches, BuddyState.Weigh, Sum, Intact, Sound,
           LiveSizes, NoHand, Tiled, SheetsUsed, CanGrow, OrderForSize, BuddyState.Kept, Size;
      ghost var v, t0, g := tlsf.Now(), buddy.tiles, up / 16;
      ghost var o, want := t0[g].order, OrderForSize(buddy.geo, n);
      BuddyState.LinkedOf(buddy.geo, v.mem, buddy.tags[..], buddy.heads[..], buddy.lists, t0, NULL);
      assert !IsSheet(t0, g);
      GrowSizes(buddy.geo, n, o);
      LoansPart(t0, v.blocks);
      nb := buddy.Grow(up, n);
      KeptFrame(buddy.geo, tlsf.cfg, v, t0, Busy(t0), buddy.mem[..]);
      KeptIntact(buddy.geo, tlsf.cfg, v, t0, Busy(t0), old(Lends()), buddy.mem[..]);
      assert tlsf.Now() == v.(mem := buddy.mem[..]);
      if nb > 0 && want > o {
        GrantKeeps(buddy.geo, tlsf.cfg, v, t0, buddy.tiles, g, want, buddy.mem[..]);
      }
    }

    // ---- callers' own memory -----------------------------------------------------------------------------------

    /** A caller writes one byte of a loan: neither tier notices. */
    method Store(up: nat, b: nat, ghost p: nat)
      requires Valid() && Holds(buddy.geo, Lends(), p, up / 16) && b < 256
      modifies buddy.mem
      ensures Valid() && Lends() == old(Lends()) && up / 16 < buddy.mem.Length
      ensures buddy.mem[..] == old(buddy.mem[..])[up / 16 := PutByte(old(buddy.mem[..])[up / 16], up % 16, b)]
    {
      hide BaseAligned, Rep, BuddyState.Represents, BuddyState.MaskMatches, BuddyState.Weigh, Sum, Sound, LiveSizes,
           NoHand, Tiled, SheetsUsed, PutByte, LargeOrders, SmallHolds, LargeHolds, IsFree, Hosted, Joined, SpareHolds;
      ghost var v, x, q := tlsf.Now(), up / 16, if p > 0 && SmallHolds(Lends(), p - 1, up / 16) then p - 1 else p;
      BuddyState.LinkedOf(buddy.geo, v.mem, buddy.tags[..], buddy.heads[..], buddy.lists, buddy.tiles, NULL);
      HeldBelow(buddy.geo, tlsf.cfg, v, buddy.tiles, p, x);
      buddy.mem[up / 16] := PutByte(buddy.mem[up / 16], up % 16, b);
      WriteFrame(buddy.geo, tlsf.cfg, v, buddy.tiles, Lends(), q, x, buddy.mem[..]);
      BuddyFrame(buddy.geo, v.mem, buddy.mem[..], buddy.tags[..], buddy.heads[..], buddy.lists, buddy.tiles);
      assert tlsf.Now() == v.(mem := buddy.mem[..]);
    }

    method Load(up: nat) returns (b: nat)
      requires Shape() && up / 16 < buddy.mem.Length
      ensures b == GetByte(buddy.mem[up / 16], up % 16)
    {
      return GetByte(buddy.mem[up / 16], up % 16);
    }

    /** Loans lie inside the region, and no granule belongs to two. */
    lemma LoansApart(p: nat, q: nat, x: nat)
      requires Valid() && Holds(buddy.geo, Lends(), p, x)
      ensures x < buddy.geo.total == buddy.mem.Length
      ensures Holds(buddy.geo, Lends(), q, x) ==> q == p
    {
      hide BaseAligned, Rep, BuddyState.Represents, BuddyState.MaskMatches, BuddyState.Weigh, Sum, Sound, LiveSizes,
           NoHand, Tiled, SheetsUsed, LargeOrders, Hosted, Joined, SpareHolds;
      BuddyState.LinkedOf(buddy.geo, buddy.mem[..], buddy.tags[..], buddy.heads[..], buddy.lists, buddy.tiles, NULL);
      HeldBelow(buddy.geo, tlsf.cfg, tlsf.Now(), buddy.tiles, p, x);
      HeldOnce(buddy.geo, tlsf.cfg, tlsf.Now(), buddy.tiles, p, q, x);
    }
  }

  /** Where the large block that becomes a sheet lies. */
  lemma HostPlace(geo: Geometry, cfg: Config, t: Tiles, s: nat)
    requires Tiled(geo, t) && geo.lm <= cfg.sheetLog && s in t && t[s].order == SheetOrder(geo, cfg)
    ensures Aligned(s, cfg.sheetLog) && s + Span(cfg) <= geo.total
  {
    BuddyState.TilePlace(geo, t, s);
  }

  lemma LentLarge(t: Tiles, blk: Blocks, l: Loans, s: nat, o: nat)
    requires LoansOf(t, blk) == LendLarge(l, s, o) && s !in l.larges
    ensures s in t && t[s] == Tile(o, Large)
    ensures forall g :: g in l.larges ==> g in t && t[g] == Tile(l.larges[g], Large) && g != s
    ensures forall g :: g in l.smalls ==> g in LiveSizes(blk) && l.smalls[g] == LiveSizes(blk)[g]
  {
    hide LiveSizes;
    var a := LargeOrders(t);
    assert a == l.larges[s := o];
    assert s in a;
    forall g | g in l.larges ensures g in t && t[g] == Tile(l.larges[g], Large) {
      assert g in a && a[g] == l.larges[g];
    }
  }

  lemma MarkedLends(t0: Tiles, s: nat, blk: Blocks, l: Loans)
    requires s in t0 && t0[s].use.Large? && s !in l.larges && LoansOf(t0, blk) == LendLarge(l, s, t0[s].order)
    ensures LoansOf(t0[s := Tile(t0[s].order, Sheet)], blk) == l
  {
    hide LiveSizes;
    var a := LargeOrders(t0[s := Tile(t0[s].order, Sheet)]);
    assert LargeOrders(t0) == l.larges[s := t0[s].order];
    assert l.larges == LargeOrders(t0) - {s};
    assert a == LargeOrders(t0) - {s};
  }

  /** The first block of a sheet, and what it is the payload of. */
  lemma FreshPlace(cfg: Config, v: View, s: nat, off: nat)
    requires s in v.sheets && off == s + DataOff(cfg) && off in LiveSizes(v.blocks)
    requires Rep(cfg, v, {}, {})
    ensures SheetOf(cfg, off) == s && SheetOf(cfg, off + 1) == s
  {
    hide Sound, Calm, Linked, BitsMatch, Marks, Filed, Headers, FlCount, Pow2, SheetOf, DataOff, Laid, SheetsPlaced;
    FirstBlock(cfg, v, s);
    LaidParts(cfg, v.sheets, v.blocks);
    BlockFacts(cfg, v, {}, {}, off);
    NextSheet(cfg, |v.mem|, v.sheets, v.blocks, off, 1);
  }

  lemma AllFree(t: Tiles, blk: Blocks, sheets: set<nat>)
    requires Joined(t, sheets) && sheets == {} && LoansOf(t, blk) == Loans(map[], map[])
    ensures forall g :: g in t ==> t[g].use.Free?
  {
    hide LiveSizes;
    forall g | g in t ensures t[g].use.Free? {
      assert g !in LargeOrders(t) && !IsSheet(t, g);
    }
  }

  /** Position `x` is the payload start of the first block of its sheet. */
  predicate FirstPayload(cfg: Config, x: nat) { x == SheetOf(cfg, x) + DataOff(cfg) + 1 }

  /** A new small loan puts its sheet in use. */
  lemma UsedGrows(cfg: Config, b0: Blocks, b1: Blocks, off: nat, size: nat)
    requires LiveSizes(b1) == LiveSizes(b0)[off := size]
    ensures SheetsUsed(cfg, LiveSizes(b1)) == SheetsUsed(cfg, LiveSizes(b0)) + {SheetOf(cfg, off)}
    ensures off in LiveSizes(b1)
  {
    hide SheetOf, LiveSizes;
    assert off in LiveSizes(b1);
  }

  /** A returned small loan leaves every other sheet in use. */
  lemma UsedShrinks(cfg: Config, b0: Blocks, b1: Blocks, hdr: nat)
    requires LiveSizes(b1) == LiveSizes(b0) - {hdr}
    ensures forall s: nat ::
              s in SheetsUsed(cfg, LiveSizes(b0)) && s != SheetOf(cfg, hdr) ==> s in SheetsUsed(cfg, LiveSizes(b1))
    ensures hdr in LiveSizes(b0) ==> SheetOf(cfg, hdr) in SheetsUsed(cfg, LiveSizes(b0))
  {
    hide SheetOf, LiveSizes;
    forall s: nat | s in SheetsUsed(cfg, LiveSizes(b0)) && s != SheetOf(cfg, hdr)
        ensures s in SheetsUsed(cfg, LiveSizes(b1)) {
      var g :| g in LiveSizes(b0) && SheetOf(cfg, g) == s;
      assert g in LiveSizes(b1);
    }
  }

  /** The bookkeeping of both tiers, less the credit for what the sheets could still lend, is the usage;
      the credit never exceeds what the buddy tier has lent. */
  lemma Accounts(geo: Geometry, cfg: Config, v: View, tiles: Tiles, spare: nat)
    requires Tiled(geo, tiles) && Hosted(geo, cfg, tiles, v.sheets) && Joined(tiles, v.sheets) && NoHand(v.blocks)
    requires |v.mem| == geo.total && SpareHolds(cfg, LiveSizes(v.blocks), v.sheets, spare)
             && 0 <= DataSpan(cfg) <= Span(cfg)
    requires Rep(cfg, v, {}, {})
    ensures var idle := if spare in v.sheets && spare !in SheetsUsed(cfg, LiveSizes(v.blocks)) then 1 else 0;
            var credit := |v.sheets| * (16 * DataSpan(cfg)) + idle * (16 * (Span(cfg) - DataSpan(cfg)));
            && credit <= 16 * BuddyState.Weigh(geo, Busy(tiles))
            && 16 * BuddyState.Weigh(geo, Busy(tiles)) - credit + 16 * Sum(LiveSizes(v.blocks), |v.mem|)
               == Usage(geo, cfg, LoansOf(tiles, v.blocks))
    ensures Usage(geo, cfg, LoansOf(tiles, v.blocks)) <= 16 * geo.total
  {
    hide Rep, BuddyState.Weigh, Sum, LiveSizes, NoHand, SheetsUsed, Span, DataSpan, LargeOrders, Size, Aligned, SheetOf,
         Hosted, Joined, Usage;
    UsageBound(geo, cfg, v, tiles);
    BusyWeight(geo, cfg, tiles, v.sheets);
    UsedAreSheets(cfg, v);
    IdleCount(cfg, LiveSizes(v.blocks), v.sheets, spare);
    var idle: nat := if spare in v.sheets && spare !in SheetsUsed(cfg, LiveSizes(v.blocks)) then 1 else 0;
    var used: nat := |SheetsUsed(cfg, LiveSizes(v.blocks))|;
    Balance(Span(cfg), DataSpan(cfg), |v.sheets|, used, idle);
    UsageParts(geo, cfg, LoansOf(tiles, v.blocks), LargeOrders(tiles));
  }

  lemma UsageParts(geo: Geometry, cfg: Config, l: Loans, larges: map<nat, nat>)
    requires l.larges == larges
    ensures Usage(geo, cfg, l) == 16 * Sum(LargeWeights(geo, Loans(map[], larges)), geo.total) + 16 * Sum(l.smalls,
            geo.total)
                                  + 16 * (Span(cfg) - DataSpan(cfg)) * |SheetsUsed(cfg, l.smalls)|
  {
    hide Sum, SheetsUsed, Span, DataSpan, Size;
    assert LargeWeights(geo, Loans(map[], larges)) == LargeWeights(geo, l);
  }

  lemma Balance(span: nat, data: int, sheets: nat, used: nat, idle: nat)
    requires sheets == used + idle && 0 <= idle <= 1 && 0 <= data <= span
    ensures 16 * (span * sheets) - (sheets * (16 * data) + idle * (16 * (span - data))) == 16 * (span - data) * used
    ensures 16 * (span - data) * used >= 0
  {
    assert span * sheets == span * used + span * idle;
    assert sheets * (16 * data) == used * (16 * data) + idle * (16 * data);
    assert 16 * (span - data) * used == 16 * (span * used) - used * (16 * data);
    MulMono(0, span - data, used);
  }

  /** All sheets but an idle spare are in use. */
  lemma IdleCount(cfg: Config, smalls: map<nat, nat>, sheets: set<nat>, spare: nat)
    requires SpareHolds(cfg, smalls, sheets, spare) && SheetsUsed(cfg, smalls) <= sheets
    ensures |sheets| == |SheetsUsed(cfg, smalls)| + if spare in sheets && spare !in SheetsUsed(cfg, smalls) then 1
            else 0
  {
    hide SheetsUsed;
    var used := SheetsUsed(cfg, smalls);
    if spare in sheets && spare !in used {
      assert sheets == used + {spare};
    } else {
      assert sheets == used;
    }
  }

  /** Nothing lent, nothing used. */
  lemma NoUsage(geo: Geometry, cfg: Config)
    ensures Usage(geo, cfg, Loans(map[], map[])) == 0
  {
    hide SheetOf, Span, DataSpan;
    SumZero(geo.total);
    assert SheetsUsed(cfg, map[]) == {};
    assert LargeWeights(geo, Loans(map[], map[])) == map[];
  }

  lemma ServableDown(geo: Geometry, t: Tiles, o: nat, p: nat)
    requires Servable(geo, t, o) && p <= o
    ensures Servable(geo, t, p)
  {
    hide Aligned, Size;
    var g: nat :| Run(geo, t, g, o);
    AlignedWeaken(g, geo.lm + p, geo.lm + o);
    SizeMono(geo, p, o);
    assert Run(geo, t, g, p);
  }

  /** What the largest free size says about requests of `n` bytes. */
  /** A block of a sheet's order would do for every small request. */
  lemma SmallInSheet(geo: Geometry, cfg: Config, n: nat)
    requires Sound(cfg) && geo.lm <= cfg.sheetLog && 1 <= n <= cfg.smallMax
    ensures OrderForSize(geo, n) <= SheetOrder(geo, cfg)
  {
    hide OrderForSize, FlCount, Pow2, Size;
    SpanFacts(cfg);
    SheetSize(geo, cfg);
    OrderForSizeIsLeast(geo, n);
    assert n <= OrderSize(geo, SheetOrder(geo, cfg));
  }

  lemma LargestIs(geo: Geometry, t: Tiles, b: nat, n: nat)
    requires n > 0
    requires b == 0 ==> forall o: nat :: !Servable(geo, t, o)
    requires b > 0 ==> exists o: nat :: b == OrderSize(geo, o) && Servable(geo, t, o)
                                        && forall p: nat :: Servable(geo, t, p) ==> p <= o
    ensures Servable(geo, t, OrderForSize(geo, n)) <==> n <= b
  {
    hide Servable, OrderForSize, OrderSize;
    if b > 0 {
      var o: nat :| b == OrderSize(geo, o) && Servable(geo, t, o) && forall p: nat :: Servable(geo, t, p) ==> p <= o;
      OrderForSizeIsLeast(geo, n);
      var w := OrderForSize(geo, n);
      if w <= o {
        ServableDown(geo, t, o, w);
        OrderSizeMono(geo, w, o);
      }
    }
  }

  lemma OrderSizeMono(geo: Geometry, a: nat, b: nat)
    requires a <= b
    ensures OrderSize(geo, a) <= OrderSize(geo, b)
  {
    SizeMono(geo, a, b);
  }

  /** The sheet a granule would belong to starts on a unit of the region. */
  lemma SheetUnit(geo: Geometry, cfg: Config, x: nat)
    requires geo.lm <= cfg.sheetLog && x < geo.total
    ensures SheetOf(cfg, x) < geo.total && Aligned(SheetOf(cfg, x), geo.lm)
  {
    hide SheetOf, Aligned;
    SheetOfBounds(cfg, x);
    AlignedWeaken(SheetOf(cfg, x), geo.lm, cfg.sheetLog);
  }

  /** In a sheet only small loans start; elsewhere only large ones. */
  lemma WhoseBySheet(geo: Geometry, cfg: Config, v: View, tiles: Tiles, up: nat)
    requires Tiled(geo, tiles) && Hosted(geo, cfg, tiles, v.sheets) && Joined(tiles, v.sheets) && |v.mem| == geo.total
    requires up < 16 * geo.total
    requires Rep(cfg, v, {}, {})
    ensures var l, p := LoansOf(tiles, v.blocks), up / 16;
            && (SheetOf(cfg, p) in v.sheets <==> IsSheet(tiles, SheetOf(cfg, p)))
            && |v.mem| < NULL
            && (SheetOf(cfg, p) in v.sheets ==>
                  var (h, n) := OwnAnswer(v.blocks, up);
                  Whose(geo, l, up) == if h == NULL then Nowhere else if h >= 0 && n >= 0 then InTlsf(h, n)
                      else Nowhere)
            && (SheetOf(cfg, p) !in v.sheets ==>
                  Whose(geo, l, up) == if up % 16 == 0
                      && p in Busy(tiles) then InBuddy(tiles[p].order, OrderSize(geo, tiles[p].order))
                                       else Nowhere)
            && (SheetOf(cfg, p) in v.sheets ==> OwnAnswer(v.blocks, up).0 >= 0 && OwnAnswer(v.blocks, up).1 >= 0)
  {
    hide Rep, SheetOf, Tiled, OrderSize, Size;
    var p := up / 16;
    MemBound(cfg, v);
    InSheet(geo, cfg, tiles, v.sheets, p);
    if p in tiles { assert Covers(geo, tiles, p, p); }
    if p > 0 && p - 1 in v.blocks {
      BlockFacts(cfg, v, {}, {}, p - 1);
      PayloadPlace(cfg, v, p - 1);
    }
    assert IsSheet(tiles, p) <==> p in v.sheets;
    if p in v.sheets { SheetPlace(cfg, v, p); }
  }

  lemma PayloadPlace(cfg: Config, v: View, g: nat)
    requires g in v.blocks && Rep(cfg, v, {}, {})
    ensures SheetOf(cfg, g + 1) == SheetOf(cfg, g) && SheetOf(cfg, g) in v.sheets
  {
    hide Sound, Calm, Linked, BitsMatch, Marks, Filed, Headers, FlCount, Pow2, SheetOf, DataOff, Laid, SheetsPlaced;
    LaidParts(cfg, v.sheets, v.blocks);
    BlockBounds(cfg, |v.mem|, v.sheets, v.blocks, g);
    NextSheet(cfg, |v.mem|, v.sheets, v.blocks, g, 1);
  }

  /** A loan as `locate` reports it. */
  predicate IsLoan(geo: Geometry, l: Loans, at: Located) {
    match at
    case Nowhere => true
    case InTlsf(hdr, len) => hdr in l.smalls && l.smalls[hdr] > 0 && len == 16 * (l.smalls[hdr] - 1)
    case InBuddy(order, len) => len == OrderSize(geo, order)
  }

  /** Bytes of a small loan of `len` bytes shrunk to `n`: a remainder too small for a block stays with it. */
  function ShrunkBytes(len: nat, n: nat): nat {
    var r := (n + 15) / 16 * 16;
    if len >= r + 32 then r else len
  }

  /** Usable bytes of a small loan of `size` granules. */
  function LoanBytes(size: nat): nat { if size == 0 then 0 else 16 * (size - 1) }

  /** When a request fits a small loan, in the tier's own terms. */
  lemma LoanSize(cfg: Config, v: View, hdr: nat, n: nat)
    requires n > 0 && hdr in LiveSizes(v.blocks)
    requires Rep(cfg, v, {}, {})
    ensures var size := LiveSizes(v.blocks)[hdr];
            && size >= 2
            && (2 <= Adjusted(cfg, n) <= size <==> n <= 16 * (size - 1))
            && (n <= 16 * (size - 1) ==> var k := ShrunkSize(cfg, size, n);
                  n <= 16 * (k - 1) <= 16 * (size - 1) && 16 * (k - 1) == ShrunkBytes(16 * (size - 1), n))
  {
    hide Rep, DataSpan;
    BlockFacts(cfg, v, {}, {}, hdr);
  }

  /** Growing a small loan of `len` bytes to `n`, among the other loans: it succeeds exactly when it is large enough
      already or there is room for it, and takes one granule more than it must only if that is all there is. */
  ghost predicate Regrown(cfg: Config, smalls: map<nat, nat>, hdr: nat, len: nat, n: nat, nb: nat) {
    var k := (n + 31) / 16;
    && (nb > 0 <==> n <= cfg.smallMax && (n <= len || RoomBehind(cfg, smalls, hdr, k)))
    && (nb > 0 && n <= len ==> nb == len)
    && (nb > 0 && n > len ==>
          && n <= nb < n + 32 && nb % 16 == 0
          && (nb >= n + 16 <==> RoomBehind(cfg, smalls, hdr, k + 1) && !RoomBehind(cfg, smalls, hdr, k + 2)))
  }

  /** `nb` is the length of the least whole block that holds `n` bytes, which `len` did not. */
  ghost predicate LeastOver(geo: Geometry, len: nat, n: nat, nb: nat) {
    len < n <= nb && forall o: nat :: n <= OrderSize(geo, o) ==> nb <= OrderSize(geo, o)
  }

  lemma GrownHolds(cfg: Config, v: View, hdr: nat, n: nat)
    requires n > 0 && hdr in LiveSizes(v.blocks)
    requires Rep(cfg, v, {}, {})
    ensures LiveSizes(v.blocks)[hdr] >= 2
    ensures Growable(cfg, v.blocks, hdr, n) ==>
              var k := GrownSize(cfg, v.blocks, hdr, n); n <= 16 * (k - 1) && LiveSizes(v.blocks)[hdr] <= k
  {
    hide Rep, DataSpan;
    BlockFacts(cfg, v, {}, {}, hdr);
  }

  lemma LeastBytes(geo: Geometry, n: nat)
    requires n > 0
    ensures forall o: nat :: n <= OrderSize(geo, o) ==>
              OrderForSize(geo, n) <= o && OrderSize(geo, OrderForSize(geo, n)) <= OrderSize(geo, o)
  {
    hide OrderForSize, OrderSize;
    OrderForSizeIsLeast(geo, n);
    forall o: nat | n <= OrderSize(geo, o) ensures OrderSize(geo, OrderForSize(geo, n)) <= OrderSize(geo, o) {
      OrderSizeMono(geo, OrderForSize(geo, n), o);
    }
  }

  lemma GrowSizes(geo: Geometry, n: nat, o: nat)
    requires n > 0
    ensures n <= OrderSize(geo, OrderForSize(geo, n))
    ensures OrderForSize(geo, n) <= o ==> n <= OrderSize(geo, o)
    ensures OrderForSize(geo, n) > o ==> OrderSize(geo, o) <= OrderSize(geo, OrderForSize(geo, n))
  {
    hide OrderForSize, OrderSize;
    OrderForSizeIsLeast(geo, n);
    if OrderForSize(geo, n) <= o {
      OrderSizeMono(geo, OrderForSize(geo, n), o);
    } else {
      OrderSizeMono(geo, o, OrderForSize(geo, n));
    }
  }

  lemma TrimSizes(blk: Blocks, hdr: nat, size: nat)
    requires hdr in LiveSizes(blk)
    ensures forall g :: g in LiveSizes(blk)[hdr := size] ==>
              g in Trimmed(blk, hdr, size) && LiveSizes(blk)[hdr := size][g] == Trimmed(blk, hdr, size)[g].size
    ensures forall g :: g in LiveSizes(blk) ==> g in Lent(blk) && LiveSizes(blk)[g] == Lent(blk)[g].size
  {
  }

  /** Resizing a small loan leaves the same sheets in use. */
  lemma UsedResized(cfg: Config, w: map<nat, nat>, w': map<nat, nat>, hdr: nat)
    requires hdr in w && w'.Keys == w.Keys
    ensures SheetsUsed(cfg, w') == SheetsUsed(cfg, w)
  {
    hide SheetOf;
    assert forall g :: g in w <==> g in w';
  }

  /** What growing in place comes to: when it succeeds, and what the loans are then. */
  ghost predicate GrowResult(geo: Geometry, cfg: Config, t: Tiles, blk: Blocks, l: Loans, l': Loans, at: Located,
      g: nat,
                             n: nat, nb: nat)
    requires n > 0
  {
    match at
    case Nowhere => nb == 0 && l' == l
    case InTlsf(hdr, len) =>
      && hdr in LiveSizes(blk) && nb % 16 == 0
      && (nb > 0 <==> n <= cfg.smallMax && Growable(cfg, blk, hdr, n))
      && (nb > 0 ==> nb == 16 * (GrownSize(cfg, blk, hdr, n) - 1))
      && l' == if nb > 0 then LendSmall(l, hdr, nb / 16 + 1) else l
    case InBuddy(o, len) =>
      var want := OrderForSize(geo, n);
      && (nb > 0 <==> want <= o || CanGrow(geo, t, g, want))
      && nb == (if nb == 0 then 0 else OrderSize(geo, if want <= o then o else want))
      && l' == if nb > 0 && want > o then LendLarge(l, g, want) else l
  }

  lemma LoansPart(t: Tiles, blk: Blocks)
    ensures PartOfLoans(LoansOf(t, blk), blk)
    ensures forall g :: g in LoansOf(t, blk).larges ==> g in Busy(t) && LoansOf(t, blk).larges[g] == Busy(t)[g].order
  {
  }

  lemma HeldBelow(geo: Geometry, cfg: Config, v: View, tiles: Tiles, p: nat, x: nat)
    requires Tiled(geo, tiles) && |v.mem| == geo.total && Holds(geo, LoansOf(tiles, v.blocks), p, x)
    requires Rep(cfg, v, {}, {})
    ensures x < geo.total
  {
    hide Rep, Aligned, Size, Covered;
    if p > 0 && p - 1 in v.blocks {
      BlockFacts(cfg, v, {}, {}, p - 1);
    }
  }

  lemma HeldOnce(geo: Geometry, cfg: Config, v: View, tiles: Tiles, p: nat, q: nat, x: nat)
    requires Tiled(geo, tiles) && Hosted(geo, cfg, tiles, v.sheets) && Joined(tiles, v.sheets)
    requires Holds(geo, LoansOf(tiles, v.blocks), p, x)
    requires Rep(cfg, v, {}, {})
    ensures Holds(geo, LoansOf(tiles, v.blocks), q, x) ==> q == p
  {
    hide Rep, Size, SheetOf, Tiled, Hosted, Apart, Calm;
    var l := LoansOf(tiles, v.blocks);
    LoansPart(tiles, v.blocks);
    HoldsWhere(geo, cfg, v, l, x);
    InSheet(geo, cfg, tiles, v.sheets, x);
    ShapeOf(cfg, v, {}, {});
    SmallOnce(v.blocks, p - 1, q - 1, x);
    LargeOnce(geo, tiles, v.blocks, p, x);
    LargeOnce(geo, tiles, v.blocks, q, x);
    LargeNoSheet(geo, cfg, tiles, v, p, x);
    LargeNoSheet(geo, cfg, tiles, v, q, x);
    if LargeHolds(geo, l, p, x) { TilesApart(geo, tiles, p, q, x); }
  }

  lemma SmallOnce(blk: Blocks, g: int, h: int, x: nat)
    requires Apart(blk)
    ensures g >= 0 && h >= 0 && PayloadOf(blk, g, x) && PayloadOf(blk, h, x) ==> g == h
  {
  }

  lemma LargeOnce(geo: Geometry, tiles: Tiles, blk: Blocks, p: nat, x: nat)
    ensures LargeHolds(geo, LoansOf(tiles, blk), p, x) ==> Covers(geo, tiles, p, x)
  {
    hide Size;
  }

  lemma LargeNoSheet(geo: Geometry, cfg: Config, tiles: Tiles, v: View, p: nat, x: nat)
    requires Tiled(geo, tiles) && Hosted(geo, cfg, tiles, v.sheets) && Joined(tiles, v.sheets)
    ensures LargeHolds(geo, LoansOf(tiles, v.blocks), p, x) ==> SheetOf(cfg, x) !in v.sheets
  {
    hide Size, SheetOf, Tiled, Hosted;
    InSheet(geo, cfg, tiles, v.sheets, x);
    if LargeHolds(geo, LoansOf(tiles, v.blocks), p, x) {
      assert Covers(geo, tiles, p, x) && !IsSheet(tiles, p);
    }
  }

  /** No place is the start of both a small and a large loan. */
  lemma Exclusive(geo: Geometry, cfg: Config, v: View, tiles: Tiles, p: nat)
    requires Tiled(geo, tiles) && Hosted(geo, cfg, tiles, v.sheets) && Joined(tiles, v.sheets) && |v.mem| == geo.total
    requires Rep(cfg, v, {}, {})
    ensures var l := LoansOf(tiles, v.blocks); p in l.larges && p > 0 ==> p - 1 !in l.smalls
  {
    hide Rep, SheetOf, Tiled, Size, Hosted;
    if p in tiles && tiles[p].use.Large? {
      assert Covers(geo, tiles, p, p) && !IsSheet(tiles, p);
      InSheet(geo, cfg, tiles, v.sheets, p);
      if p > 0 && p - 1 in v.blocks { PayloadPlace(cfg, v, p - 1); }
    }
  }

  /** Where an emptied sheet goes: it becomes the spare, unless there is an empty one. */
  predicate SpareAfter(spare0: nat, idle: bool, s: nat, sheets0: set<nat>, spare1: nat, sheets1: set<nat>) {
    if idle then spare1 == spare0 && sheets1 == sheets0 - {s} else spare1 == s && sheets1 == sheets0
  }

  predicate BaseAligned(base: nat, align: nat) { IsPow2(align) && align >= 16 && base % align == 0 }

  lemma Pow2IsPositive(v: nat)
    ensures IsPow2(v) ==> v > 0
  {
  }

  /** Alignments are powers of two, so a smaller one divides a larger one. */
  lemma AlignedAddress(base: nat, baseAlign: nat, alignment: nat, g: nat)
    requires BaseAligned(base, baseAlign) && IsPow2(alignment) && 0 < alignment <= baseAlign && 16 * g % alignment == 0
    ensures (base + 16 * g) % alignment == 0
  {
    hide IsPow2, Pow2, Fls, Aligned;
    IsPow2Iff(baseAlign);
    IsPow2Iff(alignment);
    FlsMono(alignment, baseAlign);
    AlignedIffMod(base, Fls(baseAlign));
    AlignedWeaken(base, Fls(alignment), Fls(baseAlign));
    AlignedIffMod(16 * g, Fls(alignment));
    AlignedSum(base, 16 * g, Fls(alignment));
    AlignedIffMod(base + 16 * g, Fls(alignment));
  }

  lemma NotServableAligned(geo: Geometry, t: Tiles, n: nat, alignment: nat)
    requires n > 0 && alignment > 0
    ensures AlignedOrder(geo, n, alignment) >= geo.top ==> !Servable(geo, t, AlignedOrder(geo, n, alignment))
  {
    hide AlignedOrder, Aligned, Size, Clear;
  }

  /** The loans leave an aligned run for a request of `n` bytes. */
  ghost predicate LargeFits(geo: Geometry, cfg: Config, l: Loans, n: nat) {
    n > 0 && geo.lm <= cfg.sheetLog && Servable(geo, Pinned(geo, cfg, l), OrderForSize(geo, n))
  }

  /** The same at an alignment, of which the region's base admits no more than `most`. */
  ghost predicate AlignedFits(geo: Geometry, cfg: Config, l: Loans, most: nat, n: nat, alignment: nat) {
    && n > 0 && IsPow2(alignment) && 0 < alignment <= most && geo.lm <= cfg.sheetLog
    && Servable(geo, Pinned(geo, cfg, l), AlignedOrder(geo, n, alignment))
  }

  /** A grant is new, large enough, and the only change to the loans. */
  ghost predicate LargeResult(geo: Geometry, l: Loans, l': Loans, c: Chunk, n: nat, o: nat) {
    if c.Null? then l' == l
    else c.pos !in l.larges && (c.pos > 0 ==> c.pos - 1 !in l.smalls) && c.len == OrderSize(geo, o) && 0 < n <= c.len
         && l' == LendLarge(l, c.pos, o)
  }

  /** The same for a small grant, which is at most 31 bytes longer than asked. */
  ghost predicate SmallResult(l: Loans, l': Loans, c: Chunk, n: nat) {
    if c.Null? then l' == l
    else c.pos > 0 && c.pos - 1 !in l.smalls && c.pos !in l.larges && c.len % 16 == 0 && 0 < n <= c.len < n + 32
         && l' == LendSmall(l, c.pos - 1, c.len / 16 + 1)
  }

  lemma NotServable(geo: Geometry, t: Tiles, n: nat)
    ensures n > 0 && OrderForSize(geo, n) >= geo.top ==> !Servable(geo, t, OrderForSize(geo, n))
  {
    hide OrderForSize, Aligned, Size, Clear;
  }

  lemma MemBound(cfg: Config, v: View)
    requires Rep(cfg, v, {}, {})
    ensures |v.mem| < NULL
  {
  }

  /** With the spare flushed, both tiers of a region are a function of its loans: which sheets there are, every
      block of the sheets and every block of the buddy tier, free ones included. */
  lemma FlushedByLoans(geo: Geometry, cfg: Config, v1: View, t1: Tiles, v2: View, t2: Tiles)
    requires LoansOf(t1, v1.blocks) == LoansOf(t2, v2.blocks)
    requires Flushed(geo, cfg, v1, t1) && Flushed(geo, cfg, v2, t2)
    ensures v1.sheets == v2.sheets && v1.blocks == v2.blocks && t1 == t2
  {
    hide Rep, LiveSizes, NoHand, Tiled, Merged, SheetsUsed, LargeOrders, Hosted, Joined, Pinned;
    FlushedPinned(geo, cfg, v1, t1);
    FlushedPinned(geo, cfg, v2, t2);
    assert v1.sheets == v2.sheets;
    BlocksByLive(cfg, v1, v2);
    HistoryIndependent(geo, t1, t2);
  }

  /** The states of a region without a spare. */
  ghost predicate Flushed(geo: Geometry, cfg: Config, v: View, t: Tiles) {
    && Tiled(geo, t) && Merged(geo, t) && Hosted(geo, cfg, t, v.sheets) && Joined(t, v.sheets) && NoHand(v.blocks)
    && SpareHolds(cfg, LiveSizes(v.blocks), v.sheets, NULL) && Rep(cfg, v, {}, {})
  }

  lemma FlushedPinned(geo: Geometry, cfg: Config, v: View, t: Tiles)
    requires Flushed(geo, cfg, v, t)
    ensures Hosted(geo, cfg, t, v.sheets) && v.sheets == SheetsUsed(cfg, LiveSizes(v.blocks))
    ensures Busy(t) == Pinned(geo, cfg, LoansOf(t, v.blocks))
  {
    hide Rep, LiveSizes, NoHand, Tiled, Merged, SheetsUsed, LargeOrders, Hosted, Joined, Pinned;
    UsedAreSheets(cfg, v);
    NoSheetAtNull(cfg, v);
    PinnedIs(geo, cfg, v, t, NULL);
  }

  lemma NoSheetAtNull(cfg: Config, v: View)
    requires Rep(cfg, v, {}, {})
    ensures NULL !in v.sheets
  {
    hide Rep, SheetOf;
    if NULL in v.sheets {
      SheetWord(cfg, v, {}, {}, NULL);
      MemBound(cfg, v);
    }
  }

  /** A sheet given back by the TLSF tier is no loan. */
  lemma UnmarkedLends(t0: Tiles, s: nat, blk: Blocks)
    requires IsSheet(t0, s)
    ensures ReturnLarge(LoansOf(t0[s := Tile(t0[s].order, Large)], blk), s) == LoansOf(t0, blk)
    ensures Busy(t0[s := Tile(t0[s].order, Large)]) - {s} == Busy(t0) - {s}
  {
    hide LiveSizes;
  }

  lemma LentSizes(blk: Blocks)
    ensures forall g :: g in LiveSizes(blk) ==> g in Lent(blk) && LiveSizes(blk)[g] == Lent(blk)[g].size
  {
  }

  lemma SheetTile(geo: Geometry, cfg: Config, tiles: Tiles, sheets: set<nat>, s: nat)
    requires Tiled(geo, tiles) && Hosted(geo, cfg, tiles, sheets) && s in sheets
    ensures s < geo.total && Aligned(s, geo.lm) && s in tiles
  {
    BuddyState.TilePlace(geo, tiles, s);
  }

  /** The seed lends nothing. */
  lemma SeedLends(geo: Geometry, units: nat)
    ensures forall g ::
              g in Decomposition(geo, units, geo.top, 0) ==> Decomposition(geo, units, geo.top, 0)[g].use.Free?
  {
    SeedFree(geo, units, geo.top, 0);
  }

  lemma {:induction false} SeedFree(geo: Geometry, units: nat, o: nat, off: nat)
    ensures forall g :: g in Decomposition(geo, units, o, off) ==> Decomposition(geo, units, o, off)[g].use.Free?
  {
    hide Bit, Pow2;
    if o > 0 {
      SeedFree(geo, units, o - 1, off + Size(geo, o - 1));
      SeedFree(geo, units, o - 1, off);
    }
  }
}
