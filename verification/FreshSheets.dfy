/** Why acquiring a sheet is never in vain: a fresh sheet always serves the small request that
    asked for it. */
module FreshSheets {
  import opened Bits
  import opened Links
  import opened Tiling
  import opened Mapping
  import opened BuddyTier
  import opened TlsfState
  import opened TlsfTier
  import opened RegionState

  /** Bytes and order of a sheet agree. */
  lemma SheetAsked(geo: Geometry, cfg: Config)
    requires geo.lm <= cfg.sheetLog
    ensures Span(cfg) > 0 && OrderForSize(geo, 16 * Span(cfg)) == SheetOrder(geo, cfg)
  {
    hide OrderForSize, Pow2;
    SheetSize(geo, cfg);
    OrderForSizeIsLeast(geo, 16 * Span(cfg));
    var o := OrderForSize(geo, 16 * Span(cfg));
    assert OrderSize(geo, SheetOrder(geo, cfg)) == 16 * Span(cfg);
    if o < SheetOrder(geo, cfg) {
      SizeMono(geo, o + 1, SheetOrder(geo, cfg));
      SizeDouble(geo, o);
    }
  }

  /** Small requests stay in the range of the search table, which goes one granule further. */
  lemma SmallRange(cfg: Config, n: nat)
    requires Sound(cfg) && 1 <= n <= cfg.smallMax
    ensures 2 <= Adjusted(cfg, n) <= TableMax(cfg) && cfg.slLog <= 5
    ensures n == cfg.smallMax ==> TableMax(cfg) == Adjusted(cfg, n) + 1
  {
    hide FlCount;
    SpanFacts(cfg);
  }

  /** A list at or above the search class holds every empty sheet. */
  lemma EmptyIsAbove(cfg: Config, v: View, s: nat, n: nat)
    requires EmptySheet(cfg, v.blocks, s) && 1 <= n <= cfg.smallMax && Sound(cfg)
    requires Rep(cfg, v, {}, {})
    ensures cfg.slLog <= 5 && 2 <= Adjusted(cfg, n) && Above(cfg.slLog, v.lists, 16 * Adjusted(cfg, n))
  {
    hide Rep, Index, SearchIndex, DataSpan, DataOff, FlCount, TableMax, Adjusted, RoundUp, Sound;
    var d, size := s + DataOff(cfg), 16 * Adjusted(cfg, n);
    SmallRange(cfg, n);
    ClassOf(cfg, v, {}, {}, d);
    SearchInRange(cfg, size);
    SearchIsRounded(cfg.slLog, size);
    IndexMono(cfg.slLog, RoundUp(cfg.slLog, size), 16 * DataSpan(cfg));
    var i := Index(cfg.slLog, 16 * DataSpan(cfg));
    assert NonEmpty(v.lists, i);
  }

  /** Every small request is met while some sheet is empty. */
  lemma EmptyFits(cfg: Config, v: View, s: nat, n: nat)
    requires EmptySheet(cfg, v.blocks, s) && 1 <= n <= cfg.smallMax && Sound(cfg) && cfg.slLog <= 5
    requires Rep(cfg, v, {}, {})
    ensures FitsIn(cfg, v.lists, v.blocks, n)
  {
    hide Rep, Above, Exact, EmptySheet, Adjusted, Sound;
    EmptyIsAbove(cfg, v, s, n);
  }

  lemma AboveBy(slLog: nat, l: seq<seq<nat>>, size: nat, i: nat)
    requires slLog <= 5 && size >= 32
    ensures SearchIndex(slLog, size) <= i && NonEmpty(l, i) ==> Above(slLog, l, size)
  {
    hide SearchIndex;
  }

  /** A request that nothing else could meet is granted from the sheet just filed. */
  lemma GrantIsFresh(cfg: Config, l0: seq<seq<nat>>, b0: Blocks, l1: seq<seq<nat>>, b1: Blocks, s: nat, n: nat,
      off: nat)
    requires cfg.slLog <= 5 && 2 <= Adjusted(cfg, n) && !FitsIn(cfg, l0, b0, n)
    requires FiledFirst(cfg, l0, l1, s) && Above(cfg.slLog, l1, 16 * Adjusted(cfg, n))
    requires HeadsList(cfg.slLog, l1, b1, 16 * Adjusted(cfg, n), off)
    ensures off == s + DataOff(cfg)
  {
    hide Index, SearchIndex, DataSpan, DataOff, Adjusted, Exact;
    var size := 16 * Adjusted(cfg, n);
    var i: nat :| Hit(cfg.slLog, l1, b1, size, off, i);
    assert LowestAbove(cfg.slLog, l1, size, i);
    AboveBy(cfg.slLog, l0, size, i);
  }
}
