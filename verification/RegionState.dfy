/** How the two tiers share one region: a sheet is a buddy block lent to the TLSF tier.

    `Loans` is the abstract state of a region: what callers hold, and nothing about how the rest
    is cut up. */
module RegionState {
  import opened Bits
  import opened Granules
  import opened Links
  import opened Sums
  import opened Tiling
  import opened Mapping
  import opened TlsfState
  import BuddyState

  /** What callers hold.  `smalls`: header granule to granules, header included.  `larges`: first
      granule to order. */
  datatype Loans = Loans(smalls: map<nat, nat>, larges: map<nat, nat>)

  function LoansOf(tiles: Tiles, blk: Blocks): Loans { Loans(LiveSizes(blk), LargeOrders(tiles)) }

  function LargeOrders(tiles: Tiles): map<nat, nat> {
    map g | g in tiles && tiles[g].use.Large? :: tiles[g].order
  }

  /** Granule `x` belongs to the caller's part of a loan. */
  predicate SmallHolds(l: Loans, g: nat, x: nat) { g in l.smalls && g < x < g + l.smalls[g] }

  predicate LargeHolds(geo: Geometry, l: Loans, g: nat, x: nat) {
    g in l.larges && g <= x < g + Size(geo, l.larges[g])
  }

  /** Granule `x` belongs to the loan whose memory starts at granule `p`. */
  predicate Holds(geo: Geometry, l: Loans, p: nat, x: nat) {
    (p > 0 && SmallHolds(l, p - 1, x)) || LargeHolds(geo, l, p, x)
  }

  /** The memory of the given loans is the same. */
  ghost predicate Intact(geo: Geometry, l: Loans, m: seq<Granule>, m': seq<Granule>) {
    && |m'| == |m|
    && (forall g: nat, x: nat :: SmallHolds(l, g, x) && x < |m| ==> m'[x] == m[x])
    && (forall g: nat, x: nat :: LargeHolds(geo, l, g, x) && x < |m| ==> m'[x] == m[x])
  }

  lemma IntactSelf(geo: Geometry, l: Loans, m: seq<Granule>)
    ensures Intact(geo, l, m, m)
  {
  }

  lemma IntactTrans(geo: Geometry, l: Loans, m0: seq<Granule>, m1: seq<Granule>, m2: seq<Granule>)
    requires Intact(geo, l, m0, m1) && Intact(geo, l, m1, m2)
    ensures Intact(geo, l, m0, m2)
  {
    hide SmallHolds, LargeHolds;
  }

  // ---- sheets as buddy blocks --------------------------------------------------------------------------

  predicate IsSheet(tiles: Tiles, s: nat) { s in tiles && tiles[s].use.Sheet? }

  /** The order of a sheet. */
  function SheetOrder(geo: Geometry, cfg: Config): nat
    requires geo.lm <= cfg.sheetLog
  {
    cfg.sheetLog - geo.lm
  }

  /** Every sheet is a lent buddy block of the sheet's order. */
  ghost predicate Hosted(geo: Geometry, cfg: Config, tiles: Tiles, sheets: set<nat>) {
    && geo.lm <= cfg.sheetLog
    && forall s: nat :: s in sheets ==> s in tiles && !tiles[s].use.Free? && tiles[s].order == SheetOrder(geo, cfg)
  }

  /** The sheets of the TLSF tier are exactly the buddy blocks tagged as sheets. */
  ghost predicate Joined(tiles: Tiles, sheets: set<nat>) {
    forall s: nat :: s in sheets <==> IsSheet(tiles, s)
  }

  lemma SheetSize(geo: Geometry, cfg: Config)
    requires geo.lm <= cfg.sheetLog
    ensures Size(geo, SheetOrder(geo, cfg)) == Span(cfg)
  {
  }

  /** A granule lies in a sheet exactly when the sheet's block covers it. */
  lemma InSheet(geo: Geometry, cfg: Config, tiles: Tiles, sheets: set<nat>, x: nat)
    requires Tiled(geo, tiles) && Hosted(geo, cfg, tiles, sheets)
    ensures SheetOf(cfg, x) in sheets ==> Covers(geo, tiles, SheetOf(cfg, x), x)
    ensures forall h: nat :: Covers(geo, tiles, h, x) && SheetOf(cfg, x) in sheets ==> h == SheetOf(cfg, x)
    ensures forall h: nat :: h in sheets && Covers(geo, tiles, h, x) ==> SheetOf(cfg, x) == h
  {
    hide Aligned, SheetOf, Pow2, Covered;
    SheetOfBounds(cfg, x);
    SheetSize(geo, cfg);
    forall h: nat | h in sheets && Covers(geo, tiles, h, x) ensures SheetOf(cfg, x) == h {
      assert Aligned(h, geo.lm + tiles[h].order);
      SheetOfIs(cfg, h, x);
    }
  }

  // ---- each tier survives the other's steps, and its callers' writes ------------------------------------------

  /** The TLSF tier depends on its own data alone: headers, sentinels and bitmaps. */
  lemma TlsfFrame(cfg: Config, v: View, mem: seq<Granule>)
    requires OnlyOthers(cfg, v, mem)
    requires Rep(cfg, v, {}, {})
    ensures Rep(cfg, v.(mem := mem), {}, {})
  {
    hide Laid, Calm, Headers, Linked, BitsMatch, Marks, Filed, FlCount, TableMax, Pow2, SheetOf, SheetsPlaced,
         OnlyOthers;
    LengthSame(cfg, v, mem);
    HeadersFrame(cfg, v, mem);
    MarksFrame(cfg, v, mem);
    LinksFrame(cfg, v, mem);
  }

  /** Nothing of the tier's own data differs. */
  ghost predicate OnlyOthers(cfg: Config, v: View, mem: seq<Granule>) {
    |mem| == |v.mem| && forall x: nat :: x < |mem| && Touch(cfg, v.sheets, v.blocks, x) ==> mem[x] == v.mem[x]
  }

  lemma BlockSame(cfg: Config, v: View, mem: seq<Granule>, g: nat)
    requires OnlyOthers(cfg, v, mem) && SheetsPlaced(cfg, |v.mem|, v.sheets) && Laid(cfg, v.sheets, v.blocks)
             && g in v.blocks
    ensures g + v.blocks[g].size < |mem| && mem[g] == v.mem[g]
    ensures mem[g + v.blocks[g].size] == v.mem[g + v.blocks[g].size]
  {
    hide Laid, SheetOf, SheetsPlaced, DataOff, EndOf;
    BlockBounds(cfg, |v.mem|, v.sheets, v.blocks, g);
    ChainFacts(cfg, |v.mem|, v.sheets, v.blocks, g);
    assert Touch(cfg, v.sheets, v.blocks, g) && Touch(cfg, v.sheets, v.blocks, g + v.blocks[g].size);
  }

  lemma SentinelSame(cfg: Config, v: View, mem: seq<Granule>, s: nat)
    requires OnlyOthers(cfg, v, mem) && SheetsPlaced(cfg, |v.mem|, v.sheets) && Laid(cfg, v.sheets, v.blocks)
             && s in v.sheets
    requires Sound(cfg)
    ensures s < |mem| && mem[s] == v.mem[s] && 0 <= EndOf(cfg, s) < |mem| && mem[EndOf(cfg, s)] == v.mem[EndOf(cfg, s)]
  {
    hide Inside, Apart, Chained, Backed, SheetOf, SheetsPlaced, DataOff, Sound;
    SentinelsApart(cfg, |v.mem|, v.sheets, v.blocks, s);
    SheetFits(cfg, |v.mem|, v.sheets, s);
    DataOffPositive(cfg);
    assert Touch(cfg, v.sheets, v.blocks, s) && Touch(cfg, v.sheets, v.blocks, EndOf(cfg, s));
  }

  lemma HeadersFrame(cfg: Config, v: View, mem: seq<Granule>)
    requires OnlyOthers(cfg, v, mem) && SheetsPlaced(cfg, |v.mem|, v.sheets) && Laid(cfg, v.sheets, v.blocks)
             && Sound(cfg)
    requires Headers(cfg, v.mem, v.sheets, v.blocks, {}, {})
    ensures Headers(cfg, mem, v.sheets, v.blocks, {}, {})
  {
    hide SheetOf, DataOff, EndOf, OnlyOthers, Laid, SheetsPlaced, Sound, SizeWord;
    LengthSame(cfg, v, mem);
    forall g: nat | g in v.blocks
      ensures g + v.blocks[g].size < |mem| && mem[g] == v.mem[g]
              && mem[g + v.blocks[g].size] == v.mem[g + v.blocks[g].size]
    {
      BlockSame(cfg, v, mem, g);
    }
    forall s: nat | s in v.sheets
      ensures s < |mem| && mem[s] == v.mem[s] && 0 <= EndOf(cfg, s) < |mem|
              && mem[EndOf(cfg, s)] == v.mem[EndOf(cfg, s)]
    {
      SentinelSame(cfg, v, mem, s);
    }
  }

  lemma LengthSame(cfg: Config, v: View, mem: seq<Granule>)
    requires OnlyOthers(cfg, v, mem)
    ensures |mem| == |v.mem|
  {
    hide Touch;
  }

  lemma MarksFrame(cfg: Config, v: View, mem: seq<Granule>)
    requires OnlyOthers(cfg, v, mem) && SheetsPlaced(cfg, |v.mem|, v.sheets) && Sound(cfg)
    requires Marks(cfg, v.mem, v.sheets, v.blocks)
    ensures Marks(cfg, mem, v.sheets, v.blocks)
  {
    hide SheetOf, DataOff, EndOf, SheetsPlaced, Sound, Marks, BitmapCell;
    forall p: nat | SheetOf(cfg, p) in v.sheets
      ensures 0 <= BitmapCell(cfg, p) < |v.mem| && mem[BitmapCell(cfg, p)] == v.mem[BitmapCell(cfg, p)]
    {
      BitmapCellPlace(cfg, |v.mem|, v.sheets, p);
      assert Touch(cfg, v.sheets, v.blocks, BitmapCell(cfg, p));
    }
    MarksKeep(cfg, v.mem, mem, v.sheets, v.blocks);
  }

  lemma LinksFrame(cfg: Config, v: View, mem: seq<Granule>)
    requires OnlyOthers(cfg, v, mem) && SheetsPlaced(cfg, |v.mem|, v.sheets) && Laid(cfg, v.sheets, v.blocks)
    requires cfg.slLog <= 5 && Filed(cfg.slLog, v.blocks, v.lists) && Linked(TlsfLinks, v.mem, v.heads, v.lists)
    ensures Linked(TlsfLinks, mem, v.heads, v.lists)
  {
    hide Filed, Linked, VacantIn, OnlyOthers, SheetsPlaced, Laid, Index;
    LengthSame(cfg, v, mem);
    forall o, x: nat | 0 <= o < |v.lists| && x in v.lists[o] ensures x < |mem| && mem[x] == v.mem[x] {
      FiledNode(cfg.slLog, v.blocks, v.lists, o, x);
      VacantIs(cfg.slLog, v.blocks, x, o);
      BlockSame(cfg, v, mem, x);
    }
    LinkedFrame(TlsfLinks, v.mem, mem, v.heads, v.lists);
  }

  /** The buddy tier depends on the memory of its free blocks alone. */
  lemma BuddyFrame(geo: Geometry, m: seq<Granule>, m': seq<Granule>, tags: seq<nat>, heads: seq<nat>,
      lists: seq<seq<nat>>,
                   tiles: Tiles)
    requires |m'| == |m| && forall x: nat, o: nat :: IsFree(tiles, x, o) && x < |m| ==> m'[x] == m[x]
    requires BuddyState.Represents(geo, m, tags, heads, lists, tiles, NULL)
    ensures BuddyState.Represents(geo, m', tags, heads, lists, tiles, NULL)
  {
    hide Linked, Tiled, Merged, BuddyState.TagsMatch, BuddyState.Members, Aligned, Size, Shl, IsFree;
    BuddyState.LinkedOf(geo, m, tags, heads, lists, tiles, NULL);
    forall o, x: nat | 0 <= o < |lists| && x in lists[o] ensures x < |m| ==> m'[x] == m[x] {
      assert IsFree(tiles, x, o);
    }
    LinkedFrame(BuddyLinks, m, m', heads, lists);
  }

  /** What the TLSF tier changes is no free block. */
  lemma SparedFrame(geo: Geometry, cfg: Config, m: seq<Granule>, m': seq<Granule>, tags: seq<nat>, heads: seq<nat>,
                    lists: seq<seq<nat>>, tiles: Tiles, sheets: set<nat>, lent: Blocks)
    requires Spared(cfg, sheets, lent, m, m') && Hosted(geo, cfg, tiles, sheets)
    requires BuddyState.Represents(geo, m, tags, heads, lists, tiles, NULL)
    ensures BuddyState.Represents(geo, m', tags, heads, lists, tiles, NULL)
  {
    hide Linked, Tiled, Merged, BuddyState.TagsMatch, BuddyState.Members, Aligned, Size, Shl, SheetOf, Hosted, IsFree,
         PayloadOf;
    forall x: nat, o: nat | IsFree(tiles, x, o) && x < |m| ensures m'[x] == m[x] {
      FreeOutside(geo, cfg, tiles, sheets, x);
    }
    BuddyFrame(geo, m, m', tags, heads, lists, tiles);
  }

  /** No free tile starts inside a sheet. */
  lemma FreeOutside(geo: Geometry, cfg: Config, tiles: Tiles, sheets: set<nat>, x: nat)
    requires Tiled(geo, tiles) && Hosted(geo, cfg, tiles, sheets)
    ensures SheetOf(cfg, x) in sheets ==> forall o: nat :: !IsFree(tiles, x, o)
  {
    hide SheetOf, Tiled, Aligned, Size;
    InSheet(geo, cfg, tiles, sheets, x);
    assert x in tiles ==> Covers(geo, tiles, x, x);
  }

  /** What the buddy tier keeps includes every sheet, so the TLSF tier stays as it is. */
  lemma KeptFrame(geo: Geometry, cfg: Config, v: View, tiles: Tiles, kept: Tiles, m': seq<Granule>)
    requires Tiled(geo, tiles) && Hosted(geo, cfg, tiles, v.sheets) && BuddyState.Kept(geo, kept, v.mem, m')
    requires forall s: nat :: s in v.sheets ==> s in kept && kept[s].order == tiles[s].order
    requires Rep(cfg, v, {}, {})
    ensures Rep(cfg, v.(mem := m'), {}, {})
  {
    hide SheetOf, Tiled, Rep, Size, Hosted, EndOf, DataOff;
    forall x: nat | x < |v.mem| && Touch(cfg, v.sheets, v.blocks, x) ensures m'[x] == v.mem[x] {
      InSheet(geo, cfg, tiles, v.sheets, x);
      assert Covers(geo, kept, SheetOf(cfg, x), x);
    }
    TlsfFrame(cfg, v, m');
  }

  // ---- loans survive the steps of both tiers -------------------------------------------------------------------

  /** A loan's memory lies where its tier put it. */
  lemma HoldsWhere(geo: Geometry, cfg: Config, v: View, l: Loans, x: nat)
    requires PartOfLoans(l, v.blocks)
    requires Rep(cfg, v, {}, {})
    ensures forall g: nat :: SmallHolds(l, g, x) ==> SheetOf(cfg, x) == SheetOf(cfg, g) && SheetOf(cfg, x) in v.sheets
  {
    hide SheetOf, Sound, Calm, Linked, BitsMatch, Marks, Filed, Headers, FlCount, Pow2, Laid, SheetsPlaced;
    forall g: nat | SmallHolds(l, g, x) ensures SheetOf(cfg, x) == SheetOf(cfg, g) && SheetOf(cfg, x) in v.sheets {
      assert PayloadOf(v.blocks, g, x);
      LaidParts(cfg, v.sheets, v.blocks);
      NextSheet(cfg, |v.mem|, v.sheets, v.blocks, g, x - g);
    }
  }

  /** The small loans are live blocks, perhaps cut short. */
  ghost predicate PartOfLoans(l: Loans, blk: Blocks) {
    forall g :: g in l.smalls ==> g in blk && blk[g].use.Live? && l.smalls[g] <= blk[g].size
  }

  lemma KeptIntact(geo: Geometry, cfg: Config, v: View, tiles: Tiles, kept: Tiles, l: Loans, m': seq<Granule>)
    requires Tiled(geo, tiles) && Hosted(geo, cfg, tiles, v.sheets) && BuddyState.Kept(geo, kept, v.mem, m')
    requires forall s: nat :: s in v.sheets ==> s in kept && kept[s].order == tiles[s].order
    requires forall g :: g in l.larges ==> g in kept && l.larges[g] <= kept[g].order
    requires PartOfLoans(l, v.blocks)
    requires Rep(cfg, v, {}, {})
    ensures Intact(geo, l, v.mem, m')
  {
    hide SheetOf, Tiled, Rep, Size, Hosted, SmallHolds;
    forall g: nat, x: nat | SmallHolds(l, g, x) && x < |v.mem| ensures m'[x] == v.mem[x] {
      HoldsWhere(geo, cfg, v, l, x);
      InSheet(geo, cfg, tiles, v.sheets, x);
      assert Covers(geo, kept, SheetOf(cfg, x), x);
    }
    forall g: nat, x: nat | LargeHolds(geo, l, g, x) && x < |v.mem| ensures m'[x] == v.mem[x] {
      SizeMono(geo, l.larges[g], kept[g].order);
      assert Covers(geo, kept, g, x);
    }
  }

  lemma SparedIntact(geo: Geometry, cfg: Config, tiles: Tiles, sheets: set<nat>, lent: Blocks, l: Loans,
                     m: seq<Granule>, m': seq<Granule>)
    requires Tiled(geo, tiles) && Hosted(geo, cfg, tiles, sheets) && Spared(cfg, sheets, lent, m, m')
    requires forall g :: g in l.larges ==> g in tiles && tiles[g].order == l.larges[g] && g !in sheets
    requires forall g :: g in l.smalls ==> g in lent && l.smalls[g] <= lent[g].size
    ensures Intact(geo, l, m, m')
  {
    hide SheetOf, Tiled, Size, Hosted;
    forall g: nat, x: nat | SmallHolds(l, g, x) && x < |m| ensures m'[x] == m[x] {
      assert PayloadOf(lent, g, x);
    }
    forall g: nat, x: nat | LargeHolds(geo, l, g, x) && x < |m| ensures m'[x] == m[x] {
      InSheet(geo, cfg, tiles, sheets, x);
      assert Covers(geo, tiles, g, x);
    }
  }

  /** Callers write into what they hold, and neither tier notices. */
  lemma WriteFrame(geo: Geometry, cfg: Config, v: View, tiles: Tiles, l: Loans, p: nat, x: nat, mem: seq<Granule>)
    requires Tiled(geo, tiles) && Hosted(geo, cfg, tiles, v.sheets) && l == LoansOf(tiles, v.blocks)
    requires Joined(tiles, v.sheets)
    requires SmallHolds(l, p, x) || LargeHolds(geo, l, p, x)
    requires |mem| == |v.mem| && forall y: nat :: y < |mem| && y != x ==> mem[y] == v.mem[y]
    requires Rep(cfg, v, {}, {})
    ensures Rep(cfg, v.(mem := mem), {}, {})
    ensures forall y: nat, o: nat :: IsFree(tiles, y, o) && y < |mem| ==> mem[y] == v.mem[y]
  {
    hide SheetOf, Tiled, Rep, Size, Hosted, SmallHolds, LargeHolds;
    NotOwn(geo, cfg, v, tiles, l, p, x);
    TlsfFrame(cfg, v, mem);
  }

  lemma NotOwn(geo: Geometry, cfg: Config, v: View, tiles: Tiles, l: Loans, p: nat, x: nat)
    requires Tiled(geo, tiles) && Hosted(geo, cfg, tiles, v.sheets) && l == LoansOf(tiles, v.blocks)
    requires Joined(tiles, v.sheets)
    requires SmallHolds(l, p, x) || LargeHolds(geo, l, p, x)
    requires Rep(cfg, v, {}, {})
    ensures !Touch(cfg, v.sheets, v.blocks, x)
    ensures forall o: nat :: !IsFree(tiles, x, o)
  {
    hide SheetOf, Rep, Size, Hosted, Aligned, DataOff, EndOf, Placed, Covered, Tiled;
    if SmallHolds(l, p, x) {
      HoldsWhere(geo, cfg, v, l, x);
      InSheet(geo, cfg, tiles, v.sheets, x);
      InsideBlock(cfg, v, p, x);
      FreeOutside(geo, cfg, tiles, v.sheets, x);
    } else {
      InSheet(geo, cfg, tiles, v.sheets, x);
      assert Covers(geo, tiles, p, x);
      TilesApart(geo, tiles, p, x, x);
    }
  }

  /** A granule strictly inside a block is neither header, nor sentinel, nor bitmap. */
  lemma InsideBlock(cfg: Config, v: View, g: nat, x: nat)
    requires PayloadOf(v.blocks, g, x)
    requires Rep(cfg, v, {}, {})
    ensures !Touch(cfg, v.sheets, v.blocks, x)
  {
    hide SheetOf, Sound, Calm, Linked, BitsMatch, Marks, Filed, Headers, FlCount, Pow2, Laid, SheetsPlaced, DataOff,
         EndOf;
    LaidParts(cfg, v.sheets, v.blocks);
    NextSheet(cfg, |v.mem|, v.sheets, v.blocks, g, x - g);
    BlockBounds(cfg, |v.mem|, v.sheets, v.blocks, g);
  }

  /** Two tiles do not share a granule. */
  lemma TilesApart(geo: Geometry, tiles: Tiles, g: nat, h: nat, x: nat)
    requires Tiled(geo, tiles) && Covers(geo, tiles, g, x)
    ensures Covers(geo, tiles, h, x) ==> h == g
    ensures h in tiles && h == x ==> h == g
    ensures x < geo.total
  {
    hide Size, Aligned, Covered;
  }

  // ---- what is pinned down by the loans ---------------------------------------------------------------------

  /** The sheets that hold a small loan. */
  function SheetsUsed(cfg: Config, smalls: map<nat, nat>): set<nat> { set g | g in smalls :: SheetOf(cfg, g) }

  /** The buddy blocks that no spare sheet hides: large loans, and sheets that hold a small loan. */
  function Pinned(geo: Geometry, cfg: Config, l: Loans): Tiles
    requires geo.lm <= cfg.sheetLog
  {
    (map g | g in l.larges :: Tile(l.larges[g], Large))
    + (map s | s in SheetsUsed(cfg, l.smalls) :: Tile(SheetOrder(geo, cfg), Sheet))
  }

  /** Every sheet that holds no small loan is the spare one. */
  ghost predicate SpareHolds(cfg: Config, smalls: map<nat, nat>, sheets: set<nat>, spare: nat) {
    && (spare == NULL || spare in sheets)
    && (forall s: nat :: s in sheets && s != spare ==> s in SheetsUsed(cfg, smalls))
  }

  lemma UsedIff(cfg: Config, v: View, s: nat)
    requires NoHand(v.blocks) && Rep(cfg, v, {}, {})
    ensures s in SheetsUsed(cfg, LiveSizes(v.blocks)) <==> s in v.sheets && !EmptySheet(cfg, v.blocks, s)
  {
    hide Rep, SheetOf, EmptySheet, NoHand;
    if s in v.sheets {
      EmptyIffNoLive(cfg, v, s);
    }
    forall g: nat | g in LiveSizes(v.blocks) ensures SheetOf(cfg, g) in v.sheets {
      BlockFacts(cfg, v, {}, {}, g);
    }
  }

  /** What is pinned is what is lent, less the spare sheet when that is empty. */
  lemma PinnedIs(geo: Geometry, cfg: Config, v: View, tiles: Tiles, spare: nat)
    requires Hosted(geo, cfg, tiles, v.sheets) && Joined(tiles, v.sheets) && NoHand(v.blocks)
    requires SpareHolds(cfg, LiveSizes(v.blocks), v.sheets, spare)
    requires Rep(cfg, v, {}, {})
    ensures Pinned(geo, cfg, LoansOf(tiles, v.blocks))
         == if spare in v.sheets && spare !in SheetsUsed(cfg, LiveSizes(v.blocks)) then Busy(tiles) - {spare}
             else Busy(tiles)
  {
    hide Rep, SheetOf, EmptySheet, NoHand, SheetsUsed, LiveSizes;
    UsedAreSheets(cfg, v);
    var p, b := Pinned(geo, cfg, LoansOf(tiles, v.blocks)),
                if spare in v.sheets && spare !in SheetsUsed(cfg, LiveSizes(v.blocks)) then Busy(tiles) - {spare}
                    else Busy(tiles);
    forall g: nat ensures g in p <==> g in b {
      assert IsSheet(tiles, g) <==> g in v.sheets;
    }
    forall g: nat | g in p ensures p[g] == b[g] {
      assert IsSheet(tiles, g) <==> g in v.sheets;
    }
  }

  lemma UsedAreSheets(cfg: Config, v: View)
    requires NoHand(v.blocks) && Rep(cfg, v, {}, {})
    ensures SheetsUsed(cfg, LiveSizes(v.blocks)) <= v.sheets
  {
    hide Rep, SheetOf, NoHand, SheetsUsed, LiveSizes;
    forall s | s in SheetsUsed(cfg, LiveSizes(v.blocks)) ensures s in v.sheets {
      UsedIff(cfg, v, s);
    }
  }

  /** Whether a run is free depends on the lent blocks alone. */
  lemma ServableBusy(geo: Geometry, tiles: Tiles, o: nat)
    ensures Servable(geo, tiles, o) <==> Servable(geo, Busy(tiles), o)
  {
    hide Aligned, Size;
    forall g: nat ensures Run(geo, tiles, g, o) <==> Run(geo, Busy(tiles), g, o) {
      ClearBusy(geo, tiles, g, Size(geo, o));
    }
    if Servable(geo, tiles, o) {
      var g: nat :| Run(geo, tiles, g, o);
      assert Run(geo, Busy(tiles), g, o);
    }
    if Servable(geo, Busy(tiles), o) {
      var g: nat :| Run(geo, Busy(tiles), g, o);
      assert Run(geo, tiles, g, o);
    }
  }

  lemma ClearBusy(geo: Geometry, tiles: Tiles, g: nat, len: nat)
    ensures Clear(geo, tiles, g, len) <==> Clear(geo, Busy(tiles), g, len)
  {
    hide Size;
    if Clear(geo, Busy(tiles), g, len) {
      forall h | h in tiles && !tiles[h].use.Free? ensures h + Size(geo, tiles[h].order) <= g || g + len <= h {
        assert h in Busy(tiles);
      }
    }
  }

  /** Fewer lent blocks leave more runs. */
  lemma ServableLess(geo: Geometry, less: Tiles, more: Tiles, o: nat)
    requires Servable(geo, more, o)
    requires forall h :: h in less && !less[h].use.Free? ==> h in more && more[h] == less[h]
    ensures Servable(geo, less, o)
  {
    hide Aligned, Size;
    var g: nat :| Run(geo, more, g, o);
    assert Run(geo, less, g, o);
  }

  // ---- accounting -----------------------------------------------------------------------------------------------

  function LargeWeights(geo: Geometry, l: Loans): map<nat, nat> { map g | g in l.larges :: Size(geo, l.larges[g]) }

  /** Bytes in use: the large loans, the small loans with their headers, and, for every sheet that holds
      a small loan, what the sheet's own data takes. */
  function Usage(geo: Geometry, cfg: Config, l: Loans): int {
    16 * Sum(LargeWeights(geo, l), geo.total) + 16 * Sum(l.smalls, geo.total)
    + 16 * (Span(cfg) - DataSpan(cfg)) * |SheetsUsed(cfg, l.smalls)|
  }

  /** Usage step by step: a small loan adds its granules, and its sheet's own data if it is the first there. */
  lemma UsageSmall(geo: Geometry, cfg: Config, l: Loans, g: nat, size: nat)
    requires g < geo.total && g !in l.smalls
    ensures Usage(geo, cfg, LendSmall(l, g, size)) == Usage(geo, cfg, l) + 16 * size
            + if SheetOf(cfg, g) in SheetsUsed(cfg, l.smalls) then 0 else 16 * (Span(cfg) - DataSpan(cfg))
  {
    hide SheetOf, DataSpan, Span, Sum, Size;
    var l', over := LendSmall(l, g, size), 16 * (Span(cfg) - DataSpan(cfg));
    SumUpdate(l.smalls, g, size, geo.total);
    assert SheetsUsed(cfg, l'.smalls) == SheetsUsed(cfg, l.smalls) + {SheetOf(cfg, g)};
    assert LargeWeights(geo, l') == LargeWeights(geo, l);
    var n := |SheetsUsed(cfg, l.smalls)|;
    assert over * (n + 1) == over * n + over;
  }

  /** A large loan adds its block; a resized loan adds the difference. */
  lemma UsageLarge(geo: Geometry, cfg: Config, l: Loans, g: nat, o: nat)
    requires g < geo.total
    ensures Usage(geo, cfg, LendLarge(l, g, o))
         == Usage(geo, cfg, l) + 16 * Size(geo, o) - if g in l.larges then 16 * Size(geo, l.larges[g]) else 0
  {
    hide Sum, Size;
    SumUpdate(LargeWeights(geo, l), g, Size(geo, o), geo.total);
    assert LargeWeights(geo, LendLarge(l, g, o)) == LargeWeights(geo, l)[g := Size(geo, o)];
  }

  function Ones(s: set<nat>): map<nat, nat> { map x | x in s :: 1 }

  function Spans(s: set<nat>, c: nat): map<nat, nat> { map x | x in s :: c }

  lemma {:induction false} SumOnes(s: set<nat>, n: nat)
    requires forall x :: x in s ==> x < n
    ensures Sum(Ones(s), n) == |s|
    decreases n
  {
    if n > 0 {
      var r := s - {n - 1};
      SumOnes(r, n - 1);
      SumAgree(Ones(s), Ones(r), n - 1);
      assert if n - 1 in s then s == r + {n - 1} else s == r;
    } else {
      assert s == {};
    }
  }

  lemma SumSpans(s: set<nat>, c: nat, n: nat)
    requires forall x :: x in s ==> x < n
    ensures Sum(Spans(s, c), n) == c * |s|
  {
    SumConstant(Spans(s, c), c, Ones(s), n);
    SumOnes(s, n);
  }

  /** Bytes the buddy tier has lent: the large loans and the sheets. */
  lemma BusyWeight(geo: Geometry, cfg: Config, tiles: Tiles, sheets: set<nat>)
    requires Placed(geo, tiles) && Hosted(geo, cfg, tiles, sheets) && Joined(tiles, sheets)
    ensures BuddyState.Weigh(geo, Busy(tiles))
         == Sum(LargeWeights(geo, Loans(map[], LargeOrders(tiles))), geo.total) + Span(cfg) * |sheets|
  {
    hide Size, Aligned, Sum;
    var a, b := LargeWeights(geo, Loans(map[], LargeOrders(tiles))), Spans(sheets, Span(cfg));
    SheetSize(geo, cfg);
    forall s: nat ensures s in sheets <==> IsSheet(tiles, s) {}
    assert BuddyState.Weights(geo, Busy(tiles)) == a + b;
    SumUnion(a, b, geo.total);
    SumSpans(sheets, Span(cfg), geo.total);
  }

  // ---- usage never exceeds the region -------------------------------------------------------------------------

  /** Intervals that start at the keys and have the given lengths do not overlap. */
  ghost predicate Spaced(w: map<nat, nat>) {
    forall g, h :: g in w && h in w && g < h ==> g + w[g] <= h
  }

  ghost predicate Clearance(w: map<nat, nat>, u: map<nat, nat>) {
    forall g, h :: g in w && h in u ==> w[g] > 0 && u[h] > 0 && (g + w[g] <= h || h + u[h] <= g)
  }

  lemma SpacedUnion(w: map<nat, nat>, u: map<nat, nat>, n: nat)
    requires Spaced(w) && Spaced(u) && Clearance(w, u)
    ensures Spaced(w + u) && Sum(w + u, n) == Sum(w, n) + Sum(u, n)
  {
    SumUnion(w, u, n);
  }

  /** The small loans, one granule on: the granule this frees before them makes up for the closing
      sentinel. */
  function Shifted(w: map<nat, nat>): map<nat, nat> { map g | g in w :: g + 1 := w[g] }

  lemma ShiftedAt(w: map<nat, nat>, x: nat)
    ensures x in Shifted(w) <==> x >= 1 && x - 1 in w
    ensures x in Shifted(w) ==> Shifted(w)[x] == w[x - 1]
  {
    var s := Shifted(w);
    if x >= 1 && x - 1 in w {
      var g := x - 1;
      assert g in w && g + 1 in s && s[g + 1] == w[g];
    }
    if x in s {
      var g :| g in w && g + 1 == x;
    }
  }

  lemma {:induction false} SumShifted(w: map<nat, nat>, n: nat)
    ensures Sum(Shifted(w), n + 1) == Sum(w, n)
  {
    hide Shifted;
    ShiftedAt(w, n);
    if n > 0 {
      SumShifted(w, n - 1);
    }
  }

  /** [g, g + len) lies in a used sheet. */
  predicate WithinSheet(cfg: Config, used: set<nat>, g: nat, len: nat) {
    SheetOf(cfg, g) in used && SheetOf(cfg, g) <= g && g + len <= SheetOf(cfg, g) + Span(cfg)
  }

  /** Where the sheets in use lie. */
  ghost predicate UsedParts(cfg: Config, used: set<nat>) {
    && DataOff(cfg) + 1 <= Span(cfg)
    && (forall s :: s in used ==> SheetOf(cfg, s) == s)
    && (forall s, t :: s in used && t in used && s < t ==> s + Span(cfg) <= t)
  }

  /** Where the small loans lie. */
  ghost predicate SmallParts(cfg: Config, smalls: map<nat, nat>, used: set<nat>) {
    && (forall g :: g in smalls ==> SmallPart(cfg, smalls, used, g))
    && Spaced(smalls)
  }

  predicate SmallPart(cfg: Config, smalls: map<nat, nat>, used: set<nat>, g: nat)
    requires g in smalls
  {
    && SheetOf(cfg, g + 1) + DataOff(cfg) <= g && smalls[g] > 0
    && WithinSheet(cfg, used, g + 1, smalls[g])
  }

  lemma ShiftedSpaced(w: map<nat, nat>)
    requires Spaced(w)
    ensures Spaced(Shifted(w))
  {
    hide Shifted;
    forall g, h | g in Shifted(w) && h in Shifted(w) && g < h ensures g + Shifted(w)[g] <= h {
      ShiftedAt(w, g);
      ShiftedAt(w, h);
    }
  }

  lemma PartsSum(cfg: Config, smalls: map<nat, nat>, used: set<nat>, n: nat) returns (w: map<nat, nat>)
    requires UsedParts(cfg, used) && SmallParts(cfg, smalls, used)
    requires (forall s :: s in used ==> s < n) && (forall g :: g in smalls ==> g + 1 < n)
    ensures Spaced(w) && Sum(w, n) == Sum(smalls, n) + (DataOff(cfg) + 1) * |used|
    ensures forall g :: g in w ==> w[g] > 0 && WithinSheet(cfg, used, g, w[g])
  {
    hide Span, DataOff, SheetOf, Sum, Shifted, Clearance, Spaced;
    var f, t := Spans(used, DataOff(cfg) + 1), Shifted(smalls);
    SumSpans(used, DataOff(cfg) + 1, n);
    ShiftedSum(smalls, n);
    ShiftedSpaced(smalls);
    FrontsSpaced(cfg, used);
    FrontsClear(cfg, smalls, used);
    SpacedUnion(f, t, n);
    w := f + t;
    forall g | g in t ensures t[g] > 0 && WithinSheet(cfg, used, g, t[g]) {
      ShiftedAt(smalls, g);
      assert SmallPart(cfg, smalls, used, g - 1);
    }
  }

  lemma FrontsSpaced(cfg: Config, used: set<nat>)
    requires UsedParts(cfg, used)
    ensures Spaced(Spans(used, DataOff(cfg) + 1))
    ensures forall s :: s in used ==> WithinSheet(cfg, used, s, DataOff(cfg) + 1)
  {
    hide Span, DataOff, SheetOf;
  }

  lemma FrontsClear(cfg: Config, smalls: map<nat, nat>, used: set<nat>)
    requires UsedParts(cfg, used) && SmallParts(cfg, smalls, used)
    ensures Clearance(Spans(used, DataOff(cfg) + 1), Shifted(smalls))
  {
    hide Span, DataOff, SheetOf, Spaced, Shifted;
    var f, t := Spans(used, DataOff(cfg) + 1), Shifted(smalls);
    forall s, x | s in f && x in t ensures f[s] > 0 && t[x] > 0 && (s + f[s] <= x || x + t[x] <= s) {
      ShiftedAt(smalls, x);
      assert SmallPart(cfg, smalls, used, x - 1);
    }
  }

  lemma ShiftedSum(w: map<nat, nat>, n: nat)
    requires forall g :: g in w ==> g + 1 < n
    ensures Sum(Shifted(w), n) == Sum(w, n)
  {
    hide Shifted;
    if n > 0 {
      SumShifted(w, n - 1);
    }
  }

  lemma UsedPlaces(geo: Geometry, cfg: Config, v: View)
    requires NoHand(v.blocks) && |v.mem| == geo.total
    requires Rep(cfg, v, {}, {})
    ensures var used := SheetsUsed(cfg, LiveSizes(v.blocks));
            used <= v.sheets && UsedParts(cfg, used) && forall s :: s in used ==> s < geo.total
  {
    hide SheetOf, Sound, Calm, Linked, BitsMatch, Marks, Filed, Headers, FlCount, Pow2, Laid, DataOff, Span, SheetsUsed,
         LiveSizes;
    var used := SheetsUsed(cfg, LiveSizes(v.blocks));
    SpanFacts(cfg);
    forall s: nat | s in used ensures s in v.sheets && s < geo.total && SheetOf(cfg, s) == s {
      UsedIff(cfg, v, s);
      SheetPlace(cfg, v, s);
    }
  }

  lemma SheetPlace(cfg: Config, v: View, s: nat)
    requires s in v.sheets && Rep(cfg, v, {}, {})
    ensures s < |v.mem| && SheetOf(cfg, s) == s
  {
    hide SheetOf, Sound, Calm, Linked, BitsMatch, Marks, Filed, Headers, FlCount, Pow2, Laid, DataOff, Span;
    LaidParts(cfg, v.sheets, v.blocks);
    SheetFits(cfg, |v.mem|, v.sheets, s);
    SentinelsApart(cfg, |v.mem|, v.sheets, v.blocks, s);
  }

  lemma SmallPlaces(geo: Geometry, cfg: Config, v: View)
    requires NoHand(v.blocks) && |v.mem| == geo.total
    requires Rep(cfg, v, {}, {})
    ensures var smalls := LiveSizes(v.blocks);
            SmallParts(cfg, smalls, SheetsUsed(cfg, smalls)) && forall g :: g in smalls ==> g + 1 < geo.total
  {
    hide SheetOf, Sound, Calm, Linked, BitsMatch, Marks, Filed, Headers, FlCount, Pow2, Laid, DataOff, Span, SheetsUsed,
         SheetsPlaced;
    var smalls := LiveSizes(v.blocks);
    forall g: nat | g in smalls ensures SmallPart(cfg, smalls, SheetsUsed(cfg, smalls), g) && g + 1 < geo.total {
      LaidParts(cfg, v.sheets, v.blocks);
      BlockBounds(cfg, |v.mem|, v.sheets, v.blocks, g);
      NextSheet(cfg, |v.mem|, v.sheets, v.blocks, g, 1);
      UsedAt(cfg, smalls, g);
    }
    assert Spaced(smalls) by { ShapeOf(cfg, v, {}, {}); }
  }

  lemma UsedAt(cfg: Config, smalls: map<nat, nat>, g: nat)
    requires g in smalls
    ensures SheetOf(cfg, g) in SheetsUsed(cfg, smalls)
  {
    hide SheetOf;
  }

  lemma UsageIs(geo: Geometry, cfg: Config, l: Loans)
    ensures Usage(geo, cfg, l) == 16 * (Sum(LargeWeights(geo, l), geo.total)
                                        + (Sum(l.smalls, geo.total) + (DataOff(cfg) + 1) * |SheetsUsed(cfg, l.smalls)|))
  {
    hide Span, DataOff, Sum, SheetsUsed, LargeWeights;
    Regroup(DataOff(cfg) + 1, |SheetsUsed(cfg, l.smalls)|);
  }

  lemma Regroup(c: nat, n: nat)
    ensures 16 * c * n == 16 * (c * n)
  {
  }

  lemma UsageBound(geo: Geometry, cfg: Config, v: View, tiles: Tiles)
    requires Tiled(geo, tiles) && Hosted(geo, cfg, tiles, v.sheets) && Joined(tiles, v.sheets) && NoHand(v.blocks)
    requires |v.mem| == geo.total
    requires Rep(cfg, v, {}, {})
    ensures 0 <= Usage(geo, cfg, LoansOf(tiles, v.blocks)) <= 16 * geo.total
  {
    hide Rep, SheetOf, Span, DataOff, Sum, Size, LiveSizes, SheetsUsed, UsedParts, SmallParts, WithinSheet, Tiled,
         Hosted, Joined, NoHand, Clearance, Usage, Spaced;
    var smalls, a := LiveSizes(v.blocks), LargeWeights(geo, LoansOf(tiles, v.blocks));
    var used := SheetsUsed(cfg, smalls);
    UsedPlaces(geo, cfg, v);
    SmallPlaces(geo, cfg, v);
    var w := PartsSum(cfg, smalls, used, geo.total);
    PartsApart(geo, cfg, v.sheets, tiles, used, a, w);
    SpacedUnion(a, w, geo.total);
    SpacedBound(a, w, geo.total);
    UsageIs(geo, cfg, LoansOf(tiles, v.blocks));
  }

  lemma SpacedBound(a: map<nat, nat>, w: map<nat, nat>, n: nat)
    requires Spaced(a + w) && (forall g :: g in a ==> g + a[g] <= n) && (forall g :: g in w ==> g + w[g] <= n)
    ensures Sum(a + w, n) <= n
  {
    hide Sum;
    SumBound(a + w, n, n);
  }

  /** Large loans keep clear of what lies in sheets. */
  lemma PartsApart(geo: Geometry, cfg: Config, sheets: set<nat>, tiles: Tiles, used: set<nat>, a: map<nat, nat>,
      w: map<nat, nat>)
    requires Tiled(geo, tiles) && Hosted(geo, cfg, tiles, sheets) && Joined(tiles, sheets) && used <= sheets
    requires forall g :: g in a ==> g in tiles && tiles[g].use.Large? && a[g] == Size(geo, tiles[g].order)
    requires forall g :: g in w ==> w[g] > 0 && WithinSheet(cfg, used, g, w[g])
    ensures Clearance(a, w) && Spaced(a)
    ensures forall g :: g in a ==> g + a[g] <= geo.total
    ensures forall g :: g in w ==> g + w[g] <= geo.total
  {
    hide SheetOf, Span, Size, Aligned, Covered;
    SheetSize(geo, cfg);
    forall g, h | g in a && h in w ensures g + a[g] <= h || h + w[h] <= g {
      assert IsSheet(tiles, SheetOf(cfg, h));
    }
    forall h | h in w ensures h + w[h] <= geo.total {
      assert IsSheet(tiles, SheetOf(cfg, h));
    }
  }

  // ---- steps of the buddy tier under the TLSF tier --------------------------------------------------------------

  /** A block lent or regrown to a caller. */
  lemma GrantKeeps(geo: Geometry, cfg: Config, v: View, t0: Tiles, t1: Tiles, g: nat, o: nat, m': seq<Granule>)
    requires Tiled(geo, t0) && Hosted(geo, cfg, t0, v.sheets) && Joined(t0, v.sheets) && g !in v.sheets
    requires Busy(t1) == Busy(t0)[g := Tile(o, Large)] && BuddyState.Kept(geo, Busy(t0), v.mem, m')
    requires Rep(cfg, v, {}, {})
    ensures Rep(cfg, v.(mem := m'), {}, {})
    ensures Hosted(geo, cfg, t1, v.sheets) && Joined(t1, v.sheets)
    ensures LoansOf(t1, v.blocks) == LendLarge(LoansOf(t0, v.blocks), g, o)
    ensures g in LoansOf(t0, v.blocks).larges ==> g in Busy(t0)
    ensures Intact(geo, LoansOf(t0, v.blocks), v.mem, m')
  {
    hide Rep, Tiled, BuddyState.Kept, Intact, Size;
    KeptFrame(geo, cfg, v, t0, Busy(t0), m');
    KeptIntact(geo, cfg, v, t0, Busy(t0), LoansOf(t0, v.blocks), m');
    BusySame(t0, t1, g, Tile(o, Large));
  }

  /** Away from `g`, the lent tiles are the same. */
  lemma BusySame(t0: Tiles, t1: Tiles, g: nat, tile: Tile)
    requires Busy(t1) == Busy(t0)[g := tile]
    ensures g in t1 && t1[g] == tile
    ensures forall h :: h != g ==> ((h in t1 && !t1[h].use.Free?) <==> (h in t0 && !t0[h].use.Free?))
    ensures forall h :: h != g && h in t0 && !t0[h].use.Free? ==> t1[h] == t0[h]
  {
    assert g in Busy(t1) && Busy(t1)[g] == tile;
    forall h | h != g
      ensures (h in t1 && !t1[h].use.Free?) <==> (h in t0 && !t0[h].use.Free?)
      ensures h in t0 && !t0[h].use.Free? ==> t1[h] == t0[h]
    {
      assert h in Busy(t1) <==> h in Busy(t0);
      assert h in Busy(t0) ==> Busy(t1)[h] == Busy(t0)[h];
    }
  }

  lemma BusyLess(t0: Tiles, t1: Tiles, g: nat)
    requires Busy(t1) == Busy(t0) - {g}
    ensures forall h :: (h in t1 && !t1[h].use.Free?) <==> (h != g && h in t0 && !t0[h].use.Free?)
    ensures forall h :: h != g && h in t0 && !t0[h].use.Free? ==> t1[h] == t0[h]
  {
    forall h
      ensures (h in t1 && !t1[h].use.Free?) <==> (h != g && h in t0 && !t0[h].use.Free?)
      ensures h != g && h in t0 && !t0[h].use.Free? ==> t1[h] == t0[h]
    {
      assert h in Busy(t1) <==> h in Busy(t0) - {g};
      assert h in Busy(t1) ==> Busy(t1)[h] == (Busy(t0) - {g})[h];
    }
  }

  function LendLarge(l: Loans, g: nat, o: nat): Loans { l.(larges := l.larges[g := o]) }

  function ReturnLarge(l: Loans, g: nat): Loans { l.(larges := l.larges - {g}) }

  function LendSmall(l: Loans, g: nat, size: nat): Loans { l.(smalls := l.smalls[g := size]) }

  function ReturnSmall(l: Loans, g: nat): Loans { l.(smalls := l.smalls - {g}) }

  /** A block given back. */
  lemma FreeKeeps(geo: Geometry, cfg: Config, v: View, t0: Tiles, t1: Tiles, g: nat, m': seq<Granule>)
    requires Tiled(geo, t0) && Hosted(geo, cfg, t0, v.sheets) && g !in v.sheets
    requires Busy(t1) == Busy(t0) - {g} && BuddyState.Kept(geo, Busy(t0) - {g}, v.mem, m')
    requires Rep(cfg, v, {}, {})
    ensures Rep(cfg, v.(mem := m'), {}, {})
    ensures Hosted(geo, cfg, t1, v.sheets)
    ensures forall s: nat :: s != g ==> (IsSheet(t1, s) <==> IsSheet(t0, s))
    ensures !IsSheet(t1, g)
    ensures LoansOf(t1, v.blocks) == ReturnLarge(LoansOf(t0, v.blocks), g)
    ensures Intact(geo, ReturnLarge(LoansOf(t0, v.blocks), g), v.mem, m')
  {
    hide Rep, Tiled, BuddyState.Kept, Intact, Size;
    KeptFrame(geo, cfg, v, t0, Busy(t0) - {g}, m');
    KeptIntact(geo, cfg, v, t0, Busy(t0) - {g}, ReturnLarge(LoansOf(t0, v.blocks), g), m');
    BusyLess(t0, t1, g);
  }
}
