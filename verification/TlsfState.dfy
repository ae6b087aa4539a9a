/** How the fields of the TLSF tier represent its sheets and blocks.

    A block is named by the granule of its header.  `Vacant` blocks are on the free lists, `Live`
    blocks are lent, and a block in `Hand` is neither: it is being carved or merged.  `xw` and `xp`
    name the headers whose size word, respectively whose back link, is not yet settled. */
module TlsfState {
  import opened Bits
  import opened Granules
  import opened Links
  import opened Mapping

  datatype BlockUse = Vacant | Live | Hand
  /** Size in granules, header included; `prev` is the block before it, or the sheet. */
  datatype Block = Block(size: nat, use: BlockUse, prev: nat)
  type Blocks = map<nat, Block>

  datatype View = View(mem: seq<Granule>, heads: seq<nat>, slBits: seq<nat>, flBits: nat,
                       lists: seq<seq<nat>>, sheets: set<nat>, blocks: Blocks)

  // ---- sheets and blocks ---------------------------------------------------------------------------

  /** `sheet_of`: the sheet that a granule would belong to. */
  function SheetOf(cfg: Config, g: nat): nat { Keep(g, cfg.sheetLog) }

  /** The granule of the closing sentinel. */
  function EndOf(cfg: Config, s: nat): int { s + Span(cfg) - 1 }

  ghost predicate SheetsPlaced(cfg: Config, total: nat, sheets: set<nat>) {
    && (forall s :: s in sheets ==> Aligned(s, cfg.sheetLog) && s + Span(cfg) <= total)
    && (forall s, t :: s in sheets && t in sheets && s < t ==> s + Span(cfg) <= t)
  }

  /** Every block lies between the sentinels of a sheet. */
  ghost predicate Inside(cfg: Config, sheets: set<nat>, blk: Blocks) {
    forall g :: g in blk ==>
      blk[g].size >= 2 && SheetOf(cfg, g) in sheets
      && SheetOf(cfg, g) + DataOff(cfg) <= g && g + blk[g].size <= EndOf(cfg, SheetOf(cfg, g))
  }

  ghost predicate Apart(blk: Blocks) {
    forall g, h :: g in blk && h in blk && g < h ==> g + blk[g].size <= h
  }

  /** A block is followed by a block, or by the closing sentinel. */
  predicate Follows(cfg: Config, blk: Blocks, g: nat)
    requires g in blk
  {
    g + blk[g].size in blk || g + blk[g].size == EndOf(cfg, SheetOf(cfg, g))
  }

  /** A sheet begins with a block. */
  predicate Starts(cfg: Config, blk: Blocks, s: nat) { s + DataOff(cfg) in blk }

  /** Every sheet is tiled from its first data granule to its closing sentinel. */
  ghost predicate Chained(cfg: Config, sheets: set<nat>, blk: Blocks) {
    && (forall s: nat {:trigger Starts(cfg, blk, s)} :: s in sheets ==> Starts(cfg, blk, s))
    && (forall g: nat {:trigger Follows(cfg, blk, g)} :: g in blk ==> Follows(cfg, blk, g))
  }

  predicate BackedAt(cfg: Config, blk: Blocks, g: nat)
    requires g in blk
  {
    if g == SheetOf(cfg, g) + DataOff(cfg) then blk[g].prev == SheetOf(cfg, g)
    else blk[g].prev in blk && blk[g].prev + blk[blk[g].prev].size == g
  }

  /** `prev` inverts the chain of sizes. */
  ghost predicate Backed(cfg: Config, blk: Blocks) {
    forall g: nat {:trigger BackedAt(cfg, blk, g)} :: g in blk ==> BackedAt(cfg, blk, g)
  }

  ghost predicate Laid(cfg: Config, sheets: set<nat>, blk: Blocks) {
    Inside(cfg, sheets, blk) && Apart(blk) && Chained(cfg, sheets, blk) && Backed(cfg, blk)
  }

  predicate IsVacant(blk: Blocks, g: nat) { g in blk && blk[g].use.Vacant? }

  /** No two adjacent free blocks. */
  ghost predicate Calm(blk: Blocks) {
    forall g: nat :: IsVacant(blk, g) ==> !IsVacant(blk, g + blk[g].size)
  }

  // ---- representation ----------------------------------------------------------------------------------

  /** The size word: size in bytes, plus the allocation flag. */
  function SizeWord(b: Block): nat { 16 * b.size + if b.use.Live? then 1 else 0 }

  ghost predicate SizeWords(mem: seq<Granule>, blk: Blocks, xw: set<nat>) {
    forall g :: g in blk && g < |mem| && g !in xw ==> mem[g].w0 == SizeWord(blk[g])
  }

  ghost predicate BackWords(mem: seq<Granule>, blk: Blocks, xp: set<nat>) {
    forall g :: g in blk && g < |mem| && g !in xp ==> mem[g].w1 == blk[g].prev
  }

  /** The closing sentinel's back link. */
  ghost predicate EndWords(cfg: Config, mem: seq<Granule>, blk: Blocks, xp: set<nat>) {
    forall g :: g in blk && EndsSheet(cfg, blk, g) && g + blk[g].size < |mem| && g + blk[g].size !in xp ==>
      mem[g + blk[g].size].w1 == g
  }

  ghost predicate SentinelWords(cfg: Config, mem: seq<Granule>, sheets: set<nat>) {
    && (forall s :: s in sheets && s < |mem| ==> mem[s].w0 == 16 * DataOff(cfg) + 3)
    && (forall s :: s in sheets && 0 <= EndOf(cfg, s) < |mem| ==> mem[EndOf(cfg, s)].w0 == 16 + 3)
  }

  ghost predicate Headers(cfg: Config, mem: seq<Granule>, sheets: set<nat>, blk: Blocks, xw: set<nat>, xp: set<nat>) {
    SizeWords(mem, blk, xw) && BackWords(mem, blk, xp) && EndWords(cfg, mem, blk, xp) && SentinelWords(cfg, mem, sheets)
  }

  predicate EndsSheet(cfg: Config, blk: Blocks, g: nat)
    requires g in blk
  {
    g + blk[g].size == EndOf(cfg, SheetOf(cfg, g))
  }

  /** The bitmap bit of payload granule `p`. */
  predicate Marked(cfg: Config, mem: seq<Granule>, p: nat) {
    var s := SheetOf(cfg, p);
    p >= s && s + 1 + (p - s) / 128 < |mem| && GranuleBit(mem[s + 1 + (p - s) / 128], (p - s) % 128)
  }

  predicate IsLive(blk: Blocks, g: int) { g >= 0 && g in blk && blk[g].use.Live? }

  /** A bit is set exactly for the first payload granule of a live block. */
  ghost predicate Marks(cfg: Config, mem: seq<Granule>, sheets: set<nat>, blk: Blocks) {
    forall p: nat :: SheetOf(cfg, p) in sheets ==> (Marked(cfg, mem, p) <==> IsLive(blk, p - 1))
  }

  predicate VacantIn(slLog: nat, blk: Blocks, g: nat, i: nat)
    requires slLog <= 5
  {
    IsVacant(blk, g) && blk[g].size >= 2 && Index(slLog, 16 * blk[g].size) == i
  }

  /** List `i` holds exactly the vacant blocks of class `i`. */
  ghost predicate Filed(slLog: nat, blk: Blocks, lists: seq<seq<nat>>)
    requires slLog <= 5
  {
    forall i: nat, g: nat :: InList(lists, i, g) <==> VacantIn(slLog, blk, g, i)
  }

  /** Both bitmap levels say which lists are non-empty. */
  ghost predicate BitsMatch(k: nat, slBits: seq<nat>, flBits: nat, lists: seq<seq<nat>>) {
    && |lists| == |slBits| * k
    && (forall fl: nat, sl: nat ::
          fl < |slBits| ==> (Bit(slBits[fl], sl) <==> sl < k && NonEmpty(lists, At(k, fl, sl))))
    && (forall fl: nat :: Bit(flBits, fl) <==> fl < |slBits| && slBits[fl] != 0)
  }

  ghost predicate Rep(cfg: Config, v: View, xw: set<nat>, xp: set<nat>) {
    && Sound(cfg)
    && |v.mem| < NULL && |v.slBits| == FlCount(cfg)
    && SheetsPlaced(cfg, |v.mem|, v.sheets)
    && Laid(cfg, v.sheets, v.blocks)
    && Calm(v.blocks)
    && Headers(cfg, v.mem, v.sheets, v.blocks, xw, xp)
    && Marks(cfg, v.mem, v.sheets, v.blocks)
    && Filed(cfg.slLog, v.blocks, v.lists)
    && Linked(TlsfLinks, v.mem, v.heads, v.lists)
    && BitsMatch(Pow2(cfg.slLog), v.slBits, v.flBits, v.lists)
  }

  /** Granules that hold the tier's own data: headers, sentinels and bitmaps. */
  predicate Touch(cfg: Config, sheets: set<nat>, blk: Blocks, x: nat) {
    SheetOf(cfg, x) in sheets
    && (x in blk || x < SheetOf(cfg, x) + DataOff(cfg) || x == EndOf(cfg, SheetOf(cfg, x)))
  }

  /** Only the tier's own data changed. */
  ghost predicate OnlyOwn(cfg: Config, sheets: set<nat>, blk: Blocks, m: seq<Granule>, m': seq<Granule>) {
    |m'| == |m| && forall x: nat :: x < |m| && !Touch(cfg, sheets, blk, x) ==> m'[x] == m[x]
  }

  /** Memory outside the sheets and the payloads of the blocks of `kept` are the same. */
  ghost predicate Spared(cfg: Config, sheets: set<nat>, kept: Blocks, m: seq<Granule>, m': seq<Granule>) {
    && |m'| == |m|
    && (forall x: nat :: x < |m| && SheetOf(cfg, x) !in sheets ==> m'[x] == m[x])
    && (forall g: nat, x: nat :: PayloadOf(kept, g, x) && x < |m| ==> m'[x] == m[x])
  }

  predicate PayloadOf(blk: Blocks, g: nat, x: nat) { g in blk && g < x < g + blk[g].size }

  /** `kept` names live blocks of `blk`, perhaps cut short. */
  ghost predicate PartOf(kept: Blocks, blk: Blocks) {
    forall g :: g in kept ==> g in blk && blk[g].use.Live? && kept[g].size <= blk[g].size
  }

  lemma SpareOwn(cfg: Config, sheets: set<nat>, blk: Blocks, kept: Blocks, m: seq<Granule>, m': seq<Granule>)
    requires Inside(cfg, sheets, blk) && Apart(blk) && PartOf(kept, blk) && OnlyOwn(cfg, sheets, blk, m, m')
    requires SheetsPlaced(cfg, |m|, sheets)
    ensures Spared(cfg, sheets, kept, m, m')
  {
    hide SheetOf, Span, DataOff, Aligned;
    forall g: nat, x: nat | PayloadOf(kept, g, x) && x < |m| ensures m'[x] == m[x] {
      SheetOfIs(cfg, SheetOf(cfg, g), x);
    }
  }

  lemma SpareTrans(cfg: Config, sheets: set<nat>, kept: Blocks, m0: seq<Granule>, m1: seq<Granule>, m2: seq<Granule>)
    requires Spared(cfg, sheets, kept, m0, m1) && Spared(cfg, sheets, kept, m1, m2)
    ensures Spared(cfg, sheets, kept, m0, m2)
  {
    hide SheetOf;
  }

  lemma SheetOfIs(cfg: Config, s: nat, g: nat)
    requires Aligned(s, cfg.sheetLog) && s <= g < s + Span(cfg)
    ensures SheetOf(cfg, g) == s
  {
    hide Keep, Pow2, Aligned;
    KeepUnique(g, s, cfg.sheetLog);
  }

  lemma SheetOfBounds(cfg: Config, g: nat)
    ensures Aligned(SheetOf(cfg, g), cfg.sheetLog) && SheetOf(cfg, g) <= g < SheetOf(cfg, g) + Span(cfg)
  {
    hide Keep, Pow2, Aligned;
    KeepFloor(g, cfg.sheetLog);
  }

  /** The granule after a block belongs to the same sheet. */
  lemma NextSheet(cfg: Config, total: nat, sheets: set<nat>, blk: Blocks, g: nat, d: nat)
    requires SheetsPlaced(cfg, total, sheets) && Inside(cfg, sheets, blk) && g in blk && d <= blk[g].size
    ensures SheetOf(cfg, g + d) == SheetOf(cfg, g) && SheetOf(cfg, g) in sheets
  {
    hide SheetOf, Span, DataOff, Aligned;
    SheetOfIs(cfg, SheetOf(cfg, g), g + d) by { assert EndOf(cfg, SheetOf(cfg, g)) < SheetOf(cfg, g) + Span(cfg); }
  }

  // ---- splitting and merging ------------------------------------------------------------------------------

  function Relink(blk: Blocks, n: nat, p: nat): Blocks {
    if n in blk then blk[n := blk[n].(prev := p)] else blk
  }

  /** Block `a` keeps `take` granules; the rest becomes a block in hand. */
  function SplitBlocks(blk: Blocks, a: nat, take: nat): Blocks
    requires a in blk && take <= blk[a].size
  {
    var b := blk[a];
    Relink(blk, a + b.size, a + take)[a := b.(size := take)][a + take := Block(b.size - take, Hand, a)]
  }

  /** Block `a` swallows the block after it. */
  function MergeBlocks(blk: Blocks, a: nat): Blocks
    requires a in blk && a + blk[a].size in blk
  {
    var n := a + blk[a].size;
    (Relink(blk, n + blk[n].size, a) - {n})[a := blk[a].(size := blk[a].size + blk[n].size)]
  }

  lemma SplitLaid(cfg: Config, total: nat, sheets: set<nat>, blk: Blocks, a: nat, take: nat)
    requires SheetsPlaced(cfg, total, sheets) && Laid(cfg, sheets, blk)
    requires a in blk && 2 <= take && take + 2 <= blk[a].size
    ensures Laid(cfg, sheets, SplitBlocks(blk, a, take)) && a + take !in blk
  {
    hide SheetOf, Span, DataOff, EndOf, Aligned, Follows, BackedAt, Inside, Apart, SheetsPlaced, SplitBlocks, Starts;
    NextSheet(cfg, total, sheets, blk, a, take);
    SplitInside(cfg, sheets, blk, a, take);
    SplitApart(blk, a, take);
    var t := SplitBlocks(blk, a, take);
    forall s: nat | s in sheets ensures Starts(cfg, t, s) {
      SplitStarts(cfg, blk, a, take, s);
    }
    forall g: nat | g in t ensures Follows(cfg, t, g) && BackedAt(cfg, t, g) {
      SplitFollows(cfg, total, sheets, blk, a, take, g);
      SplitBacked(cfg, total, sheets, blk, a, take, g);
    }
  }

  lemma SplitStarts(cfg: Config, blk: Blocks, a: nat, take: nat, s: nat)
    requires a in blk && take <= blk[a].size && Starts(cfg, blk, s)
    ensures Starts(cfg, SplitBlocks(blk, a, take), s)
  {
    hide DataOff;
  }

  lemma SplitInside(cfg: Config, sheets: set<nat>, blk: Blocks, a: nat, take: nat)
    requires Inside(cfg, sheets, blk) && Apart(blk) && SheetOf(cfg, a + take) == SheetOf(cfg, a)
    requires a in blk && 2 <= take && take + 2 <= blk[a].size
    ensures Inside(cfg, sheets, SplitBlocks(blk, a, take))
  {
    hide SheetOf, Span, DataOff, EndOf;
  }

  lemma SplitApart(blk: Blocks, a: nat, take: nat)
    requires Apart(blk) && a in blk && 2 <= take && take + 2 <= blk[a].size
    ensures Apart(SplitBlocks(blk, a, take)) && a + take !in blk
  {
  }

  lemma SplitFollows(cfg: Config, total: nat, sheets: set<nat>, blk: Blocks, a: nat, take: nat, g: nat)
    requires SheetsPlaced(cfg, total, sheets) && Laid(cfg, sheets, blk)
    requires a in blk && 2 <= take && take + 2 <= blk[a].size && g in SplitBlocks(blk, a, take)
    ensures Follows(cfg, SplitBlocks(blk, a, take), g)
  {
    hide SheetOf, Span, DataOff, EndOf, Aligned, SheetsPlaced, Apart, Backed;
    NextSheet(cfg, total, sheets, blk, a, take);
    assert Follows(cfg, blk, if g == a + take then a else g);
  }

  lemma SplitBacked(cfg: Config, total: nat, sheets: set<nat>, blk: Blocks, a: nat, take: nat, g: nat)
    requires SheetsPlaced(cfg, total, sheets) && Laid(cfg, sheets, blk)
    requires a in blk && 2 <= take && take + 2 <= blk[a].size && g in SplitBlocks(blk, a, take)
    ensures BackedAt(cfg, SplitBlocks(blk, a, take), g)
  {
    hide SheetOf, Span, DataOff, EndOf, Aligned, SheetsPlaced, Chained;
    var r, n := a + take, a + blk[a].size;
    DataBefore(cfg, total, sheets, blk, a, take);
    if g == n {
      DataBefore(cfg, total, sheets, blk, a, blk[a].size);
    } else if g != r {
      assert BackedAt(cfg, blk, g);
      SameEnd(blk, a, blk[g].prev, g);
    }
  }

  /** No position past the start of a block is the first data granule. */
  lemma DataBefore(cfg: Config, total: nat, sheets: set<nat>, blk: Blocks, a: nat, d: nat)
    requires SheetsPlaced(cfg, total, sheets) && Inside(cfg, sheets, blk) && a in blk && 0 < d <= blk[a].size
    ensures a + d != SheetOf(cfg, a + d) + DataOff(cfg)
  {
    hide Span, DataOff, EndOf, Aligned;
    NextSheet(cfg, total, sheets, blk, a, d);
  }

  /** Two blocks that end at the same place are the same. */
  lemma SameEnd(blk: Blocks, a: nat, p: nat, n: nat)
    requires Apart(blk) && forall g :: g in blk ==> blk[g].size >= 2
    ensures a in blk && p in blk && a + blk[a].size == n && p + blk[p].size == n ==> a == p
  {
  }

  lemma MergeLaid(cfg: Config, total: nat, sheets: set<nat>, blk: Blocks, a: nat)
    requires SheetsPlaced(cfg, total, sheets) && Laid(cfg, sheets, blk)
    requires a in blk && a + blk[a].size in blk
    ensures Laid(cfg, sheets, MergeBlocks(blk, a))
  {
    hide SheetOf, Span, DataOff, EndOf, Aligned, Follows, BackedAt, Inside, Apart, SheetsPlaced, MergeBlocks, Starts;
    var t := MergeBlocks(blk, a);
    NextSheet(cfg, total, sheets, blk, a, blk[a].size);
    MergeInside(cfg, sheets, blk, a);
    MergeApart(blk, a);
    forall s: nat | s in sheets ensures Starts(cfg, t, s) {
      DataFirst(cfg, total, sheets, blk, s, a);
      MergeStarts(cfg, blk, a, s);
    }
    forall g: nat | g in t ensures Follows(cfg, t, g) && BackedAt(cfg, t, g) {
      MergeFollows(cfg, total, sheets, blk, a, g);
      MergeBacked(cfg, total, sheets, blk, a, g);
    }
  }

  lemma DataFirst(cfg: Config, total: nat, sheets: set<nat>, blk: Blocks, s: nat, a: nat)
    requires SheetsPlaced(cfg, total, sheets) && Inside(cfg, sheets, blk) && Chained(cfg, sheets, blk)
    requires s in sheets && a in blk
    ensures s + DataOff(cfg) in blk && s + DataOff(cfg) != a + blk[a].size
  {
    hide Span, EndOf, SheetOf, Aligned, DataOff;
    SheetOfData(cfg, total, sheets, blk, s);
    DataBefore(cfg, total, sheets, blk, a, blk[a].size);
  }

  lemma SheetOfData(cfg: Config, total: nat, sheets: set<nat>, blk: Blocks, s: nat)
    requires SheetsPlaced(cfg, total, sheets) && Inside(cfg, sheets, blk) && Chained(cfg, sheets, blk) && s in sheets
    ensures s + DataOff(cfg) in blk && SheetOf(cfg, s + DataOff(cfg)) == s
  {
    hide Aligned, SheetOf, DataOff, Span;
    assert Starts(cfg, blk, s);
    SheetOfBounds(cfg, s + DataOff(cfg));
  }

  lemma MergeStarts(cfg: Config, blk: Blocks, a: nat, s: nat)
    requires a in blk && a + blk[a].size in blk && s + DataOff(cfg) in blk && s + DataOff(cfg) != a + blk[a].size
    ensures Starts(cfg, MergeBlocks(blk, a), s)
  {
    hide DataOff;
  }

  lemma MergeInside(cfg: Config, sheets: set<nat>, blk: Blocks, a: nat)
    requires Inside(cfg, sheets, blk) && Apart(blk)
    requires a in blk && a + blk[a].size in blk && SheetOf(cfg, a + blk[a].size) == SheetOf(cfg, a)
    ensures Inside(cfg, sheets, MergeBlocks(blk, a))
  {
    hide SheetOf, Span, DataOff, EndOf;
  }

  lemma MergeApart(blk: Blocks, a: nat)
    requires Apart(blk) && a in blk && a + blk[a].size in blk
    ensures Apart(MergeBlocks(blk, a))
  {
  }

  lemma MergeFollows(cfg: Config, total: nat, sheets: set<nat>, blk: Blocks, a: nat, g: nat)
    requires SheetsPlaced(cfg, total, sheets) && Laid(cfg, sheets, blk)
    requires a in blk && a + blk[a].size in blk && g in MergeBlocks(blk, a)
    ensures Follows(cfg, MergeBlocks(blk, a), g)
  {
    hide SheetOf, Span, DataOff, EndOf, Aligned, SheetsPlaced, Backed;
    var n := a + blk[a].size;
    NextSheet(cfg, total, sheets, blk, a, blk[a].size);
    assert Follows(cfg, blk, if g == a then n else g);
    SameEnd(blk, a, g, n);
  }

  lemma MergeBacked(cfg: Config, total: nat, sheets: set<nat>, blk: Blocks, a: nat, g: nat)
    requires SheetsPlaced(cfg, total, sheets) && Laid(cfg, sheets, blk)
    requires a in blk && a + blk[a].size in blk && g in MergeBlocks(blk, a)
    ensures BackedAt(cfg, MergeBlocks(blk, a), g)
  {
    hide SheetOf, Span, DataOff, EndOf, Aligned, SheetsPlaced, Chained;
    var n := a + blk[a].size;
    if g == n + blk[n].size {
      DataBefore(cfg, total, sheets, blk, n, blk[n].size);
    } else {
      assert BackedAt(cfg, blk, g);
      SameEnd(blk, n, blk[g].prev, g);
    }
  }

  // ---- steps ------------------------------------------------------------------------------------------

  /** Blocks whose vacancy, sizes when vacant, and liveness agree. */
  ghost predicate SameFiling(blk: Blocks, blk': Blocks) {
    && (forall g: nat :: IsVacant(blk', g) <==> IsVacant(blk, g))
    && (forall g: nat :: IsVacant(blk, g) ==> blk'[g].size == blk[g].size)
    && (forall g: int :: IsLive(blk', g) <==> IsLive(blk, g))
  }

  /** A change of the tiling that moves no block between free, live and in hand. */
  lemma ReshapeStep(cfg: Config, v: View, xw: set<nat>, xp: set<nat>, blk: Blocks, xw': set<nat>, xp': set<nat>)
    requires Rep(cfg, v, xw, xp) && Laid(cfg, v.sheets, blk) && SameFiling(v.blocks, blk)
    requires Headers(cfg, v.mem, v.sheets, blk, xw', xp')
    ensures Rep(cfg, v.(blocks := blk), xw', xp')
  {
    hide SheetsPlaced, Laid, Headers, Linked, BitsMatch, Calm, Filed, Marks, FlCount, DataSpan, TableMax, Pow2;
    CalmSame(v.blocks, blk);
    FiledSame(cfg.slLog, v.blocks, blk, v.lists);
    MarksSame(cfg, v.mem, v.sheets, v.blocks, blk);
  }

  lemma CalmSame(blk: Blocks, blk': Blocks)
    requires Calm(blk) && SameFiling(blk, blk')
    ensures Calm(blk')
  {
  }

  lemma FiledSame(slLog: nat, blk: Blocks, blk': Blocks, lists: seq<seq<nat>>)
    requires slLog <= 5 && Filed(slLog, blk, lists) && SameFiling(blk, blk')
    ensures Filed(slLog, blk', lists)
  {
    hide Index;
    forall i: nat, g: nat ensures InList(lists, i, g) <==> VacantIn(slLog, blk', g, i) {
      assert InList(lists, i, g) <==> VacantIn(slLog, blk, g, i);
      assert IsVacant(blk', g) <==> IsVacant(blk, g);
    }
  }

  lemma MarksSame(cfg: Config, mem: seq<Granule>, sheets: set<nat>, blk: Blocks, blk': Blocks)
    requires Marks(cfg, mem, sheets, blk) && SameFiling(blk, blk')
    ensures Marks(cfg, mem, sheets, blk')
  {
    hide Marked, SheetOf, IsLive;
  }

  lemma SplitStep(cfg: Config, v: View, xw: set<nat>, xp: set<nat>, a: nat, take: nat)
    requires Rep(cfg, v, xw, xp) && a in v.blocks && !v.blocks[a].use.Vacant? && 2 <= take
             && take + 2 <= v.blocks[a].size
    ensures var n := a + v.blocks[a].size;
            Rep(cfg, v.(blocks := SplitBlocks(v.blocks, a, take)), xw + {a, a + take}, xp + {a + take, n})
    ensures a + take !in v.blocks && a + v.blocks[a].size < |v.mem|
  {
    hide Sound, SheetsPlaced, Laid, Calm, Headers, Linked, BitsMatch, Marks, Filed, FlCount, Pow2;
    SplitLaid(cfg, |v.mem|, v.sheets, v.blocks, a, take);
    SplitFiling(v.blocks, a, take);
    SplitHeaders(cfg, v.mem, v.sheets, v.blocks, xw, xp, a, take);
    ReshapeStep(cfg, v, xw, xp, SplitBlocks(v.blocks, a, take), xw + {a, a + take},
        xp + {a + take, a + v.blocks[a].size});
    BlockBounds(cfg, |v.mem|, v.sheets, v.blocks, a);
  }

  lemma SplitFiling(blk: Blocks, a: nat, take: nat)
    requires a in blk && !blk[a].use.Vacant? && take <= blk[a].size && a + take !in blk
    ensures SameFiling(blk, SplitBlocks(blk, a, take))
  {
  }

  lemma SplitHeaders(cfg: Config, mem: seq<Granule>, sheets: set<nat>, blk: Blocks, xw: set<nat>, xp: set<nat>,
                     a: nat, take: nat)
    requires Headers(cfg, mem, sheets, blk, xw, xp) && SheetsPlaced(cfg, |mem|, sheets) && Laid(cfg, sheets, blk)
    requires a in blk && 2 <= take && take + 2 <= blk[a].size
    ensures Headers(cfg, mem, sheets, SplitBlocks(blk, a, take), xw + {a, a + take}, xp + {a + take, a + blk[a].size})
  {
    hide SheetOf, Span, DataOff, Chained, Backed, SheetsPlaced, Apart, Inside, SizeWords, BackWords, EndWords;
    NextSheet(cfg, |mem|, sheets, blk, a, take);
    SplitApart(blk, a, take);
    BlockBounds(cfg, |mem|, sheets, blk, a);
    SplitWords(mem, blk, xw, xp, a, take);
    SplitEnds(cfg, mem, blk, xp, a, take);
  }

  lemma SplitWords(mem: seq<Granule>, blk: Blocks, xw: set<nat>, xp: set<nat>, a: nat, take: nat)
    requires SizeWords(mem, blk, xw) && BackWords(mem, blk, xp) && a in blk && take <= blk[a].size
    ensures SizeWords(mem, SplitBlocks(blk, a, take), xw + {a, a + take})
    ensures BackWords(mem, SplitBlocks(blk, a, take), xp + {a + take, a + blk[a].size})
  {
  }

  lemma SplitEnds(cfg: Config, mem: seq<Granule>, blk: Blocks, xp: set<nat>, a: nat, take: nat)
    requires EndWords(cfg, mem, blk, xp) && a in blk && take <= blk[a].size && SheetOf(cfg, a + take) == SheetOf(cfg, a)
    requires a + take !in blk && a + take + 2 <= EndOf(cfg, SheetOf(cfg, a))
    ensures EndWords(cfg, mem, SplitBlocks(blk, a, take), xp + {a + take, a + blk[a].size})
  {
    hide SheetOf, EndOf;
  }

  lemma MergeStep(cfg: Config, v: View, xw: set<nat>, xp: set<nat>, a: nat, b: nat, n: nat)
    requires Rep(cfg, v, xw, xp) && a in v.blocks && b in v.blocks
    requires b == a + v.blocks[a].size && n == b + v.blocks[b].size
    requires !v.blocks[a].use.Vacant? && v.blocks[b].use.Hand?
    ensures Rep(cfg, v.(blocks := MergeBlocks(v.blocks, a)), xw + {a}, xp + {n}) && n < |v.mem|
  {
    hide Sound, SheetsPlaced, Laid, Calm, Headers, Linked, BitsMatch, Marks, Filed, FlCount, Pow2, MergeBlocks,
         SameFiling;
    MergeLaid(cfg, |v.mem|, v.sheets, v.blocks, a);
    MergeHeaders(cfg, v.mem, v.sheets, v.blocks, xw, xp, a, n);
    BlockBounds(cfg, |v.mem|, v.sheets, v.blocks, b);
    BlockBounds(cfg, |v.mem|, v.sheets, v.blocks, a);
    MergeFiling(v.blocks, a);
    ReshapeStep(cfg, v, xw, xp, MergeBlocks(v.blocks, a), xw + {a}, xp + {n});
  }

  lemma MergeFiling(blk: Blocks, a: nat)
    requires a in blk && !blk[a].use.Vacant? && blk[a].size >= 2
    requires a + blk[a].size in blk && blk[a + blk[a].size].use.Hand?
    ensures SameFiling(blk, MergeBlocks(blk, a))
  {
  }

  lemma MergeHeaders(cfg: Config, mem: seq<Granule>, sheets: set<nat>, blk: Blocks, xw: set<nat>, xp: set<nat>,
                     a: nat, n: nat)
    requires Headers(cfg, mem, sheets, blk, xw, xp) && SheetsPlaced(cfg, |mem|, sheets) && Laid(cfg, sheets, blk)
    requires a in blk && a + blk[a].size in blk && n == a + blk[a].size + blk[a + blk[a].size].size
    ensures Headers(cfg, mem, sheets, MergeBlocks(blk, a), xw + {a}, xp + {n})
  {
    hide SheetOf, Span, DataOff, Chained, Backed, SheetsPlaced, Apart, Inside, SizeWords, BackWords, EndWords;
    NextSheet(cfg, |mem|, sheets, blk, a, blk[a].size);
    MergeWords(mem, blk, xw, xp, a, n);
    MergeEnds(cfg, mem, blk, xp, a, n);
  }

  lemma MergeWords(mem: seq<Granule>, blk: Blocks, xw: set<nat>, xp: set<nat>, a: nat, n: nat)
    requires SizeWords(mem, blk, xw) && BackWords(mem, blk, xp)
    requires a in blk && a + blk[a].size in blk && n == a + blk[a].size + blk[a + blk[a].size].size
    ensures SizeWords(mem, MergeBlocks(blk, a), xw + {a}) && BackWords(mem, MergeBlocks(blk, a), xp + {n})
  {
  }

  lemma MergeEnds(cfg: Config, mem: seq<Granule>, blk: Blocks, xp: set<nat>, a: nat, n: nat)
    requires EndWords(cfg, mem, blk, xp)
    requires a in blk && a + blk[a].size in blk && n == a + blk[a].size + blk[a + blk[a].size].size
    ensures EndWords(cfg, mem, MergeBlocks(blk, a), xp + {n})
  {
    hide SheetOf, EndOf;
  }

  lemma BlockBounds(cfg: Config, total: nat, sheets: set<nat>, blk: Blocks, g: nat)
    requires SheetsPlaced(cfg, total, sheets) && Laid(cfg, sheets, blk) && g in blk
    ensures blk[g].size >= 2 && g + blk[g].size < total && blk[g].prev < g && SheetOf(cfg, g) in sheets
    ensures SheetOf(cfg, g) + DataOff(cfg) <= g && g + blk[g].size <= EndOf(cfg, SheetOf(cfg, g))
  {
    hide SheetOf, Span, Aligned, DataOff, Apart;
    assert BackedAt(cfg, blk, g);
    DataOffPositive(cfg);
  }

  lemma DataOffPositive(cfg: Config)
    ensures DataOff(cfg) >= 1
  {
  }

  /** Settling headers whose words already agree with the blocks; `yw` and `yp` stay unsettled. */
  lemma SettleStep(cfg: Config, v: View, xw: set<nat>, xp: set<nat>, yw: set<nat>, yp: set<nat>)
    requires forall g :: g in xw - yw && g in v.blocks && g < |v.mem| ==> v.mem[g].w0 == SizeWord(v.blocks[g])
    requires forall g :: g in xp - yp && g in v.blocks && g < |v.mem| ==> v.mem[g].w1 == v.blocks[g].prev
    requires forall g :: g in v.blocks && EndsSheet(cfg, v.blocks, g) && g + v.blocks[g].size in xp - yp ==>
               (g + v.blocks[g].size < |v.mem| ==> v.mem[g + v.blocks[g].size].w1 == g)
    requires Rep(cfg, v, xw, xp)
    ensures Rep(cfg, v, yw, yp)
  {
    hide Sound, SheetsPlaced, Laid, Calm, Linked, BitsMatch, Marks, Filed, FlCount, Pow2, DataOff, EndOf, SheetOf;
  }

  /** A position strictly inside a block is no header: nothing there is unsettled. */
  lemma DropInside(cfg: Config, v: View, xw: set<nat>, xp: set<nat>, off: nat, n: nat)
    requires off in v.blocks && off < n < off + v.blocks[off].size
    requires Rep(cfg, v, xw, xp)
    ensures Rep(cfg, v, xw, xp - {n})
  {
    hide Rep, SheetOf, EndOf, SizeWord;
    ShapeOf(cfg, v, xw, xp);
    SettleStep(cfg, v, xw, xp, xw, xp - {n});
  }

  // ---- writing headers ------------------------------------------------------------------------------------

  /** A block header or a closing sentinel. */
  predicate IsHeader(cfg: Config, blk: Blocks, sheets: set<nat>, x: nat) {
    SheetOf(cfg, x) in sheets && (x in blk || x == EndOf(cfg, SheetOf(cfg, x)))
  }

  /** Writing the size word of a block or the back link of a header; it is then unsettled. */
  lemma WriteStep(cfg: Config, v: View, xw: set<nat>, xp: set<nat>, x: nat, mem: seq<Granule>)
    requires Rep(cfg, v, xw, xp) && |mem| == |v.mem| && x < |mem|
    requires IsHeader(cfg, v.blocks, v.sheets, x)
    requires forall y :: 0 <= y < |mem| && y != x ==> mem[y] == v.mem[y]
    requires mem[x].w2 == v.mem[x].w2 && mem[x].w3 == v.mem[x].w3
    requires mem[x].w0 == v.mem[x].w0 || x in v.blocks
    ensures Rep(cfg, v.(mem := mem), xw + {x}, xp + {x})
    ensures OnlyOwn(cfg, v.sheets, v.blocks, v.mem, mem)
  {
    hide Laid, Headers, Linked, BitsMatch, Calm, Filed, Marks, FlCount, TableMax, Pow2, SheetOf;
    LinkedFrame(TlsfLinks, v.mem, mem, v.heads, v.lists);
    WriteHeaders(cfg, v, xw, xp, x, mem);
    MarksKeep(cfg, v.mem, mem, v.sheets, v.blocks) by {
      NotBitmap(cfg, v, x);
    }
  }

  lemma WriteHeaders(cfg: Config, v: View, xw: set<nat>, xp: set<nat>, x: nat, mem: seq<Granule>)
    requires Headers(cfg, v.mem, v.sheets, v.blocks, xw, xp) && Laid(cfg, v.sheets, v.blocks)
    requires SheetsPlaced(cfg, |mem|, v.sheets) && Sound(cfg)
    requires |mem| == |v.mem| && x < |mem| && IsHeader(cfg, v.blocks, v.sheets, x)
    requires forall y :: 0 <= y < |mem| && y != x ==> mem[y] == v.mem[y]
    requires mem[x].w0 == v.mem[x].w0 || x in v.blocks
    ensures Headers(cfg, mem, v.sheets, v.blocks, xw + {x}, xp + {x})
  {
    hide Chained, Backed, Apart, SizeWord, Sound, Aligned, SheetOf, Span, DataOff, EndOf;
    forall s | s in v.sheets ensures s !in v.blocks && EndOf(cfg, s) >= 0 && (EndOf(cfg, s) as nat) !in v.blocks {
      SentinelsApart(cfg, |mem|, v.sheets, v.blocks, s);
    }
    forall s | s in v.sheets ensures s != x {
      SentinelsDistinct(cfg, |mem|, v.sheets, v.blocks, s, x);
    }
  }

  lemma SentinelsApart(cfg: Config, total: nat, sheets: set<nat>, blk: Blocks, s: nat)
    requires SheetsPlaced(cfg, total, sheets) && Inside(cfg, sheets, blk) && s in sheets && Sound(cfg)
    ensures s !in blk && EndOf(cfg, s) >= 0 && (EndOf(cfg, s) as nat) !in blk && EndOf(cfg, s) > s
    ensures SheetOf(cfg, s) == s && SheetOf(cfg, EndOf(cfg, s)) == s
  {
    hide FlCount, Pow2, TableMax, Aligned, SheetOf;
    SheetOfIs(cfg, s, s);
    SheetOfIs(cfg, s, EndOf(cfg, s));
  }

  lemma SentinelsDistinct(cfg: Config, total: nat, sheets: set<nat>, blk: Blocks, s: nat, x: nat)
    requires SheetsPlaced(cfg, total, sheets) && Inside(cfg, sheets, blk) && s in sheets && Sound(cfg)
    requires IsHeader(cfg, blk, sheets, x)
    ensures s != x
  {
    hide FlCount, Pow2, TableMax, DataSpan, Aligned, SheetOf, Span;
    SentinelsApart(cfg, total, sheets, blk, s);
  }

  /** The bitmap granule of payload granule `p`. */
  function BitmapCell(cfg: Config, p: nat): int {
    SheetOf(cfg, p) + 1 + (p - SheetOf(cfg, p)) / 128
  }

  lemma BitmapCellPlace(cfg: Config, total: nat, sheets: set<nat>, p: nat)
    requires Sound(cfg) && SheetsPlaced(cfg, total, sheets) && SheetOf(cfg, p) in sheets
    ensures var s, c := SheetOf(cfg, p), BitmapCell(cfg, p);
            s < c < s + DataOff(cfg) && c < total && SheetOf(cfg, c) == s
  {
    hide FlCount, TableMax, Aligned, SheetOf, Pow2;
    SheetOfBounds(cfg, p);
    SpanEighths(cfg);
    SheetOfIs(cfg, SheetOf(cfg, p), BitmapCell(cfg, p));
  }

  lemma Eighths(x: nat)
    ensures 8 * x % 8 == 0
  {
  }

  lemma SpanEighths(cfg: Config)
    requires cfg.sheetLog >= 6
    ensures Span(cfg) % 8 == 0
  {
    assert Pow2(3) == 8;
    hide Pow2;
    Pow2Add(3, cfg.sheetLog - 3);
    Eighths(Pow2(cfg.sheetLog - 3));
  }

  lemma NotBitmap(cfg: Config, v: View, x: nat)
    requires Sound(cfg) && SheetsPlaced(cfg, |v.mem|, v.sheets) && Laid(cfg, v.sheets, v.blocks)
    requires IsHeader(cfg, v.blocks, v.sheets, x)
    ensures forall p: nat :: SheetOf(cfg, p) in v.sheets ==> BitmapCell(cfg, p) != x
  {
    hide FlCount, TableMax, Aligned, SheetOf, Pow2, Apart, Chained, Backed, BitmapCell;
    forall p: nat | SheetOf(cfg, p) in v.sheets ensures BitmapCell(cfg, p) != x {
      BitmapCellPlace(cfg, |v.mem|, v.sheets, p);
    }
  }

  /** Marks live in the bitmap granules alone. */
  lemma MarksKeep(cfg: Config, m: seq<Granule>, m': seq<Granule>, sheets: set<nat>, blk: Blocks)
    requires Marks(cfg, m, sheets, blk) && |m'| == |m|
    requires forall p: nat :: SheetOf(cfg, p) in sheets ==>
               (BitmapCell(cfg, p) < |m| ==> BitmapCell(cfg, p) >= 0 && m'[BitmapCell(cfg, p)] == m[BitmapCell(cfg, p)])
    ensures Marks(cfg, m', sheets, blk)
  {
    hide SheetOf, GranuleBit, IsLive;
    forall p: nat | SheetOf(cfg, p) in sheets ensures Marked(cfg, m', p) <==> IsLive(blk, p - 1) {
      assert Marked(cfg, m, p) <==> IsLive(blk, p - 1);
      assert BitmapCell(cfg, p) < |m| ==> m'[BitmapCell(cfg, p)] == m[BitmapCell(cfg, p)];
    }
  }

  // ---- lists and bitmaps --------------------------------------------------------------------------------------

  lemma AtInjective(k: nat, f1: nat, s1: nat, f2: nat, s2: nat)
    requires s1 < k && s2 < k
    ensures At(k, f1, s1) == At(k, f2, s2) <==> f1 == f2 && s1 == s2
  {
    LevelOrder(f1, s1, f2, s2, k);
  }

  lemma AtInRange(k: nat, fl: nat, sl: nat, n: nat)
    requires fl < n && sl < k
    ensures At(k, fl, sl) < n * k
  {
    MulMono(fl + 1, n, k);
    assert (fl + 1) * k == fl * k + k;
  }

  /** `sl_bitmap[fl] |= 1 << sl; fl_bitmap |= 1 << fl` when list (fl, sl) gets an element. */
  lemma BitsSet(k: nat, slBits: seq<nat>, flBits: nat, lists: seq<seq<nat>>, fl: nat, sl: nat, l: seq<nat>)
    requires BitsMatch(k, slBits, flBits, lists) && fl < |slBits| && sl < k && l != []
    ensures At(k, fl, sl) < |lists|
    ensures BitsMatch(k, slBits[fl := SetBit(slBits[fl], sl)], SetBit(flBits, fl), lists[At(k, fl, sl) := l])
  {
    hide SetBit, At, Bit;
    AtInRange(k, fl, sl, |slBits|);
    var i, s' := At(k, fl, sl), SetBit(slBits[fl], sl);
    var slBits', lists' := slBits[fl := s'], lists[i := l];
    forall f: nat, j: nat | f < |slBits'| ensures Bit(slBits'[f], j) <==> j < k && NonEmpty(lists', At(k, f, j)) {
      assert Bit(slBits[f], j) <==> j < k && NonEmpty(lists, At(k, f, j));
      if j < k { AtInjective(k, f, j, fl, sl); }
      BitOfSetBit(slBits[fl], sl, j);
    }
    forall f: nat ensures Bit(SetBit(flBits, fl), f) <==> f < |slBits'| && slBits'[f] != 0 {
      assert Bit(flBits, f) <==> f < |slBits| && slBits[f] != 0;
      BitOfSetBit(flBits, fl, f);
      BitOfSetBit(slBits[fl], sl, sl);
      ZeroHasNoBits(sl);
    }
  }

  /** `__clear_if_empty` after list (fl, sl) lost an element. */
  lemma BitsDrop(k: nat, slBits: seq<nat>, flBits: nat, lists: seq<seq<nat>>, fl: nat, sl: nat, l: seq<nat>)
    requires BitsMatch(k, slBits, flBits, lists) && fl < |slBits| && sl < k && NonEmpty(lists, At(k, fl, sl))
    ensures At(k, fl, sl) < |lists|
    ensures var s' := if l == [] then ClearBit(slBits[fl], sl) else slBits[fl];
            BitsMatch(k, slBits[fl := s'], if s' == 0 then ClearBit(flBits, fl) else flBits, lists[At(k, fl, sl) := l])
  {
    hide ClearBit, At, Bit;
    var i, s' := At(k, fl, sl), if l == [] then ClearBit(slBits[fl], sl) else slBits[fl];
    var slBits', lists' := slBits[fl := s'], lists[i := l];
    var flBits' := if s' == 0 then ClearBit(flBits, fl) else flBits;
    forall f: nat, j: nat | f < |slBits'| ensures Bit(slBits'[f], j) <==> j < k && NonEmpty(lists', At(k, f, j)) {
      assert Bit(slBits[f], j) <==> j < k && NonEmpty(lists, At(k, f, j));
      if j < k { AtInjective(k, f, j, fl, sl); }
      BitOfClearBit(slBits[fl], sl, j);
    }
    forall f: nat ensures Bit(flBits', f) <==> f < |slBits'| && slBits'[f] != 0 {
      assert Bit(flBits, f) <==> f < |slBits| && slBits[f] != 0;
      BitOfClearBit(flBits, fl, f);
      assert Bit(slBits[fl], sl);
      ZeroHasNoBits(sl);
    }
  }

  function WithUse(blk: Blocks, g: nat, u: BlockUse): Blocks
    requires g in blk
  {
    blk[g := blk[g].(use := u)]
  }

  /** The blocks after a cut whose rest is filed as free. */
  function CarveBlocks(blk: Blocks, a: nat, take: nat): Blocks
    requires a in blk && take <= blk[a].size
  {
    WithUse(SplitBlocks(blk, a, take), a + take, Vacant)
  }

  lemma UseLaid(cfg: Config, sheets: set<nat>, blk: Blocks, g: nat, u: BlockUse)
    requires Laid(cfg, sheets, blk) && g in blk
    ensures Laid(cfg, sheets, WithUse(blk, g, u))
  {
    hide SheetOf, Span, DataOff, EndOf, Inside, Apart, Starts, Follows, BackedAt, WithUse;
    var t := WithUse(blk, g, u);
    UseInside(cfg, sheets, blk, g, u);
    forall s: nat | s in sheets ensures Starts(cfg, t, s) {
      assert Starts(cfg, blk, s);
      UseStarts(cfg, blk, g, u, s);
    }
    forall h: nat | h in t ensures Follows(cfg, t, h) && BackedAt(cfg, t, h) {
      assert h in blk && Follows(cfg, blk, h) && BackedAt(cfg, blk, h);
      UseAt(cfg, blk, g, u, h);
    }
  }

  lemma UseInside(cfg: Config, sheets: set<nat>, blk: Blocks, g: nat, u: BlockUse)
    requires Inside(cfg, sheets, blk) && Apart(blk) && g in blk
    ensures Inside(cfg, sheets, WithUse(blk, g, u)) && Apart(WithUse(blk, g, u))
    ensures forall h :: h in WithUse(blk, g, u) <==> h in blk
  {
    hide SheetOf, Span, DataOff, EndOf;
  }

  lemma UseStarts(cfg: Config, blk: Blocks, g: nat, u: BlockUse, s: nat)
    requires g in blk && Starts(cfg, blk, s)
    ensures Starts(cfg, WithUse(blk, g, u), s)
  {
    hide DataOff;
  }

  lemma UseAt(cfg: Config, blk: Blocks, g: nat, u: BlockUse, h: nat)
    requires g in blk && h in blk && Follows(cfg, blk, h) && BackedAt(cfg, blk, h)
    ensures Follows(cfg, WithUse(blk, g, u), h) && BackedAt(cfg, WithUse(blk, g, u), h)
  {
    hide SheetOf, DataOff, EndOf;
  }

  /** The class of a block is one of the lists. */
  lemma ClassOf(cfg: Config, v: View, xw: set<nat>, xp: set<nat>, g: nat)
    requires Rep(cfg, v, xw, xp) && g in v.blocks
    ensures var size := 16 * v.blocks[g].size;
            && 32 <= size <= 16 * DataSpan(cfg)
            && Fl(size) < |v.slBits| && Sl(cfg.slLog, size) < Pow2(cfg.slLog)
            && Index(cfg.slLog, size) == At(Pow2(cfg.slLog), Fl(size), Sl(cfg.slLog, size)) < |v.lists|
    ensures g < |v.mem| < NULL && |v.heads| == |v.lists| && Linked(TlsfLinks, v.mem, v.heads, v.lists)
    ensures IsVacant(v.blocks, g) ==> g in v.lists[Index(cfg.slLog, 16 * v.blocks[g].size)]
    ensures !IsVacant(v.blocks, g) ==> forall i :: 0 <= i < |v.lists| ==> g !in v.lists[i]
  {
    hide SheetsPlaced, Laid, Headers, Linked, Calm, Marks, FlCount, TableMax, Pow2, Fl, Sl, Filed;
    var size := 16 * v.blocks[g].size;
    BlockBounds(cfg, |v.mem|, v.sheets, v.blocks, g);
    IndexInRange(cfg, size) by { assert EndOf(cfg, SheetOf(cfg, g)) - SheetOf(cfg, g) == DataSpan(cfg) + DataOff(cfg); }
    AtInRange(Pow2(cfg.slLog), Fl(size), Sl(cfg.slLog, size), |v.slBits|);
    HeadsCount(v);
    FiledAt(cfg.slLog, v.blocks, v.lists, g);
  }

  lemma HeadsCount(v: View)
    requires Linked(TlsfLinks, v.mem, v.heads, v.lists)
    ensures |v.heads| == |v.lists|
  {
    hide Chain;
  }

  lemma FiledAt(slLog: nat, blk: Blocks, lists: seq<seq<nat>>, g: nat)
    requires slLog <= 5 && Filed(slLog, blk, lists) && g in blk && blk[g].size >= 2
    ensures var i := Index(slLog, 16 * blk[g].size);
            IsVacant(blk, g) ==> i < |lists| && g in lists[i]
    ensures !IsVacant(blk, g) ==> forall i :: 0 <= i < |lists| ==> g !in lists[i]
  {
    hide Index;
    var i := Index(slLog, 16 * blk[g].size);
    assert InList(lists, i, g) <==> VacantIn(slLog, blk, g, i);
    forall j | 0 <= j < |lists| && !IsVacant(blk, g) ensures g !in lists[j] {
      assert InList(lists, j, g) <==> VacantIn(slLog, blk, g, j);
    }
  }

  /** The nodes of a list are vacant blocks of its class. */
  lemma FiledNode(slLog: nat, blk: Blocks, lists: seq<seq<nat>>, i: nat, x: nat)
    requires slLog <= 5 && Filed(slLog, blk, lists) && i < |lists| && x in lists[i]
    ensures VacantIn(slLog, blk, x, i)
  {
    hide VacantIn;
    assert InList(lists, i, x);
  }

  /** Link words were rewritten at some free blocks, or at `n`. */
  ghost predicate Relinked(m: seq<Granule>, m': seq<Granule>, l: seq<nat>, n: nat) {
    |m'| == |m|
    && (forall x: nat :: x < |m| ==> m'[x].w0 == m[x].w0 && m'[x].w1 == m[x].w1)
    && (forall x: nat :: x < |m| && m'[x] != m[x] ==> x == n || x in l)
  }

  /** A free block leaves its list (`remove_free`, or the head popped by `allocate`). */
  lemma DropStep(cfg: Config, v: View, xw: set<nat>, xp: set<nat>, g: nat, i: nat, l: seq<nat>,
                 mem: seq<Granule>, heads: seq<nat>, slBits: seq<nat>, flBits: nat)
    requires Rep(cfg, v, xw, xp) && IsVacant(v.blocks, g) && i == Index(cfg.slLog, 16 * v.blocks[g].size) < |v.lists|
    requires forall x :: x in l <==> x in v.lists[i] && x != g
    requires Relinked(v.mem, mem, v.lists[i], g) && Linked(TlsfLinks, mem, heads, v.lists[i := l])
    requires |slBits| == |v.slBits| && BitsMatch(Pow2(cfg.slLog), slBits, flBits, v.lists[i := l])
    ensures Rep(cfg, View(mem, heads, slBits, flBits, v.lists[i := l], v.sheets, WithUse(v.blocks, g, Hand)), xw, xp)
    ensures OnlyOwn(cfg, v.sheets, v.blocks, v.mem, mem)
  {
    hide SheetsPlaced, Laid, Linked, Calm, FlCount, TableMax, Pow2, Filed, BitsMatch, Marks, Headers, OnlyOwn;
    var blk := WithUse(v.blocks, g, Hand);
    UseLaid(cfg, v.sheets, v.blocks, g, Hand);
    UseCalm(v.blocks, g);
    FiledDrop(cfg.slLog, v.blocks, v.lists, g, i, l);
    RelinkKeeps(cfg, v, xw, xp, i, g, Hand, mem);
  }

  lemma UseCalm(blk: Blocks, g: nat)
    requires Calm(blk) && g in blk
    ensures Calm(WithUse(blk, g, Hand))
  {
    var t := WithUse(blk, g, Hand);
    forall h: nat | IsVacant(t, h) ensures !IsVacant(t, h + t[h].size) {
      assert IsVacant(blk, h);
    }
  }

  lemma FiledDrop(slLog: nat, blk: Blocks, lists: seq<seq<nat>>, g: nat, i: nat, l: seq<nat>)
    requires slLog <= 5 && Filed(slLog, blk, lists) && IsVacant(blk, g) && blk[g].size >= 2
    requires i == Index(slLog, 16 * blk[g].size) < |lists|
    requires forall x :: x in l <==> x in lists[i] && x != g
    ensures Filed(slLog, WithUse(blk, g, Hand), lists[i := l])
  {
    hide Index;
    var blk', lists' := WithUse(blk, g, Hand), lists[i := l];
    forall j: nat, h: nat ensures InList(lists', j, h) <==> VacantIn(slLog, blk', h, j) {
      assert InList(lists, j, h) <==> VacantIn(slLog, blk, h, j);
    }
  }

  /** Rewriting links moves neither headers nor marks. */
  lemma RelinkKeeps(cfg: Config, v: View, xw: set<nat>, xp: set<nat>, i: nat, g: nat, u: BlockUse, mem: seq<Granule>)
    requires Rep(cfg, v, xw, xp) && g in v.blocks && !v.blocks[g].use.Live? && !u.Live? && i < |v.lists|
    requires Relinked(v.mem, mem, v.lists[i], g)
    ensures Headers(cfg, mem, v.sheets, WithUse(v.blocks, g, u), xw, xp)
    ensures Marks(cfg, mem, v.sheets, WithUse(v.blocks, g, u))
    ensures OnlyOwn(cfg, v.sheets, v.blocks, v.mem, mem)
  {
    hide SheetsPlaced, Laid, Linked, Calm, FlCount, TableMax, Pow2, Filed, BitsMatch, Marks, Headers, SheetOf;
    forall x: nat | x < |mem| && mem[x] != v.mem[x]
      ensures x in v.blocks && SheetOf(cfg, x) in v.sheets
    {
      if x in v.lists[i] { FiledNode(cfg.slLog, v.blocks, v.lists, i, x); }
      BlockBounds(cfg, |v.mem|, v.sheets, v.blocks, x);
    }
    forall p: nat | SheetOf(cfg, p) in v.sheets
      ensures BitmapCell(cfg, p) < |v.mem| ==>
              BitmapCell(cfg, p) >= 0
              && mem[BitmapCell(cfg, p)] == v.mem[BitmapCell(cfg, p)]
    {
      BitmapCellPlace(cfg, |v.mem|, v.sheets, p);
      if BitmapCell(cfg, p) < |v.mem| && BitmapCell(cfg, p) in v.blocks {
        BlockBounds(cfg, |v.mem|, v.sheets, v.blocks, BitmapCell(cfg, p));
      }
    }
    MarksKeep(cfg, v.mem, mem, v.sheets, v.blocks);
    UseMarks(cfg, mem, v.sheets, v.blocks, g, u);
    UseHeaders(cfg, v.mem, mem, v.sheets, v.blocks, xw, xp, g, u);
  }

  lemma UseMarks(cfg: Config, mem: seq<Granule>, sheets: set<nat>, blk: Blocks, g: nat, u: BlockUse)
    requires Marks(cfg, mem, sheets, blk) && g in blk && !blk[g].use.Live? && !u.Live?
    ensures Marks(cfg, mem, sheets, WithUse(blk, g, u))
  {
    hide SheetOf, Marked;
    forall p: nat | SheetOf(cfg, p) in sheets ensures Marked(cfg, mem, p) <==> IsLive(WithUse(blk, g, u), p - 1) {
      assert Marked(cfg, mem, p) <==> IsLive(blk, p - 1);
    }
  }

  lemma UseHeaders(cfg: Config, m: seq<Granule>, m': seq<Granule>, sheets: set<nat>, blk: Blocks, xw: set<nat>,
      xp: set<nat>,
                   g: nat, u: BlockUse)
    requires Headers(cfg, m, sheets, blk, xw, xp) && g in blk && (blk[g].use.Live? <==> u.Live?) && |m'| == |m|
    requires forall x: nat :: x < |m| ==> m'[x].w0 == m[x].w0 && m'[x].w1 == m[x].w1
    ensures Headers(cfg, m', sheets, WithUse(blk, g, u), xw, xp)
  {
    hide SheetOf, EndOf, DataOff;
  }

  /** A block in hand is filed as free (`insert_free`); its neighbours are not free. */
  lemma InsertStep(cfg: Config, v: View, xw: set<nat>, xp: set<nat>, g: nat, i: nat,
                   mem: seq<Granule>, heads: seq<nat>, slBits: seq<nat>, flBits: nat)
    requires Rep(cfg, v, xw, xp) && g in v.blocks && v.blocks[g].use.Hand?
    requires !IsVacant(v.blocks, g + v.blocks[g].size) && !IsVacant(v.blocks, v.blocks[g].prev)
    requires i == Index(cfg.slLog, 16 * v.blocks[g].size) < |v.lists|
    requires Relinked(v.mem, mem, v.lists[i], g) && Linked(TlsfLinks, mem, heads, v.lists[i := [g] + v.lists[i]])
    requires |slBits| == |v.slBits| && BitsMatch(Pow2(cfg.slLog), slBits, flBits, v.lists[i := [g] + v.lists[i]])
    ensures Rep(cfg, View(mem, heads, slBits, flBits, v.lists[i := [g] + v.lists[i]], v.sheets,
            WithUse(v.blocks, g, Vacant)),
                xw, xp)
    ensures OnlyOwn(cfg, v.sheets, v.blocks, v.mem, mem)
  {
    hide SheetsPlaced, Laid, Linked, Calm, FlCount, TableMax, Pow2, Filed, BitsMatch, Marks, Headers, OnlyOwn;
    UseLaid(cfg, v.sheets, v.blocks, g, Vacant);
    InsertCalm(cfg, v.sheets, v.blocks, g);
    FiledAdd(cfg.slLog, v.blocks, v.lists, g, i);
    RelinkKeeps(cfg, v, xw, xp, i, g, Vacant, mem);
  }

  lemma InsertCalm(cfg: Config, sheets: set<nat>, blk: Blocks, g: nat)
    requires Laid(cfg, sheets, blk) && Calm(blk) && g in blk
    requires !IsVacant(blk, g + blk[g].size) && !IsVacant(blk, blk[g].prev)
    ensures Calm(WithUse(blk, g, Vacant))
  {
    hide SheetOf, Span, DataOff, EndOf, Chained;
    var t := WithUse(blk, g, Vacant);
    forall h: nat | IsVacant(t, h) ensures !IsVacant(t, h + t[h].size) {
      if h != g {
        assert IsVacant(blk, h);
        if h + blk[h].size == g {
          BeforeStart(cfg, sheets, blk, h, g);
          assert BackedAt(cfg, blk, g);
          SameEnd(blk, h, blk[g].prev, g);
          assert false;
        }
        assert t[h] == blk[h];
        assert !IsVacant(blk, h + blk[h].size);
      }
    }
  }

  lemma BeforeStart(cfg: Config, sheets: set<nat>, blk: Blocks, h: nat, g: nat)
    requires Inside(cfg, sheets, blk) && h in blk && g in blk && h + blk[h].size == g
    ensures g != SheetOf(cfg, g) + DataOff(cfg)
  {
    hide SheetOf, DataOff;
    SheetOfBounds(cfg, h);
    SheetOfBounds(cfg, g);
    SheetOfIs(cfg, SheetOf(cfg, h), g);
  }

  lemma FiledAdd(slLog: nat, blk: Blocks, lists: seq<seq<nat>>, g: nat, i: nat)
    requires slLog <= 5 && Filed(slLog, blk, lists) && g in blk && blk[g].use.Hand? && blk[g].size >= 2
    requires i == Index(slLog, 16 * blk[g].size) < |lists|
    ensures Filed(slLog, WithUse(blk, g, Vacant), lists[i := [g] + lists[i]])
  {
    hide Index;
    var blk', lists' := WithUse(blk, g, Vacant), lists[i := [g] + lists[i]];
    forall j: nat, h: nat ensures InList(lists', j, h) <==> VacantIn(slLog, blk', h, j) {
      assert InList(lists, j, h) <==> VacantIn(slLog, blk, h, j);
    }
  }

  // ---- marks -----------------------------------------------------------------------------------------------------

  /** `__mark` and `__unmark`: one bit of the sheet's bitmap. */
  function MarkedGranule(cfg: Config, g: Granule, p: nat, on: bool): Granule
    requires p >= SheetOf(cfg, p)
  {
    var k := (p - SheetOf(cfg, p)) % 128;
    if on then SetGranuleBit(g, k) else ClearGranuleBit(g, k)
  }

  lemma MarkStep(cfg: Config, v: View, xw: set<nat>, xp: set<nat>, g: nat, on: bool, mem: seq<Granule>)
    requires g in v.blocks && (if on then v.blocks[g].use.Hand? else v.blocks[g].use.Live?)
    requires 0 <= BitmapCell(cfg, g + 1) < |v.mem| && SheetOf(cfg, g + 1) <= g
    requires var c: nat := BitmapCell(cfg, g + 1); mem == v.mem[c := MarkedGranule(cfg, v.mem[c], g + 1, on)]
    requires Rep(cfg, v, xw, xp)
    ensures Rep(cfg, v.(mem := mem, blocks := WithUse(v.blocks, g, if on then Live else Hand)), xw + {g}, xp)
    ensures OnlyOwn(cfg, v.sheets, v.blocks, v.mem, mem)
  {
    hide SheetsPlaced, Laid, Linked, Calm, FlCount, TableMax, Pow2, Filed, BitsMatch, Marks, Headers, SheetOf,
         BitmapCell, MarkedGranule, WithUse;
    var u: BlockUse := if on then Live else Hand;
    var c: nat := BitmapCell(cfg, g + 1);
    BlockBounds(cfg, |v.mem|, v.sheets, v.blocks, g);
    LaidParts(cfg, v.sheets, v.blocks);
    NextSheet(cfg, |v.mem|, v.sheets, v.blocks, g, 1);
    BitmapCellPlace(cfg, |v.mem|, v.sheets, g + 1);
    CellNotBlock(cfg, v.sheets, v.blocks, c);
    UseLaid(cfg, v.sheets, v.blocks, g, u);
    UseFiling(cfg.slLog, v.blocks, v.lists, g, u);
    MarkMarks(cfg, v.mem, v.sheets, v.blocks, g, on, mem);
    MarkHeaders(cfg, v, xw, xp, g, u, c, mem);
    MarkLinks(cfg, v, xw, xp, c, mem);
  }

  lemma CellNotBlock(cfg: Config, sheets: set<nat>, blk: Blocks, c: nat)
    requires Inside(cfg, sheets, blk) && c < SheetOf(cfg, c) + DataOff(cfg)
    ensures c !in blk
  {
    hide SheetOf, DataOff, EndOf;
  }

  lemma UseFiling(slLog: nat, blk: Blocks, lists: seq<seq<nat>>, g: nat, u: BlockUse)
    requires slLog <= 5 && Calm(blk) && Filed(slLog, blk, lists) && g in blk && !blk[g].use.Vacant? && !u.Vacant?
    ensures Calm(WithUse(blk, g, u)) && Filed(slLog, WithUse(blk, g, u), lists)
  {
    hide Index;
    var t := WithUse(blk, g, u);
    forall h: nat ensures IsVacant(t, h) <==> IsVacant(blk, h) {
    }
    forall j: nat, h: nat ensures InList(lists, j, h) <==> VacantIn(slLog, t, h, j) {
      assert InList(lists, j, h) <==> VacantIn(slLog, blk, h, j);
    }
  }

  lemma MarkMarks(cfg: Config, m: seq<Granule>, sheets: set<nat>, blk: Blocks, g: nat, on: bool, m': seq<Granule>)
    requires Marks(cfg, m, sheets, blk) && SheetsPlaced(cfg, |m|, sheets) && Sound(cfg)
    requires g in blk && blk[g].use.Live? == !on && SheetOf(cfg, g + 1) in sheets
    requires 0 <= BitmapCell(cfg, g + 1) < |m| && SheetOf(cfg, g + 1) <= g
    requires var c: nat := BitmapCell(cfg, g + 1); m' == m[c := MarkedGranule(cfg, m[c], g + 1, on)]
    ensures Marks(cfg, m', sheets, WithUse(blk, g, if on then Live else Hand))
  {
    hide SheetsPlaced, SheetOf, Sound, SetGranuleBit, ClearGranuleBit, GranuleBit, DataOff;
    var c, s := BitmapCell(cfg, g + 1), SheetOf(cfg, g + 1);
    BitmapCellPlace(cfg, |m|, sheets, g + 1);
    forall p: nat | SheetOf(cfg, p) in sheets
      ensures Marked(cfg, m', p) <==> IsLive(WithUse(blk, g, if on then Live else Hand), p - 1)
    {
      assert Marked(cfg, m, p) <==> IsLive(blk, p - 1);
      SheetOfBounds(cfg, p);
      BitmapCellPlace(cfg, |m|, sheets, p);
      if BitmapCell(cfg, p) == c {
        GranuleBits(m[c], (g + 1 - s) % 128, (p - s) % 128);
      }
    }
  }

  lemma MarkHeaders(cfg: Config, v: View, xw: set<nat>, xp: set<nat>, g: nat, u: BlockUse, c: nat, mem: seq<Granule>)
    requires Headers(cfg, v.mem, v.sheets, v.blocks, xw, xp) && g in v.blocks && c !in v.blocks
    requires |mem| == |v.mem| && c < |mem| && SheetsPlaced(cfg, |v.mem|, v.sheets) && Laid(cfg, v.sheets, v.blocks)
    requires Sound(cfg)
    requires forall x :: 0 <= x < |mem| && x != c ==> mem[x] == v.mem[x]
    requires SheetOf(cfg, c) in v.sheets && SheetOf(cfg, c) < c < SheetOf(cfg, c) + DataOff(cfg)
    ensures Headers(cfg, mem, v.sheets, WithUse(v.blocks, g, u), xw + {g}, xp)
  {
    hide SheetOf, DataOff, Span, Sound, Laid, EndOf, WithUse, SizeWord, SheetsPlaced;
    forall s | s in v.sheets ensures s != c && EndOf(cfg, s) != c {
      LaidParts(cfg, v.sheets, v.blocks);
      SentinelsApart(cfg, |v.mem|, v.sheets, v.blocks, s);
      EndAfterData(cfg, s);
    }
    forall h: nat | h in v.blocks ensures SheetOf(cfg, h) in v.sheets {
      LaidParts(cfg, v.sheets, v.blocks);
      BlockBounds(cfg, |v.mem|, v.sheets, v.blocks, h);
    }
    CellHeaders(cfg, v.mem, mem, v.sheets, v.blocks, xw, xp, g, u, c);
  }

  lemma CellHeaders(cfg: Config, m: seq<Granule>, m': seq<Granule>, sheets: set<nat>, blk: Blocks, xw: set<nat>,
      xp: set<nat>,
                    g: nat, u: BlockUse, c: nat)
    requires Headers(cfg, m, sheets, blk, xw, xp) && g in blk && c !in blk && |m'| == |m|
    requires forall x :: 0 <= x < |m| && x != c ==> m'[x] == m[x]
    requires forall s :: s in sheets ==> s != c && EndOf(cfg, s) != c
    requires forall h :: h in blk ==> SheetOf(cfg, h) in sheets
    ensures Headers(cfg, m', sheets, WithUse(blk, g, u), xw + {g}, xp)
  {
    hide SheetOf, DataOff, EndOf, SizeWord;
  }

  lemma SpanFacts(cfg: Config)
    requires Sound(cfg)
    ensures DataSpan(cfg) >= 4 && DataOff(cfg) >= 2 && Span(cfg) == DataOff(cfg) + DataSpan(cfg) + 1
  {
    hide FlCount, Pow2;
    SpanEighths(cfg);
    SpanLarge(cfg);
  }

  lemma SpanLarge(cfg: Config)
    requires cfg.sheetLog >= 6
    ensures Span(cfg) >= 64
  {
    Pow2Mono(6, cfg.sheetLog);
  }

  lemma EndAfterData(cfg: Config, s: nat)
    requires Sound(cfg)
    ensures EndOf(cfg, s) >= s + DataOff(cfg) + 2
  {
    hide FlCount, Pow2;
  }

  lemma MarkLinks(cfg: Config, v: View, xw: set<nat>, xp: set<nat>, c: nat, mem: seq<Granule>)
    requires Rep(cfg, v, xw, xp) && c !in v.blocks && |mem| == |v.mem|
    requires forall x :: 0 <= x < |mem| && x != c ==> mem[x] == v.mem[x]
    ensures Linked(TlsfLinks, mem, v.heads, v.lists)
  {
    hide SheetsPlaced, Laid, Linked, Calm, FlCount, TableMax, Pow2, Filed, BitsMatch, Marks, Headers, VacantIn;
    forall o, x | 0 <= o < |v.lists| && x in v.lists[o] ensures x != c {
      FiledNode(cfg.slLog, v.blocks, v.lists, o, x);
      VacantIs(cfg.slLog, v.blocks, x, o);
    }
    LinkedFrame(TlsfLinks, v.mem, mem, v.heads, v.lists);
  }

  lemma VacantIs(slLog: nat, blk: Blocks, g: nat, i: nat)
    requires slLog <= 5 && VacantIn(slLog, blk, g, i)
    ensures g in blk && blk[g].use.Vacant? && blk[g].size >= 2 && Index(slLog, 16 * blk[g].size) == i
  {
    hide Index;
  }

  // ---- sheets -------------------------------------------------------------------------------------------------------

  /** The one block of an empty sheet. */
  function WholeBlock(cfg: Config, s: nat, u: BlockUse): Block
    requires DataSpan(cfg) >= 0
  {
    Block(DataSpan(cfg), u, s)
  }

  /** What `add_sheet` writes: two sentinels, a clear bitmap and one header. */
  ghost predicate FreshSheet(cfg: Config, mem: seq<Granule>, s: nat) {
    && DataSpan(cfg) >= 2 && EndOf(cfg, s) < |mem|
    && mem[s].w0 == 16 * DataOff(cfg) + 3
    && mem[EndOf(cfg, s)].w0 == 16 + 3 && mem[EndOf(cfg, s)].w1 == s + DataOff(cfg)
    && (forall c :: s < c < s + DataOff(cfg) ==> mem[c] == Granule(0, 0, 0, 0))
    && mem[s + DataOff(cfg)].w0 == 16 * DataSpan(cfg) && mem[s + DataOff(cfg)].w1 == s
  }

  /** A new sheet, one block in hand. */
  lemma AddSheetStep(cfg: Config, v: View, s: nat, mem: seq<Granule>)
    requires Rep(cfg, v, {}, {}) && s !in v.sheets && Aligned(s, cfg.sheetLog) && s + Span(cfg) <= |v.mem| == |mem|
    requires FreshSheet(cfg, mem, s)
    requires forall x: nat :: x < |mem| && !(s <= x < s + Span(cfg)) ==> mem[x] == v.mem[x]
    ensures s + DataOff(cfg) !in v.blocks
    ensures Rep(cfg, v.(mem := mem, sheets := v.sheets + {s},
            blocks := v.blocks[s + DataOff(cfg) := WholeBlock(cfg, s, Hand)]),
                {}, {})
  {
    hide SheetsPlaced, Laid, Linked, Calm, FlCount, TableMax, Pow2, Filed, BitsMatch, Marks, Headers, FreshSheet,
         Aligned, SheetOf, DataOff, Span, Inside, Apart, Chained, Backed;
    var d := s + DataOff(cfg);
    var blk, sheets := v.blocks[d := WholeBlock(cfg, s, Hand)], v.sheets + {s};
    NewSheetApart(cfg, |v.mem|, v.sheets, s);
    NoBlockIn(cfg, |v.mem|, v.sheets, v.blocks, s);
    LaidParts(cfg, v.sheets, v.blocks);
    AddLaid(cfg, |v.mem|, v.sheets, v.blocks, s);
    AddFiling(cfg.slLog, v.blocks, v.lists, d, WholeBlock(cfg, s, Hand)) by { EndAfterData(cfg, s); }
    AddHeaders(cfg, v, s, mem);
    AddMarks(cfg, v, s, mem);
    AddLinks(cfg, v, s, mem);
  }

  lemma LaidParts(cfg: Config, sheets: set<nat>, blk: Blocks)
    requires Laid(cfg, sheets, blk)
    ensures Inside(cfg, sheets, blk) && Apart(blk) && Chained(cfg, sheets, blk) && Backed(cfg, blk)
  {
    hide Inside, Apart, Chained, Backed;
  }

  lemma NewSheetApart(cfg: Config, total: nat, sheets: set<nat>, s: nat)
    requires SheetsPlaced(cfg, total, sheets) && s !in sheets && Aligned(s, cfg.sheetLog) && s + Span(cfg) <= total
    ensures SheetsPlaced(cfg, total, sheets + {s})
  {
    hide Aligned, Pow2;
    forall t | t in sheets ensures s < t ==> s + Span(cfg) <= t ensures t < s ==> t + Span(cfg) <= s {
      if s < t < s + Span(cfg) {
        AlignedNested(t, cfg.sheetLog, s, cfg.sheetLog, t);
      } else if t < s < t + Span(cfg) {
        AlignedNested(s, cfg.sheetLog, t, cfg.sheetLog, s);
      }
    }
  }

  /** Nothing of a sheet that is not there is a block, nor belongs to another sheet. */
  lemma NoBlockIn(cfg: Config, total: nat, sheets: set<nat>, blk: Blocks, s: nat)
    requires SheetsPlaced(cfg, total, sheets) && Laid(cfg, sheets, blk) && Aligned(s, cfg.sheetLog) && s !in sheets
    ensures forall x: nat :: s <= x < s + Span(cfg) ==> x !in blk && SheetOf(cfg, x) == s
    ensures forall x: nat :: !(s <= x < s + Span(cfg)) ==> SheetOf(cfg, x) != s
  {
    hide Apart, Chained, Backed, Aligned, SheetOf, Span, DataOff;
    forall x: nat ensures s <= x < s + Span(cfg) <==> SheetOf(cfg, x) == s {
      SheetOfBounds(cfg, x);
      if s <= x < s + Span(cfg) { SheetOfIs(cfg, s, x); }
    }
  }

  lemma AddLaid(cfg: Config, total: nat, sheets: set<nat>, blk: Blocks, s: nat)
    requires SheetsPlaced(cfg, total, sheets) && Laid(cfg, sheets, blk) && Aligned(s, cfg.sheetLog) && s !in sheets
    requires Sound(cfg)
    ensures Laid(cfg, sheets + {s}, blk[s + DataOff(cfg) := WholeBlock(cfg, s, Hand)])
  {
    hide Aligned, SheetOf, Span, DataOff, EndOf, DataSpan, Inside, Apart, Sound, Starts, Follows, BackedAt,
         SheetsPlaced;
    var d := s + DataOff(cfg);
    SpanFacts(cfg);
    var b := WholeBlock(cfg, s, Hand);
    var t := blk[d := b];
    NoBlockIn(cfg, total, sheets, blk, s);
    AddInside(cfg, sheets, blk, s);
    forall r: nat | r in sheets + {s} ensures Starts(cfg, t, r) {
      assert r != s ==> Starts(cfg, blk, r);
      AddStarts(cfg, blk, s, b, r);
    }
    forall h: nat | h in t ensures Follows(cfg, t, h) && BackedAt(cfg, t, h) {
      assert h != d ==> Follows(cfg, blk, h) && BackedAt(cfg, blk, h);
      AddAt(cfg, blk, s, h);
    }
  }

  lemma AddInside(cfg: Config, sheets: set<nat>, blk: Blocks, s: nat)
    requires Inside(cfg, sheets, blk) && Apart(blk) && Sound(cfg)
    requires forall x: nat :: s <= x < s + Span(cfg) ==> x !in blk && SheetOf(cfg, x) == s
    requires forall x: nat :: !(s <= x < s + Span(cfg)) ==> SheetOf(cfg, x) != s
    requires s !in sheets
    ensures Inside(cfg, sheets + {s}, blk[s + DataOff(cfg) := WholeBlock(cfg, s, Hand)])
    ensures Apart(blk[s + DataOff(cfg) := WholeBlock(cfg, s, Hand)])
  {
    hide SheetOf, FlCount, Pow2, DataOff;
    var d := s + DataOff(cfg);
    EndAfterData(cfg, s);
    forall g: nat | g in blk ensures g + blk[g].size <= d || d + DataSpan(cfg) <= g {
      if g < s < g + blk[g].size {
        AddOverlap(cfg, sheets, blk, s, g);
      }
    }
  }

  lemma AddOverlap(cfg: Config, sheets: set<nat>, blk: Blocks, s: nat, g: nat)
    requires Inside(cfg, sheets, blk) && s !in sheets && g in blk && g < s
    requires forall x: nat :: s <= x < s + Span(cfg) ==> SheetOf(cfg, x) == s
    ensures g + blk[g].size <= s
  {
    hide SheetOf, DataOff;
    SheetOfBounds(cfg, g);
    if g + blk[g].size > s {
      SheetOfIs(cfg, SheetOf(cfg, g), s);
    }
  }

  lemma AddStarts(cfg: Config, blk: Blocks, s: nat, b: Block, r: nat)
    requires r == s || Starts(cfg, blk, r)
    ensures Starts(cfg, blk[s + DataOff(cfg) := b], r)
  {
    hide DataOff;
  }

  lemma AddAt(cfg: Config, blk: Blocks, s: nat, h: nat)
    requires DataSpan(cfg) >= 2 && s + DataOff(cfg) !in blk && SheetOf(cfg, s + DataOff(cfg)) == s
    requires h == s + DataOff(cfg) || (h in blk && Follows(cfg, blk, h) && BackedAt(cfg, blk, h))
    ensures var t := blk[s + DataOff(cfg) := WholeBlock(cfg, s, Hand)];
            Follows(cfg, t, h) && BackedAt(cfg, t, h)
  {
    hide SheetOf, DataOff, Span;
  }

  lemma AddFiling(slLog: nat, blk: Blocks, lists: seq<seq<nat>>, d: nat, b: Block)
    requires slLog <= 5 && Calm(blk) && Filed(slLog, blk, lists) && d !in blk && b.use.Hand?
    ensures Calm(blk[d := b]) && Filed(slLog, blk[d := b], lists)
  {
    hide Index;
    var t := blk[d := b];
    forall h: nat ensures IsVacant(t, h) <==> IsVacant(blk, h) {
    }
    forall j: nat, h: nat ensures InList(lists, j, h) <==> VacantIn(slLog, t, h, j) {
      assert InList(lists, j, h) <==> VacantIn(slLog, blk, h, j);
    }
  }

  lemma AddHeaders(cfg: Config, v: View, s: nat, mem: seq<Granule>)
    requires Headers(cfg, v.mem, v.sheets, v.blocks, {}, {}) && Inside(cfg, v.sheets, v.blocks)
    requires SheetsPlaced(cfg, |v.mem|, v.sheets + {s}) && s !in v.sheets && Sound(cfg) && |mem| == |v.mem|
    requires FreshSheet(cfg, mem, s)
    requires forall x: nat :: x < |mem| && !(s <= x < s + Span(cfg)) ==> mem[x] == v.mem[x]
    requires forall x: nat :: s <= x < s + Span(cfg) ==> x !in v.blocks && SheetOf(cfg, x) == s
    ensures Headers(cfg, mem, v.sheets + {s}, v.blocks[s + DataOff(cfg) := WholeBlock(cfg, s, Hand)], {}, {})
  {
    hide SheetOf, DataOff, Aligned, Pow2, FlCount, TableMax, DataSpan, Span, Inside;
    SpanFacts(cfg);
    var blk := v.blocks[s + DataOff(cfg) := WholeBlock(cfg, s, Hand)];
    forall g: nat | g in v.blocks && EndsSheet(cfg, v.blocks, g) ensures !(s <= g + v.blocks[g].size < s + Span(cfg)) {
      EndElsewhere(cfg, |v.mem|, v.sheets, v.blocks, s, g);
    }
    forall t | t in v.sheets ensures !(s <= t < s + Span(cfg)) && !(s <= EndOf(cfg, t) < s + Span(cfg)) {
    }
  }

  lemma EndElsewhere(cfg: Config, total: nat, sheets: set<nat>, blk: Blocks, s: nat, g: nat)
    requires SheetsPlaced(cfg, total, sheets + {s}) && s !in sheets && Inside(cfg, sheets, blk) && g in blk
    requires EndsSheet(cfg, blk, g)
    ensures !(s <= g + blk[g].size < s + Span(cfg))
  {
    hide SheetOf, DataOff, Span, Aligned;
    assert SheetOf(cfg, g) in sheets + {s};
  }

  lemma AddMarks(cfg: Config, v: View, s: nat, mem: seq<Granule>)
    requires Marks(cfg, v.mem, v.sheets, v.blocks) && s !in v.sheets
    requires SheetsPlaced(cfg, |v.mem|, v.sheets) && SheetsPlaced(cfg, |v.mem|, v.sheets + {s})
    requires Sound(cfg) && |mem| == |v.mem| && FreshSheet(cfg, mem, s) && Laid(cfg, v.sheets, v.blocks)
    requires forall x: nat :: x < |mem| && !(s <= x < s + Span(cfg)) ==> mem[x] == v.mem[x]
    requires forall x: nat :: s <= x < s + Span(cfg) ==> x !in v.blocks && SheetOf(cfg, x) == s
    ensures Marks(cfg, mem, v.sheets + {s}, v.blocks[s + DataOff(cfg) := WholeBlock(cfg, s, Hand)])
  {
    hide SheetOf, DataOff, Aligned, Pow2, FlCount, Span, TableMax, GranuleBit, Laid, SheetsPlaced;
    var blk := v.blocks[s + DataOff(cfg) := WholeBlock(cfg, s, Hand)];
    forall p: nat | SheetOf(cfg, p) in v.sheets + {s} ensures Marked(cfg, mem, p) <==> IsLive(blk, p - 1) {
      SheetOfBounds(cfg, p);
      BitmapCellPlace(cfg, |v.mem|, v.sheets + {s}, p);
      if SheetOf(cfg, p) == s {
        ZeroBits((p - s) % 128);
        NoLiveAt(cfg, |v.mem|, v.sheets, v.blocks, s, p);
      } else {
        assert Marked(cfg, v.mem, p) <==> IsLive(v.blocks, p - 1);
      }
    }
  }

  lemma ZeroBits(k: nat)
    requires k < 128
    ensures !GranuleBit(Granule(0, 0, 0, 0), k)
  {
    hide Bit;
    ZeroHasNoBits(k % 32);
  }

  lemma NoLiveAt(cfg: Config, total: nat, sheets: set<nat>, blk: Blocks, s: nat, p: nat)
    requires SheetsPlaced(cfg, total, sheets) && Laid(cfg, sheets, blk) && s !in sheets && SheetOf(cfg, p) == s
    ensures p > 0 ==> p - 1 !in blk
  {
    hide SheetOf, DataOff, Span, EndOf, Apart, Chained, Backed, Aligned;
    if p > 0 && p - 1 in blk {
      NextSheet(cfg, total, sheets, blk, p - 1, 1);
    }
  }

  lemma AddLinks(cfg: Config, v: View, s: nat, mem: seq<Granule>)
    requires Rep(cfg, v, {}, {}) && |mem| == |v.mem|
    requires forall x: nat :: x < |mem| && !(s <= x < s + Span(cfg)) ==> mem[x] == v.mem[x]
    requires forall x: nat :: s <= x < s + Span(cfg) ==> x !in v.blocks
    ensures Linked(TlsfLinks, mem, v.heads, v.lists)
  {
    hide SheetsPlaced, Laid, Linked, Calm, FlCount, TableMax, Pow2, Filed, BitsMatch, Marks, Headers, VacantIn, Span;
    forall o, x: nat | 0 <= o < |v.lists| && x in v.lists[o] ensures !(s <= x < s + Span(cfg)) {
      FiledNode(cfg.slLog, v.blocks, v.lists, o, x);
      VacantIs(cfg.slLog, v.blocks, x, o);
    }
    LinkedFrame(TlsfLinks, v.mem, mem, v.heads, v.lists);
  }

  /** Taking away a sheet whose one block is in hand. */
  lemma RemoveSheetStep(cfg: Config, v: View, s: nat)
    requires Rep(cfg, v, {}, {}) && s in v.sheets
    requires s + DataOff(cfg) in v.blocks && DataSpan(cfg) >= 0
             && v.blocks[s + DataOff(cfg)] == WholeBlock(cfg, s, Hand)
    ensures Rep(cfg, v.(sheets := v.sheets - {s}, blocks := v.blocks - {s + DataOff(cfg)}), {}, {})
  {
    hide SheetsPlaced, Laid, Linked, Calm, FlCount, TableMax, Pow2, Filed, BitsMatch, Marks, Headers, DataOff, Span,
         SheetOf;
    var d := s + DataOff(cfg);
    SpanFacts(cfg);
    OnlyBlock(cfg, |v.mem|, v.sheets, v.blocks, s);
    RemovePlaced(cfg, |v.mem|, v.sheets, s);
    RemoveLaid(cfg, |v.mem|, v.sheets, v.blocks, s);
    RemoveFiling(cfg.slLog, v.blocks, v.lists, d);
    RemoveHeaders(cfg, v, s);
    RemoveMarks(cfg, v, s);
  }

  /** The block that fills a sheet is its only one. */
  lemma OnlyBlock(cfg: Config, total: nat, sheets: set<nat>, blk: Blocks, s: nat)
    requires SheetsPlaced(cfg, total, sheets) && Laid(cfg, sheets, blk) && s in sheets && DataSpan(cfg) >= 2
    requires s + DataOff(cfg) in blk && blk[s + DataOff(cfg)].size == DataSpan(cfg)
    ensures forall g: nat :: g in blk && SheetOf(cfg, g) == s ==> g == s + DataOff(cfg)
    ensures SheetOf(cfg, s + DataOff(cfg)) == s
  {
    hide SheetOf, Aligned, DataOff, Span, Chained, Backed;
    var d := s + DataOff(cfg);
    SheetOfBounds(cfg, d);
    SheetOfIs(cfg, s, d) by { DataOffPositive(cfg); }
    forall g: nat | g in blk && SheetOf(cfg, g) == s ensures g == d {
      assert g < d || g == d || d < g;
    }
  }

  lemma RemovePlaced(cfg: Config, total: nat, sheets: set<nat>, s: nat)
    requires SheetsPlaced(cfg, total, sheets)
    ensures SheetsPlaced(cfg, total, sheets - {s})
  {
    hide Aligned, Span;
  }

  lemma RemoveLaid(cfg: Config, total: nat, sheets: set<nat>, blk: Blocks, s: nat)
    requires SheetsPlaced(cfg, total, sheets) && Laid(cfg, sheets, blk) && s in sheets && s + DataOff(cfg) in blk
    requires DataSpan(cfg) >= 2 && blk[s + DataOff(cfg)].size == DataSpan(cfg)
    requires forall g: nat :: g in blk && SheetOf(cfg, g) == s ==> g == s + DataOff(cfg)
    requires SheetOf(cfg, s + DataOff(cfg)) == s
    ensures Laid(cfg, sheets - {s}, blk - {s + DataOff(cfg)})
  {
    hide SheetOf, DataOff, Span, EndOf, DataSpan, Aligned, Starts, Follows, BackedAt, SheetsPlaced;
    var d := s + DataOff(cfg);
    var t := blk - {d};
    forall r: nat | r in sheets - {s} ensures Starts(cfg, t, r) {
      assert Starts(cfg, blk, r);
      RemoveStarts(cfg, blk, d, r, s);
    }
    forall h: nat | h in t ensures Follows(cfg, t, h) && BackedAt(cfg, t, h) {
      assert Follows(cfg, blk, h) && BackedAt(cfg, blk, h);
      RemoveAt(cfg, total, sheets, blk, s, h);
    }
  }

  lemma RemoveStarts(cfg: Config, blk: Blocks, d: nat, r: nat, s: nat)
    requires Starts(cfg, blk, r) && d == s + DataOff(cfg) && r != s
    ensures Starts(cfg, blk - {d}, r)
  {
    hide DataOff;
  }

  lemma RemoveAt(cfg: Config, total: nat, sheets: set<nat>, blk: Blocks, s: nat, h: nat)
    requires SheetsPlaced(cfg, total, sheets) && Laid(cfg, sheets, blk) && s in sheets && s + DataOff(cfg) in blk
    requires forall g: nat :: g in blk && SheetOf(cfg, g) == s ==> g == s + DataOff(cfg)
    requires SheetOf(cfg, s + DataOff(cfg)) == s
    requires h in blk && h != s + DataOff(cfg) && Follows(cfg, blk, h) && BackedAt(cfg, blk, h)
    ensures Follows(cfg, blk - {s + DataOff(cfg)}, h) && BackedAt(cfg, blk - {s + DataOff(cfg)}, h)
  {
    hide SheetOf, DataOff, Span, EndOf, Aligned, SheetsPlaced, Apart, Chained, Backed;
    var d := s + DataOff(cfg);
    NextSheet(cfg, total, sheets, blk, h, blk[h].size);
    if blk[h].prev in blk {
      NextSheet(cfg, total, sheets, blk, blk[h].prev, blk[blk[h].prev].size);
    }
  }

  lemma RemoveFiling(slLog: nat, blk: Blocks, lists: seq<seq<nat>>, d: nat)
    requires slLog <= 5 && Calm(blk) && Filed(slLog, blk, lists) && d in blk && blk[d].use.Hand?
    ensures Calm(blk - {d}) && Filed(slLog, blk - {d}, lists)
  {
    hide Index;
    var t := blk - {d};
    forall h: nat ensures IsVacant(t, h) <==> IsVacant(blk, h) {
    }
    forall j: nat, h: nat ensures InList(lists, j, h) <==> VacantIn(slLog, t, h, j) {
      assert InList(lists, j, h) <==> VacantIn(slLog, blk, h, j);
    }
  }

  lemma RemoveHeaders(cfg: Config, v: View, s: nat)
    requires Headers(cfg, v.mem, v.sheets, v.blocks, {}, {})
    ensures Headers(cfg, v.mem, v.sheets - {s}, v.blocks - {s + DataOff(cfg)}, {}, {})
  {
    hide SheetOf, DataOff, Span;
  }

  lemma RemoveMarks(cfg: Config, v: View, s: nat)
    requires Marks(cfg, v.mem, v.sheets, v.blocks)
    requires s + DataOff(cfg) in v.blocks && !v.blocks[s + DataOff(cfg)].use.Live?
    ensures Marks(cfg, v.mem, v.sheets - {s}, v.blocks - {s + DataOff(cfg)})
  {
    hide SheetOf, DataOff, Span, Marked;
    forall p: nat | SheetOf(cfg, p) in v.sheets - {s}
      ensures Marked(cfg, v.mem, p) <==> IsLive(v.blocks - {s + DataOff(cfg)}, p - 1)
    {
      assert Marked(cfg, v.mem, p) <==> IsLive(v.blocks, p - 1);
    }
  }

  // ---- reading the state ----------------------------------------------------------------------------------

  /** What the header words of a block say, where they are settled. */
  lemma BlockFacts(cfg: Config, v: View, xw: set<nat>, xp: set<nat>, g: nat)
    requires Rep(cfg, v, xw, xp) && g in v.blocks
    ensures var b := v.blocks[g];
            && b.size >= 2 && g + b.size < |v.mem| < NULL && b.prev < g
            && (g !in xw ==> v.mem[g].w0 == SizeWord(b))
            && (g !in xp ==> v.mem[g].w1 == b.prev)
            && SheetOf(cfg, g) in v.sheets
            && (b.prev in v.blocks ==> b.prev + v.blocks[b.prev].size == g)
            && (b.prev !in v.blocks ==> b.prev in v.sheets && b.prev == SheetOf(cfg, g))
            && 16 * b.size <= 16 * DataSpan(cfg)
  {
    hide Sound, SheetsPlaced, Laid, Calm, Linked, BitsMatch, Marks, Filed, FlCount, Pow2, DataOff, EndOf, SheetOf,
         DataSpan;
    BlockBounds(cfg, |v.mem|, v.sheets, v.blocks, g);
    BackFacts(cfg, |v.mem|, v.sheets, v.blocks, g);
  }

  lemma BackFacts(cfg: Config, total: nat, sheets: set<nat>, blk: Blocks, g: nat)
    requires SheetsPlaced(cfg, total, sheets) && Laid(cfg, sheets, blk) && g in blk && Sound(cfg)
    ensures blk[g].prev in blk ==> blk[g].prev + blk[blk[g].prev].size == g
    ensures blk[g].prev !in blk ==> blk[g].prev in sheets && blk[g].prev == SheetOf(cfg, g)
    ensures blk[g].size <= DataSpan(cfg)
  {
    hide SheetOf, DataOff, Span, Sound, Apart, Chained;
    assert BackedAt(cfg, blk, g);
    SentinelsApart(cfg, total, sheets, blk, SheetOf(cfg, g));
  }

  /** The header after a block: a block of the same sheet, or the closing sentinel. */
  lemma NextFacts(cfg: Config, v: View, xw: set<nat>, xp: set<nat>, g: nat)
    requires Rep(cfg, v, xw, xp) && g in v.blocks
    ensures var n := g + v.blocks[g].size;
            && n < |v.mem| && IsHeader(cfg, v.blocks, v.sheets, n) && SheetOf(cfg, n) == SheetOf(cfg, g)
            && (n in v.blocks ==> v.blocks[n].prev == g)
            && (n !in v.blocks <==> EndsSheet(cfg, v.blocks, g)) && (n !in v.blocks ==> v.mem[n].w0 == 16 + 3)
            && (n !in v.blocks && n !in xp ==> v.mem[n].w1 == g)
            && (forall h :: h in v.blocks && h + v.blocks[h].size == n ==> h == g)
  {
    hide Sound, SheetsPlaced, Laid, Calm, Linked, BitsMatch, Marks, Filed, FlCount, Pow2, DataOff, EndOf, SheetOf;
    BlockBounds(cfg, |v.mem|, v.sheets, v.blocks, g);
    ChainFacts(cfg, |v.mem|, v.sheets, v.blocks, g);
  }

  lemma ChainFacts(cfg: Config, total: nat, sheets: set<nat>, blk: Blocks, g: nat)
    requires SheetsPlaced(cfg, total, sheets) && Laid(cfg, sheets, blk) && g in blk
    ensures var n := g + blk[g].size;
            && SheetOf(cfg, n) == SheetOf(cfg, g) && SheetOf(cfg, g) in sheets
            && (n in blk ==> blk[n].prev == g)
            && (n !in blk <==> EndsSheet(cfg, blk, g))
            && (forall h :: h in blk && h + blk[h].size == n ==> h == g)
  {
    hide SheetOf, DataOff, Span, Aligned, EndOf;
    var n := g + blk[g].size;
    NextSheet(cfg, total, sheets, blk, g, blk[g].size);
    assert Follows(cfg, blk, g);
    forall h: nat | h in blk && h + blk[h].size == n ensures h == g {
      SameEnd(blk, h, g, n);
    }
    if n in blk {
      BeforeStart(cfg, sheets, blk, g, n);
      assert BackedAt(cfg, blk, n);
      BlockBounds(cfg, total, sheets, blk, n);
    }
  }

  /** A sheet's opening sentinel is never taken for a free block. */
  lemma SheetWord(cfg: Config, v: View, xw: set<nat>, xp: set<nat>, s: nat)
    requires Rep(cfg, v, xw, xp) && s in v.sheets
    ensures s < |v.mem| && v.mem[s].w0 == 16 * DataOff(cfg) + 3 && s !in v.blocks
  {
    hide Inside, Apart, Chained, Backed, Calm, Linked, BitsMatch, Marks, Filed, FlCount, Pow2, DataOff, EndOf, SheetOf,
         TableMax, Sound;
    SentinelsApart(cfg, |v.mem|, v.sheets, v.blocks, s);
    SheetFits(cfg, |v.mem|, v.sheets, s);
  }

  lemma SheetFits(cfg: Config, total: nat, sheets: set<nat>, s: nat)
    requires SheetsPlaced(cfg, total, sheets) && s in sheets
    ensures s < total && s + Span(cfg) <= total && Aligned(s, cfg.sheetLog)
  {
    hide Aligned;
  }

  // ---- the lent blocks ------------------------------------------------------------------------------------

  /** The live blocks, and their sizes. */
  function Lent(blk: Blocks): Blocks {
    map g | g in blk && blk[g].use.Live? :: blk[g]
  }

  function LiveSizes(blk: Blocks): map<nat, nat> {
    map g | g in blk && blk[g].use.Live? :: blk[g].size
  }

  lemma LentIsPart(blk: Blocks)
    ensures PartOf(Lent(blk), blk)
  {
  }

  lemma SpareRep(cfg: Config, v: View, xw: set<nat>, xp: set<nat>, kept: Blocks, mem: seq<Granule>)
    requires Rep(cfg, v, xw, xp) && PartOf(kept, v.blocks) && OnlyOwn(cfg, v.sheets, v.blocks, v.mem, mem)
    ensures Spared(cfg, v.sheets, kept, v.mem, mem)
  {
    hide Sound, SheetsPlaced, Calm, Linked, BitsMatch, Marks, Filed, Headers, FlCount, Pow2, OnlyOwn, Spared, PartOf,
         Inside, Apart, Chained, Backed;
    SpareOwn(cfg, v.sheets, v.blocks, kept, v.mem, mem);
  }

  lemma UseLent(blk: Blocks, g: nat, u: BlockUse, kept: Blocks)
    requires g in blk && PartOf(kept, blk) && (g in kept ==> u.Live?)
    ensures PartOf(kept, WithUse(blk, g, u))
    ensures !blk[g].use.Live? && !u.Live? ==> LiveSizes(WithUse(blk, g, u)) == LiveSizes(blk)
    ensures u.Live? ==> LiveSizes(WithUse(blk, g, u)) == LiveSizes(blk)[g := blk[g].size]
    ensures !u.Live? ==> LiveSizes(WithUse(blk, g, u)) == LiveSizes(blk) - {g}
  {
  }

  lemma SplitLent(blk: Blocks, a: nat, take: nat, kept: Blocks)
    requires a in blk && take <= blk[a].size && a + take !in blk && PartOf(kept, blk)
             && (a in kept ==> kept[a].size <= take)
    ensures PartOf(kept, SplitBlocks(blk, a, take))
    ensures LiveSizes(SplitBlocks(blk, a, take)) == if blk[a].use.Live? then LiveSizes(blk)[a := take]
            else LiveSizes(blk)
  {
  }

  lemma MergeLent(blk: Blocks, a: nat, kept: Blocks)
    requires a in blk && blk[a].size >= 2 && a + blk[a].size in blk && blk[a + blk[a].size].use.Hand?
             && PartOf(kept, blk)
    ensures PartOf(kept, MergeBlocks(blk, a))
    ensures LiveSizes(MergeBlocks(blk, a))
         == if blk[a].use.Live? then LiveSizes(blk)[a := blk[a].size + blk[a + blk[a].size].size] else LiveSizes(blk)
  {
  }

  /** More headers may be called unsettled. */
  lemma Loosen(cfg: Config, v: View, xw: set<nat>, xp: set<nat>, xw': set<nat>, xp': set<nat>)
    requires Rep(cfg, v, xw, xp) && xw <= xw' && xp <= xp'
    ensures Rep(cfg, v, xw', xp')
  {
    hide Sound, SheetsPlaced, Laid, Calm, Linked, BitsMatch, Marks, Filed, FlCount, Pow2, SentinelWords, SheetOf;
  }

  /** Where the mark of a block goes. */
  lemma MarkPlace(cfg: Config, v: View, xw: set<nat>, xp: set<nat>, g: nat)
    requires Rep(cfg, v, xw, xp) && g in v.blocks
    ensures SheetOf(cfg, g + 1) == SheetOf(cfg, g) <= g && 0 <= BitmapCell(cfg, g + 1) < |v.mem|
    ensures forall x: nat :: IsHeader(cfg, v.blocks, v.sheets, x) ==> x != BitmapCell(cfg, g + 1)
  {
    hide Sound, SheetsPlaced, Laid, Calm, Linked, BitsMatch, Marks, Filed, Headers, FlCount, Pow2, SheetOf, BitmapCell,
         IsHeader, Inside, Apart, Chained, Backed;
    BlockBounds(cfg, |v.mem|, v.sheets, v.blocks, g);
    DataOffPositive(cfg);
    LaidParts(cfg, v.sheets, v.blocks);
    NextSheet(cfg, |v.mem|, v.sheets, v.blocks, g, 1);
    BitmapCellPlace(cfg, |v.mem|, v.sheets, g + 1);
    forall x: nat | IsHeader(cfg, v.blocks, v.sheets, x) ensures x != BitmapCell(cfg, g + 1) {
      NotBitmap(cfg, v, x);
    }
  }

  /** After a cut: the rest's header and the back link behind it are written, so only the cut
      block's own size word is unsettled. */
  lemma CarveSettle(cfg: Config, v: View, xp: set<nat>, off: nat, take: nat, mem: seq<Granule>)
    requires Rep(cfg, v, {off}, xp) && off in v.blocks && 2 <= take && take + 2 <= v.blocks[off].size
    requires var rem, n := off + take, off + v.blocks[off].size;
             && xp <= {n} && |mem| == |v.mem| && n < |mem|
             && Rep(cfg, v.(blocks := SplitBlocks(v.blocks, off, take), mem := mem), {off, rem, n}, {rem, n})
             && mem[rem].w0 == 16 * (v.blocks[off].size - take) && mem[rem].w1 == off && mem[n].w1 == rem
             && mem[n].w0 == v.mem[n].w0
    ensures Rep(cfg, v.(blocks := SplitBlocks(v.blocks, off, take), mem := mem), {off}, {})
  {
    hide Rep, SheetOf, EndOf;
    var rem, n := off + take, off + v.blocks[off].size;
    var w := v.(blocks := SplitBlocks(v.blocks, off, take), mem := mem);
    NextFacts(cfg, v, {off}, xp, off);
    if n in v.blocks { BlockFacts(cfg, v, {off}, xp, n); }
    RestLast(cfg, w, {off, rem, n}, {rem, n}, off, rem);
    SettleStep(cfg, w, {off, rem, n}, {rem, n}, {off}, {});
  }

  /** Only the block just before a position ends there. */
  lemma RestLast(cfg: Config, w: View, xw: set<nat>, xp: set<nat>, off: nat, rem: nat)
    requires Rep(cfg, w, xw, xp) && off in w.blocks && rem in w.blocks && off + w.blocks[off].size == rem
    ensures forall g :: g in w.blocks && EndsSheet(cfg, w.blocks, g) ==> g + w.blocks[g].size != rem
    ensures forall g :: g in w.blocks && g + w.blocks[g].size == rem + w.blocks[rem].size ==> g == rem
  {
    hide Sound, SheetsPlaced, Calm, Linked, BitsMatch, Marks, Filed, Headers, FlCount, Pow2, SheetOf, EndOf, DataOff;
    NextFacts(cfg, w, xw, xp, rem);
    forall g: nat | g in w.blocks && EndsSheet(cfg, w.blocks, g) ensures g + w.blocks[g].size != rem {
      NextFacts(cfg, w, xw, xp, g);
      BlockBounds(cfg, |w.mem|, w.sheets, w.blocks, rem);
    }
  }

  /** No block but `g` is in hand. */
  ghost predicate OnlyHand(blk: Blocks, g: nat) {
    forall h: nat :: h in blk && blk[h].use.Hand? ==> h == g
  }

  /** Reading whether the next header is a free block. */
  lemma NextWord(cfg: Config, v: View, xw: set<nat>, xp: set<nat>, g: nat)
    requires Rep(cfg, v, xw, xp) && g in v.blocks && OnlyHand(v.blocks, g) && g + v.blocks[g].size !in xw
    ensures var n := g + v.blocks[g].size;
            && n < |v.mem|
            && (v.mem[n].w0 % 4 == 0 <==> IsVacant(v.blocks, n))
            && (IsVacant(v.blocks, n) ==> v.mem[n].w0 == 16 * v.blocks[n].size)
  {
    hide Rep, SheetOf, EndOf;
    NextFacts(cfg, v, xw, xp, g);
    var n := g + v.blocks[g].size;
    if n in v.blocks {
      BlockFacts(cfg, v, xw, xp, n);
      BlockFacts(cfg, v, xw, xp, g);
    }
  }

  /** Reading whether the previous header is a free block. */
  lemma PrevWord(cfg: Config, v: View, xw: set<nat>, xp: set<nat>, g: nat)
    requires Rep(cfg, v, xw, xp) && g in v.blocks && OnlyHand(v.blocks, g) && v.blocks[g].prev !in xw
    ensures var p := v.blocks[g].prev;
            && p < g && p < |v.mem|
            && (v.mem[p].w0 % 4 == 0 <==> IsVacant(v.blocks, p))
            && (IsVacant(v.blocks, p) ==> v.mem[p].w0 == 16 * v.blocks[p].size && p + v.blocks[p].size == g)
  {
    hide Rep, SheetOf, EndOf, DataOff;
    BlockFacts(cfg, v, xw, xp, g);
    var p := v.blocks[g].prev;
    if p in v.blocks {
      BlockFacts(cfg, v, xw, xp, p);
    } else {
      SheetWord(cfg, v, xw, xp, p);
    }
  }

  /** The blocks after `a` swallowed the free block behind it. */
  function AbsorbBlocks(blk: Blocks, a: nat): Blocks
    requires a in blk && a + blk[a].size in blk && blk[a].size > 0
  {
    MergeBlocks(WithUse(blk, a + blk[a].size, Hand), a)
  }

  lemma AbsorbShape(blk: Blocks, a: nat, n: nat)
    requires Calm(blk) && Apart(blk) && (forall h :: h in blk ==> blk[h].size >= 2 && blk[h].prev < h)
    requires a in blk && n == a + blk[a].size && IsVacant(blk, n) && !blk[a].use.Vacant? && OnlyHand(blk, a)
    ensures var t, m := AbsorbBlocks(blk, a), n + blk[n].size;
            && a in t && t[a] == blk[a].(size := blk[a].size + blk[n].size)
            && !IsVacant(t, m) && OnlyHand(t, a)
            && (IsVacant(t, blk[a].prev) <==> IsVacant(blk, blk[a].prev))
  {
    assert !IsVacant(blk, n + blk[n].size);
  }

  lemma ShapeOf(cfg: Config, v: View, xw: set<nat>, xp: set<nat>)
    requires Rep(cfg, v, xw, xp)
    ensures Calm(v.blocks) && Apart(v.blocks)
    ensures forall h :: h in v.blocks ==> v.blocks[h].size >= 2 && v.blocks[h].prev < h
  {
    hide Sound, SheetsPlaced, Laid, Calm, Linked, BitsMatch, Marks, Filed, Headers, FlCount, Pow2, Inside, Apart,
         Chained, Backed;
    LaidParts(cfg, v.sheets, v.blocks);
    forall h: nat | h in v.blocks ensures v.blocks[h].size >= 2 && v.blocks[h].prev < h {
      BlockBounds(cfg, |v.mem|, v.sheets, v.blocks, h);
    }
  }

  /** The header of `o` and the back link behind it agree with the blocks: everything is settled. */
  lemma SealSettle(cfg: Config, v: View, xw: set<nat>, xp: set<nat>, o: nat, mem: seq<Granule>)
    requires Rep(cfg, v, xw, xp) && o in v.blocks && (forall g :: g in xw ==> g == o || g !in v.blocks)
    requires var n := o + v.blocks[o].size;
             && xp <= {n} && |mem| == |v.mem| && n < |mem| && o < |mem|
             && Rep(cfg, v.(mem := mem), xw + {o, n}, {o, n})
             && mem[o].w0 == SizeWord(v.blocks[o]) && mem[o].w1 == v.mem[o].w1
             && mem[n].w0 == v.mem[n].w0 && mem[n].w1 == o
    ensures Rep(cfg, v.(mem := mem), {}, {})
  {
    hide Rep, SheetOf, EndOf, SizeWord;
    var n, w := o + v.blocks[o].size, v.(mem := mem);
    BlockFacts(cfg, v, xw, xp, o);
    NextFacts(cfg, v, xw, xp, o);
    if n in v.blocks { BlockFacts(cfg, v, xw, xp, n); }
    EndsNotAt(cfg, w, xw + {o, n}, {o, n}, o);
    SettleStep(cfg, w, xw + {o, n}, {o, n}, {}, {});
  }

  /** No sheet ends where a block starts. */
  lemma EndsNotAt(cfg: Config, w: View, xw: set<nat>, xp: set<nat>, o: nat)
    requires Rep(cfg, w, xw, xp) && o in w.blocks
    ensures forall g :: g in w.blocks && EndsSheet(cfg, w.blocks, g) ==> g + w.blocks[g].size != o
  {
    hide Rep, SheetOf, EndOf, EndsSheet;
    forall g: nat | g in w.blocks && EndsSheet(cfg, w.blocks, g) ensures g + w.blocks[g].size != o {
      NextFacts(cfg, w, xw, xp, g);
    }
  }

  /** The same when only the block's own size word was open. */
  lemma SettleOne(cfg: Config, v: View, o: nat)
    requires Rep(cfg, v, {o}, {o}) && o in v.blocks && o < |v.mem|
    requires v.mem[o].w0 == SizeWord(v.blocks[o]) && v.mem[o].w1 == v.blocks[o].prev
    ensures Rep(cfg, v, {}, {})
  {
    hide Rep, SheetOf, EndOf, SizeWord;
    EndsNotAt(cfg, v, {o}, {o}, o);
    SettleStep(cfg, v, {o}, {o}, {}, {});
  }

  // ---- empty sheets ---------------------------------------------------------------------------------------

  ghost predicate NoHand(blk: Blocks) {
    forall h: nat :: h in blk ==> !blk[h].use.Hand?
  }

  /** The sheet is one free block. */
  predicate EmptySheet(cfg: Config, blk: Blocks, s: nat) {
    IsVacant(blk, s + DataOff(cfg)) && blk[s + DataOff(cfg)].size == DataSpan(cfg)
  }

  /** A sheet is empty exactly when no live block lies in it. */
  lemma EmptyIffNoLive(cfg: Config, v: View, s: nat)
    requires NoHand(v.blocks) && s in v.sheets && Rep(cfg, v, {}, {})
    ensures EmptySheet(cfg, v.blocks, s) <==> forall g: nat :: g in LiveSizes(v.blocks) ==> SheetOf(cfg, g) != s
  {
    hide Rep, SheetOf, DataOff, DataSpan, EndOf, Calm, Apart;
    FirstBlock(cfg, v, s);
    var d := s + DataOff(cfg);
    if EmptySheet(cfg, v.blocks, s) {
      AloneInSheet(cfg, v, s);
    } else {
      if IsVacant(v.blocks, d) {
        ShapeOf(cfg, v, {}, {});
        NextFacts(cfg, v, {}, {}, d);
        VacantThenLive(v.blocks, d);
        WholeSpan(cfg, v, s);
        var n := d + v.blocks[d].size;
        assert n in LiveSizes(v.blocks) && SheetOf(cfg, n) == s;
      } else {
        assert d in LiveSizes(v.blocks) && SheetOf(cfg, d) == s;
      }
    }
  }

  lemma FirstBlock(cfg: Config, v: View, s: nat)
    requires s in v.sheets && Rep(cfg, v, {}, {})
    ensures s + DataOff(cfg) in v.blocks && SheetOf(cfg, s + DataOff(cfg)) == s
  {
    hide Sound, Calm, Linked, BitsMatch, Marks, Filed, Headers, FlCount, Pow2, SheetOf, DataOff, EndOf, Inside, Apart,
         Chained, Backed, SheetsPlaced;
    LaidParts(cfg, v.sheets, v.blocks);
    SheetOfData(cfg, |v.mem|, v.sheets, v.blocks, s);
  }

  lemma AloneInSheet(cfg: Config, v: View, s: nat)
    requires EmptySheet(cfg, v.blocks, s) && s in v.sheets && Rep(cfg, v, {}, {})
    ensures forall g: nat :: g in v.blocks && SheetOf(cfg, g) == s ==> g == s + DataOff(cfg)
  {
    hide Sound, Calm, Linked, BitsMatch, Marks, Filed, Headers, FlCount, Pow2, SheetOf, DataOff, EndOf, Laid,
         SheetsPlaced;
    SpanFacts(cfg);
    OnlyBlock(cfg, |v.mem|, v.sheets, v.blocks, s);
  }

  lemma VacantThenLive(blk: Blocks, d: nat)
    requires NoHand(blk) && Calm(blk) && IsVacant(blk, d)
    ensures d + blk[d].size in blk ==> blk[d + blk[d].size].use.Live?
  {
    assert !IsVacant(blk, d + blk[d].size);
  }

  /** A first block that runs to the closing sentinel has the size of the whole data span. */
  lemma WholeSpan(cfg: Config, v: View, s: nat)
    requires s + DataOff(cfg) in v.blocks && SheetOf(cfg, s + DataOff(cfg)) == s
    ensures EndsSheet(cfg, v.blocks, s + DataOff(cfg)) <==> v.blocks[s + DataOff(cfg)].size == DataSpan(cfg)
  {
    hide SheetOf, Span, BitmapGranules;
  }

  // ---- history --------------------------------------------------------------------------------------------

  /** Between the same sheets and the same live blocks there is only one way to lay out free blocks: the
      state does not remember how it was reached. */
  lemma BlocksByLive(cfg: Config, v1: View, v2: View)
    requires v1.sheets == v2.sheets && LiveSizes(v1.blocks) == LiveSizes(v2.blocks) && NoHand(v1.blocks)
             && NoHand(v2.blocks)
    requires Rep(cfg, v1, {}, {}) && Rep(cfg, v2, {}, {})
    ensures v1.blocks == v2.blocks
  {
    hide Rep, LiveSizes;
    forall g: nat ensures g in v1.blocks <==> g in v2.blocks {
      StartsToo(cfg, v1, v2, g);
      StartsToo(cfg, v2, v1, g);
    }
    forall g: nat | g in v1.blocks ensures v1.blocks[g].size == v2.blocks[g].size
        && v1.blocks[g].use == v2.blocks[g].use {
      LiveUse(v1.blocks, g);
      LiveUse(v2.blocks, g);
      NoLonger(cfg, v1, v2, g);
      NoLonger(cfg, v2, v1, g);
    }
    forall g: nat | g in v1.blocks ensures v1.blocks[g] == v2.blocks[g] {
      BackFactsOf(cfg, v1, g);
      BackFactsOf(cfg, v2, g);
    }
  }

  lemma LiveUse(blk: Blocks, g: nat)
    requires NoHand(blk)
    ensures g in blk ==> (g in LiveSizes(blk) <==> !blk[g].use.Vacant?) && (g in LiveSizes(blk) <==> blk[g].use.Live?)
    ensures g in LiveSizes(blk) ==> g in blk && blk[g].use.Live? && LiveSizes(blk)[g] == blk[g].size
  {
  }

  /** Where a block starts in one state, one starts in the other: at the start of a sheet, at a live
      block, or behind one. */
  lemma StartsToo(cfg: Config, v1: View, v2: View, g: nat)
    requires v1.sheets == v2.sheets && LiveSizes(v1.blocks) == LiveSizes(v2.blocks) && NoHand(v1.blocks)
             && NoHand(v2.blocks)
    requires Rep(cfg, v1, {}, {}) && Rep(cfg, v2, {}, {})
    ensures g in v1.blocks ==> g in v2.blocks
  {
    hide Rep, LiveSizes, SheetOf, DataOff, EndOf;
    LiveUse(v1.blocks, g);
    LiveUse(v2.blocks, g);
    if g in v1.blocks && g !in LiveSizes(v1.blocks) {
      BackFactsOf(cfg, v1, g);
      var p := v1.blocks[g].prev;
      if p in v1.blocks {
        PrevLive(cfg, v1, g);
        LiveUse(v1.blocks, p);
        LiveUse(v2.blocks, p);
        NextFacts(cfg, v1, {}, {}, p);
        NextFacts(cfg, v2, {}, {}, p);
      } else {
        FirstBlock(cfg, v2, SheetOf(cfg, g));
      }
    }
  }

  /** The block before a free block is live. */
  lemma PrevLive(cfg: Config, v: View, g: nat)
    requires IsVacant(v.blocks, g) && v.blocks[g].prev in v.blocks && NoHand(v.blocks)
    requires Rep(cfg, v, {}, {})
    ensures v.blocks[v.blocks[g].prev].use.Live? && v.blocks[g].prev + v.blocks[v.blocks[g].prev].size == g
  {
    hide Rep, SheetOf, DataOff, EndOf, Calm;
    var p := v.blocks[g].prev;
    BackFactsOf(cfg, v, g);
    ShapeOf(cfg, v, {}, {});
    if IsVacant(v.blocks, p) {
      CalmAt(v.blocks, p);
      assert false;
    }
  }

  lemma CalmAt(blk: Blocks, p: nat)
    requires Calm(blk) && IsVacant(blk, p)
    ensures !IsVacant(blk, p + blk[p].size)
  {
  }

  /** What precedes a block. */
  lemma BackFactsOf(cfg: Config, v: View, g: nat)
    requires g in v.blocks && Rep(cfg, v, {}, {})
    ensures var p := v.blocks[g].prev;
            if g == SheetOf(cfg, g) + DataOff(cfg) then p == SheetOf(cfg, g) && p !in v.blocks
            else p in v.blocks && p + v.blocks[p].size == g
                 && forall h :: h in v.blocks && h + v.blocks[h].size == g ==> h == p
    ensures SheetOf(cfg, g) in v.sheets
  {
    hide Sound, SheetsPlaced, Calm, Linked, BitsMatch, Marks, Filed, Headers, FlCount, Pow2, DataOff, EndOf, SheetOf;
    BlockBounds(cfg, |v.mem|, v.sheets, v.blocks, g);
    assert BackedAt(cfg, v.blocks, g);
    SheetWord(cfg, v, {}, {}, SheetOf(cfg, g));
    if g != SheetOf(cfg, g) + DataOff(cfg) {
      ChainFacts(cfg, |v.mem|, v.sheets, v.blocks, v.blocks[g].prev);
    }
  }

  /** A free block is no longer in one state than in the other. */
  lemma NoLonger(cfg: Config, v1: View, v2: View, g: nat)
    requires v1.sheets == v2.sheets && LiveSizes(v1.blocks) == LiveSizes(v2.blocks) && NoHand(v1.blocks)
             && NoHand(v2.blocks)
    requires g in v1.blocks && g in v2.blocks
    requires Rep(cfg, v1, {}, {}) && Rep(cfg, v2, {}, {})
    ensures IsVacant(v1.blocks, g) ==> v2.blocks[g].size <= v1.blocks[g].size
  {
    hide Rep, LiveSizes, SheetOf, DataOff, EndOf, Calm, Apart;
    if IsVacant(v1.blocks, g) {
      var n := g + v1.blocks[g].size;
      ShapeOf(cfg, v1, {}, {});
      ShapeOf(cfg, v2, {}, {});
      NextFacts(cfg, v1, {}, {}, g);
      NextFacts(cfg, v2, {}, {}, g);
      if n in v1.blocks {
        VacantThenLive(v1.blocks, g);
        LiveUse(v1.blocks, n);
        LiveUse(v2.blocks, n);
        ApartAt(v2.blocks, g, n);
      } else {
        EndBound(cfg, v2, g);
      }
    }
  }

  lemma ApartAt(blk: Blocks, g: nat, n: nat)
    requires Apart(blk) && g in blk && n in blk && g < n
    ensures g + blk[g].size <= n
  {
  }

  lemma EndBound(cfg: Config, v: View, g: nat)
    requires g in v.blocks && Rep(cfg, v, {}, {})
    ensures g + v.blocks[g].size <= EndOf(cfg, SheetOf(cfg, g))
  {
    hide Sound, SheetsPlaced, Calm, Linked, BitsMatch, Marks, Filed, Headers, FlCount, Pow2, DataOff, EndOf, SheetOf,
         Apart, Chained, Backed;
    BlockBounds(cfg, |v.mem|, v.sheets, v.blocks, g);
  }

  /** After shrinking: the kept block is settled; the rest, in hand, is not. */
  lemma ShrinkSettle(cfg: Config, v: View, off: nat, take: nat, mem: seq<Granule>)
    requires off in v.blocks && v.blocks[off].use.Live? && 2 <= take && take + 2 <= v.blocks[off].size
    requires Rep(cfg, v, {}, {})
    requires var rem, n := off + take, off + v.blocks[off].size;
             && |mem| == |v.mem| && rem < |mem|
             && mem[rem].w1 == off && mem[off].w0 == 16 * take + 1 && mem[off].w1 == v.mem[off].w1
             && Rep(cfg, v.(blocks := SplitBlocks(v.blocks, off, take), mem := mem), {off, rem}, {off, rem, n})
    ensures Rep(cfg, v.(blocks := SplitBlocks(v.blocks, off, take), mem := mem),
                {off + take}, {off + v.blocks[off].size})
  {
    hide Rep, SheetOf, EndOf;
    var rem, n := off + take, off + v.blocks[off].size;
    var w := v.(blocks := SplitBlocks(v.blocks, off, take), mem := mem);
    BlockFacts(cfg, v, {}, {}, off);
    EndsNotAt(cfg, w, {off, rem}, {off, rem, n}, off);
    EndsNotAt(cfg, w, {off, rem}, {off, rem, n}, rem);
    SettleStep(cfg, w, {off, rem}, {off, rem, n}, {rem}, {n});
  }

  lemma SplitAt(blk: Blocks, off: nat, take: nat)
    requires off in blk && take > 0 && take < blk[off].size && NoHand(blk)
    ensures var t, rem := SplitBlocks(blk, off, take), off + take;
            && rem in t && t[rem] == Block(blk[off].size - take, Hand, off) && OnlyHand(t, rem)
            && off in t && t[off] == blk[off].(size := take)
  {
  }

  /** A tier without sheets. */
  lemma EmptyRep(cfg: Config, v: View)
    requires Sound(cfg) && |v.mem| < NULL && |v.slBits| == FlCount(cfg) && |v.heads| == |v.lists| == ListCount(cfg)
    requires v.sheets == {} && v.blocks == map[] && v.flBits == 0
    requires forall i :: 0 <= i < |v.slBits| ==> v.slBits[i] == 0
    requires forall i :: 0 <= i < |v.lists| ==> v.lists[i] == [] && v.heads[i] == NULL
    ensures Rep(cfg, v, {}, {})
  {
    hide SheetOf, DataOff, Span, Pow2, FlCount, Fls, TableMax, DataSpan, Marked, Index;
    forall j: nat ensures !Bit(0, j) { ZeroHasNoBits(j); }
    assert forall i: nat, g: nat :: !InList(v.lists, i, g);
    assert forall i: nat :: !NonEmpty(v.lists, i);
    assert BitsMatch(Pow2(cfg.slLog), v.slBits, v.flBits, v.lists) by { hide Bit; EmptyBits(cfg, v); }
  }

  lemma EmptyBits(cfg: Config, v: View)
    requires |v.slBits| * Pow2(cfg.slLog) == |v.lists| && v.flBits == 0
    requires forall i :: 0 <= i < |v.slBits| ==> v.slBits[i] == 0
    requires forall i :: 0 <= i < |v.lists| ==> v.lists[i] == []
    ensures BitsMatch(Pow2(cfg.slLog), v.slBits, v.flBits, v.lists)
  {
    hide Pow2;
    forall j: nat ensures !Bit(0, j) { ZeroHasNoBits(j); }
    assert forall i: nat :: !NonEmpty(v.lists, i);
  }
}
