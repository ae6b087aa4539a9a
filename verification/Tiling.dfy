/** The abstract state of the buddy tier, and the theory of its reachable states.

    A region of `total` granules is cut into tiles.  A tile starts at its key, spans
    `Pow2(lm + order)` granules, is aligned to its own size, and is free, lent to a caller
    (`Large`) or lent to the TLSF tier (`Sheet`).  `Tiled` and `Merged` are what every
    operation keeps; everything else here follows from these two. */
module Tiling {
  import opened Bits

  datatype Use = Free | Large | Sheet
  datatype Tile = Tile(order: nat, use: Use)
  type Tiles = map<nat, Tile>

  /** `lm`: log2 of the unit in granules; `total`: region length; `top`: `max_order`. */
  datatype Geometry = Geometry(lm: nat, total: nat, top: nat)

  function Size(geo: Geometry, o: nat): (r: nat)
    ensures r >= 1
  {
    Pow2(geo.lm + o)
  }

  lemma SizeDouble(geo: Geometry, o: nat)
    ensures Size(geo, o + 1) == 2 * Size(geo, o)
  {
  }

  lemma SizeMono(geo: Geometry, a: nat, b: nat)
    requires a <= b
    ensures Size(geo, a) <= Size(geo, b)
  {
    Pow2Mono(geo.lm + a, geo.lm + b);
  }

  predicate Covers(geo: Geometry, tiles: Tiles, g: nat, x: nat) {
    g in tiles && g <= x < g + Size(geo, tiles[g].order)
  }

  ghost predicate Covered(geo: Geometry, tiles: Tiles, x: nat) {
    exists g: nat :: Covers(geo, tiles, g, x)
  }

  lemma TileAt(geo: Geometry, tiles: Tiles, x: nat) returns (g: nat)
    requires Covered(geo, tiles, x)
    ensures Covers(geo, tiles, g, x)
  {
    g :| Covers(geo, tiles, g, x);
  }

  ghost predicate Placed(geo: Geometry, tiles: Tiles) {
    forall g :: g in tiles ==>
      tiles[g].order < geo.top && Aligned(g, geo.lm + tiles[g].order) && g + Size(geo, tiles[g].order) <= geo.total
  }

  ghost predicate Disjoint(geo: Geometry, tiles: Tiles) {
    forall g, h :: g in tiles && h in tiles && g < h ==> g + Size(geo, tiles[g].order) <= h
  }

  /** Aligned blocks, inside the region, disjoint, and leaving no granule out. */
  ghost predicate Tiled(geo: Geometry, tiles: Tiles) {
    && Placed(geo, tiles)
    && Disjoint(geo, tiles)
    && (forall x: nat :: x < geo.total ==> Covered(geo, tiles, x))
  }

  /** The buddy `off ^ sz` of a block. */
  function BuddyOf(geo: Geometry, g: nat, o: nat): nat {
    FlipBit(g, geo.lm + o)
  }

  /** The start `off & ~sz` of the block made of a block and its buddy. */
  function Parent(geo: Geometry, g: nat, o: nat): nat {
    ClearBit(g, geo.lm + o)
  }

  predicate IsFree(tiles: Tiles, g: nat, o: nat) {
    g in tiles && tiles[g] == Tile(o, Free)
  }

  /** No two free buddies: whatever can be merged has been merged. */
  ghost predicate Merged(geo: Geometry, tiles: Tiles) {
    forall g: nat, o: nat :: IsFree(tiles, g, o) && o + 1 < geo.top ==> !IsFree(tiles, BuddyOf(geo, g, o), o)
  }

  /** An aligned run of order `o` that meets no lent tile. */
  ghost predicate Run(geo: Geometry, tiles: Tiles, g: nat, o: nat) {
    && o < geo.top && Aligned(g, geo.lm + o) && g + Size(geo, o) <= geo.total
    && Clear(geo, tiles, g, Size(geo, o))
  }

  /** Some aligned run of order `o` is free. */
  ghost predicate Servable(geo: Geometry, tiles: Tiles, o: nat) {
    exists g: nat :: Run(geo, tiles, g, o)
  }

  /** No lent tile meets [g, g + len). */
  ghost predicate Clear(geo: Geometry, tiles: Tiles, g: nat, len: nat) {
    forall h :: h in tiles && !tiles[h].use.Free? ==> h + Size(geo, tiles[h].order) <= g || g + len <= h
  }

  /** The lent tiles. */
  function Busy(tiles: Tiles): Tiles {
    map g | g in tiles && !tiles[g].use.Free? :: tiles[g]
  }

  // ---- what the reachable states look like ----------------------------------------

  /** A run with no lent granule lies inside one free tile. */
  lemma {:induction false} RunInFreeTile(geo: Geometry, tiles: Tiles, g: nat, o: nat) returns (f: nat)
    requires Tiled(geo, tiles) && Merged(geo, tiles) && Run(geo, tiles, g, o)
    ensures f in tiles && tiles[f].use.Free? && tiles[f].order >= o
    ensures f <= g && g + Size(geo, o) <= f + Size(geo, tiles[f].order)
    decreases o
  {
    hide Aligned, Size, FlipBit, Tiled, Merged, Run;
    if o == 0 {
      f := TileAtRun(geo, tiles, g);
    } else {
      var r := g + Size(geo, o - 1);
      HalfRuns(geo, tiles, g, o);
      var fl := RunInFreeTile(geo, tiles, g, o - 1);
      var fr := RunInFreeTile(geo, tiles, r, o - 1);
      if tiles[fl].order >= o {
        f := fl;
        RunNested(geo, tiles, g, o, f, g);
      } else if tiles[fr].order >= o {
        f := fr;
        RunNested(geo, tiles, g, o, f, r);
      } else {
        NotBothHalves(geo, tiles, g, o);
      }
    }
  }

  /** A run of one unit lies in a free tile. */
  lemma TileAtRun(geo: Geometry, tiles: Tiles, g: nat) returns (f: nat)
    requires Tiled(geo, tiles) && Run(geo, tiles, g, 0)
    ensures f in tiles && tiles[f].use.Free? && f <= g && g + Size(geo, 0) <= f + Size(geo, tiles[f].order)
  {
    hide Aligned, Pow2;
    f := TileAt(geo, tiles, g);
    AlignedNested(g, geo.lm, f, geo.lm + tiles[f].order, g);
  }

  /** Both halves of a run are runs. */
  lemma HalfRuns(geo: Geometry, tiles: Tiles, g: nat, o: nat)
    requires Run(geo, tiles, g, o) && o > 0
    ensures Run(geo, tiles, g, o - 1) && Run(geo, tiles, g + Size(geo, o - 1), o - 1)
    ensures Size(geo, o) == 2 * Size(geo, o - 1) && Aligned(g, geo.lm + o) && o < geo.top
  {
    hide Aligned, Size;
    AlignedHalves(geo, g, o);
  }

  /** A run no larger than a tile that it meets lies inside it. */
  lemma RunNested(geo: Geometry, tiles: Tiles, g: nat, o: nat, f: nat, x: nat)
    requires Tiled(geo, tiles) && Aligned(g, geo.lm + o) && f in tiles && tiles[f].order >= o
    requires g <= x < g + Size(geo, o) && f <= x < f + Size(geo, tiles[f].order)
    ensures f <= g && g + Size(geo, o) <= f + Size(geo, tiles[f].order)
  {
    hide Aligned, Pow2;
    AlignedNested(g, geo.lm + o, f, geo.lm + tiles[f].order, x);
  }

  lemma NotBothHalves(geo: Geometry, tiles: Tiles, g: nat, o: nat)
    requires Merged(geo, tiles) && 0 < o < geo.top && Aligned(g, geo.lm + o) && IsFree(tiles, g, o - 1)
    ensures !IsFree(tiles, g + Size(geo, o - 1), o - 1)
  {
    AlignedHalves(geo, g, o);
  }

  lemma AlignedHalves(geo: Geometry, g: nat, o: nat)
    requires o > 0 && Aligned(g, geo.lm + o)
    ensures Size(geo, o) == 2 * Size(geo, o - 1)
    ensures Aligned(g, geo.lm + o - 1) && Aligned(g + Size(geo, o - 1), geo.lm + o - 1)
    ensures BuddyOf(geo, g, o - 1) == g + Size(geo, o - 1)
  {
    var k := geo.lm + o - 1;
    AlignedWeaken(g, k, k + 1);
    AlignedPow2(k, k);
    AlignedSum(g, Pow2(k), k);
    BuddyBits(g, k);
  }

  /** The free tiles are exactly the maximal aligned runs that meet no lent tile. */
  lemma FreeIffMaximalRun(geo: Geometry, tiles: Tiles, g: nat, o: nat)
    requires Tiled(geo, tiles) && Merged(geo, tiles)
    ensures IsFree(tiles, g, o) <==> Run(geo, tiles, g, o) && !Run(geo, tiles, Parent(geo, g, o), o + 1)
  {
    hide Aligned, Pow2, FlipBit, ClearBit, SetBit, Bit;
    if Run(geo, tiles, g, o) {
      var f := RunInFreeTile(geo, tiles, g, o);
      ParentSpan(geo, g, o);
      if Run(geo, tiles, Parent(geo, g, o), o + 1) {
        var p := RunInFreeTile(geo, tiles, Parent(geo, g, o), o + 1);
        Pow2Mono(geo.lm + o, geo.lm + o + 1);
        assert p == f;
        assert !IsFree(tiles, g, o);
      } else if tiles[f].order > o {
        AlignedNested(Parent(geo, g, o), geo.lm + o + 1, f, geo.lm + tiles[f].order, g);
        assert false;
      }
    }
  }

  lemma ParentSpan(geo: Geometry, g: nat, o: nat)
    requires Aligned(g, geo.lm + o)
    ensures Aligned(Parent(geo, g, o), geo.lm + o + 1)
    ensures Parent(geo, g, o) <= g && g + Size(geo, o) <= Parent(geo, g, o) + Size(geo, o + 1)
  {
    BuddyBits(g, geo.lm + o);
    assert Size(geo, o + 1) == 2 * Size(geo, o);
  }

  /** The free tiles depend only on what is lent, not on how the state was reached. */
  lemma HistoryIndependent(geo: Geometry, t1: Tiles, t2: Tiles)
    requires Tiled(geo, t1) && Merged(geo, t1) && Tiled(geo, t2) && Merged(geo, t2)
    requires Busy(t1) == Busy(t2)
    ensures t1 == t2
  {
    assert forall g :: g in Busy(t1) <==> g in Busy(t2);
    forall g: nat, o: nat
      ensures Run(geo, t1, g, o) == Run(geo, t2, g, o)
    {
      if Run(geo, t1, g, o) { RunByBusy(geo, t1, t2, g, o); }
      if Run(geo, t2, g, o) { RunByBusy(geo, t2, t1, g, o); }
    }
    forall g: nat, o: nat
      ensures IsFree(t1, g, o) == IsFree(t2, g, o)
    {
      FreeIffMaximalRun(geo, t1, g, o);
      FreeIffMaximalRun(geo, t2, g, o);
    }
    forall g | g in t1 ensures g in t2 && t1[g] == t2[g] {
      assert t1[g].use.Free? ==> IsFree(t2, g, t1[g].order);
      assert !t1[g].use.Free? ==> Busy(t1)[g] == Busy(t2)[g];
    }
    forall g | g in t2 ensures g in t1 {
      assert t2[g].use.Free? ==> IsFree(t1, g, t2[g].order);
      assert !t2[g].use.Free? ==> g in Busy(t2);
    }
  }

  lemma RunByBusy(geo: Geometry, t1: Tiles, t2: Tiles, g: nat, o: nat)
    requires Busy(t1) == Busy(t2) && Run(geo, t1, g, o)
    ensures Run(geo, t2, g, o)
  {
    forall h | h in t2 && !t2[h].use.Free?
      ensures h + Size(geo, t2[h].order) <= g || g + Size(geo, o) <= h
    {
      assert h in Busy(t2) && Busy(t1)[h] == t1[h];
    }
  }

  /** A request of order `o` can be met from some free tile exactly when an aligned run of
      that order is free. */
  lemma ServableIffRun(geo: Geometry, tiles: Tiles, o: nat)
    requires Tiled(geo, tiles) && Merged(geo, tiles)
    ensures (exists f :: f in tiles && tiles[f].use.Free? && tiles[f].order >= o)
            <==> Servable(geo, tiles, o)
  {
    hide Aligned, Pow2;
    if f :| f in tiles && tiles[f].use.Free? && tiles[f].order >= o {
      AlignedWeaken(f, geo.lm + o, geo.lm + tiles[f].order);
      Pow2Mono(geo.lm + o, geo.lm + tiles[f].order);
      assert Run(geo, tiles, f, o);
    }
    if g: nat :| Run(geo, tiles, g, o) {
      var f := RunInFreeTile(geo, tiles, g, o);
    }
  }

  // ---- in-place growth --------------------------------------------------------------

  /** The block that growing `g` from order `j` to `j + 1` absorbs is free. */
  predicate UpperFree(geo: Geometry, tiles: Tiles, g: nat, j: nat) {
    IsFree(tiles, g + Size(geo, j), j)
  }

  /** The upper buddies that growing `g` from order `o` to `want` absorbs. */
  ghost predicate UpperBuddiesFree(geo: Geometry, tiles: Tiles, g: nat, o: nat, want: nat) {
    forall j: nat :: o <= j < want ==> UpperFree(geo, tiles, g, j)
  }

  /** Every upper buddy is free exactly when the grown block fits the region and meets no
      lent tile but the one being grown. */
  lemma UpperBuddiesFreeIff(geo: Geometry, tiles: Tiles, g: nat, want: nat)
    requires Tiled(geo, tiles) && Merged(geo, tiles)
    requires g in tiles && !tiles[g].use.Free? && tiles[g].order < want < geo.top && Aligned(g, geo.lm + want)
    ensures UpperBuddiesFree(geo, tiles, g, tiles[g].order, want)
            <==> (g + Size(geo, want) <= geo.total && Clear(geo, tiles - {g}, g, Size(geo, want)))
  {
    hide Aligned, Pow2, Clear;
    if UpperBuddiesFree(geo, tiles, g, tiles[g].order, want) {
      UpperTilesFill(geo, tiles, g, want);
    }
    if g + Size(geo, want) <= geo.total && Clear(geo, tiles - {g}, g, Size(geo, want)) {
      forall j: nat | tiles[g].order <= j < want ensures UpperFree(geo, tiles, g, j) {
        UpperBuddyIsFree(geo, tiles, g, want, j);
      }
    }
  }

  lemma {:induction false} UpperTilesFill(geo: Geometry, tiles: Tiles, g: nat, want: nat)
    requires Tiled(geo, tiles) && g in tiles && !tiles[g].use.Free? && tiles[g].order <= want
    requires UpperBuddiesFree(geo, tiles, g, tiles[g].order, want)
    ensures g + Size(geo, want) <= geo.total && Clear(geo, tiles - {g}, g, Size(geo, want))
    decreases want
  {
    hide Aligned, Pow2;
    if want > tiles[g].order {
      UpperTilesFill(geo, tiles, g, want - 1);
      var u := g + Size(geo, want - 1);
      assert UpperFree(geo, tiles, g, want - 1);
      SizeDouble(geo, want - 1);
      forall h | h in tiles - {g} && !tiles[h].use.Free?
        ensures h + Size(geo, tiles[h].order) <= g || g + Size(geo, want) <= h
      {
        assert u != h;
      }
    } else {
      forall h | h in tiles - {g} ensures h + Size(geo, tiles[h].order) <= g || g + Size(geo, want) <= h {
      }
    }
  }

  lemma UpperIsRun(geo: Geometry, tiles: Tiles, g: nat, want: nat, j: nat)
    requires Placed(geo, tiles) && Disjoint(geo, tiles)
    requires g in tiles && tiles[g].order <= j < want
    requires Aligned(g + Size(geo, j), geo.lm + j) && j < geo.top
    requires g + Size(geo, want) <= geo.total && Clear(geo, tiles - {g}, g, Size(geo, want))
    ensures Run(geo, tiles, g + Size(geo, j), j)
  {
    hide Aligned, Size, Disjoint, Placed;
    forall h | h in tiles && !tiles[h].use.Free?
      ensures h + Size(geo, tiles[h].order) <= g + Size(geo, j) || g + Size(geo, j) + Size(geo, j) <= h
    {
      UpperApart(geo, tiles, g, want, j, h);
    }
    SizeDouble(geo, j);
    SizeMono(geo, j + 1, want);
  }

  lemma UpperApart(geo: Geometry, tiles: Tiles, g: nat, want: nat, j: nat, h: nat)
    requires g in tiles && tiles[g].order <= j < want && Clear(geo, tiles - {g}, g, Size(geo, want))
    requires h in tiles && !tiles[h].use.Free?
    ensures h + Size(geo, tiles[h].order) <= g + Size(geo, j) || g + Size(geo, j) + Size(geo, j) <= h
  {
    hide Size;
    SizeDouble(geo, j);
    SizeMono(geo, j + 1, want);
    if h == g {
      SizeMono(geo, tiles[g].order, j);
    } else {
      assert h in tiles - {g};
    }
  }

  lemma UpperBuddyIsFree(geo: Geometry, tiles: Tiles, g: nat, want: nat, j: nat)
    requires Tiled(geo, tiles) && Merged(geo, tiles)
    requires g in tiles && !tiles[g].use.Free? && tiles[g].order <= j < want < geo.top && Aligned(g, geo.lm + want)
    requires g + Size(geo, want) <= geo.total && Clear(geo, tiles - {g}, g, Size(geo, want))
    ensures UpperFree(geo, tiles, g, j)
  {
    hide Aligned, Size, FlipBit, Clear, Run, Tiled, Merged, Placed, Disjoint;
    var u := g + Size(geo, j);
    AlignedWeaken(g, geo.lm + j + 1, geo.lm + want);
    AlignedHalves(geo, g, j + 1);
    assert Placed(geo, tiles) && Disjoint(geo, tiles) by { TiledParts(geo, tiles); }
    UpperIsRun(geo, tiles, g, want, j);
    var f := RunInFreeTile(geo, tiles, u, j);
    FreeIsUpper(geo, tiles, g, j, u, f);
  }

  lemma TiledParts(geo: Geometry, tiles: Tiles)
    requires Tiled(geo, tiles)
    ensures Placed(geo, tiles) && Disjoint(geo, tiles)
  {
    hide Placed, Disjoint, Covered;
  }

  /** The free tile over an upper half is no larger than it, since the lower half is lent. */
  lemma FreeIsUpper(geo: Geometry, tiles: Tiles, g: nat, j: nat, u: nat, f: nat)
    requires Tiled(geo, tiles) && g in tiles && !tiles[g].use.Free? && Aligned(g, geo.lm + j + 1)
    requires Size(geo, j + 1) == 2 * Size(geo, j) && u == g + Size(geo, j)
    requires f in tiles && tiles[f].use.Free? && tiles[f].order >= j
    requires f <= u && u + Size(geo, j) <= f + Size(geo, tiles[f].order)
    ensures tiles[f].order == j && f == u
  {
    hide Aligned, Size, Tiled;
    TiledParts(geo, tiles);
    if tiles[f].order > j {
      RunNested(geo, tiles, g, j + 1, f, u);
      assert false;
    }
  }

  // ---- the steps the tier is made of --------------------------------------------------

  lemma RetagKeeps(geo: Geometry, tiles: Tiles, g: nat, use: Use)
    requires Tiled(geo, tiles) && Merged(geo, tiles) && g in tiles
    requires use.Free? ==>
             tiles[g].order + 1 < geo.top
             ==> !IsFree(tiles, BuddyOf(geo, g, tiles[g].order), tiles[g].order)
    ensures var t' := tiles[g := Tile(tiles[g].order, use)];
            Tiled(geo, t') && Merged(geo, t')
  {
    hide Aligned, Size, Merged, BuddyOf;
    var t' := tiles[g := Tile(tiles[g].order, use)];
    forall x: nat | x < geo.total ensures Covered(geo, t', x) {
      var h := TileAt(geo, tiles, x);
      assert Covers(geo, t', h, x);
    }
    RetagMerged(geo, tiles, g, use);
  }

  lemma RetagMerged(geo: Geometry, tiles: Tiles, g: nat, use: Use)
    requires Placed(geo, tiles) && Merged(geo, tiles) && g in tiles
    requires use.Free? ==>
             tiles[g].order + 1 < geo.top
             ==> !IsFree(tiles, BuddyOf(geo, g, tiles[g].order), tiles[g].order)
    ensures Merged(geo, tiles[g := Tile(tiles[g].order, use)])
  {
    hide Aligned, Pow2, FlipBit, ClearBit, SetBit, Bit;
    var o := tiles[g].order;
    var t' := tiles[g := Tile(o, use)];
    BuddyBits(g, geo.lm + o);
    forall h: nat, p: nat | IsFree(t', h, p) && p + 1 < geo.top ensures !IsFree(t', BuddyOf(geo, h, p), p) {
      BuddyBits(h, geo.lm + p);
      assert h != g ==> IsFree(tiles, h, p);
    }
  }

  /** One step of a split: the upper half of the block in hand becomes a free tile. */
  function Halve(geo: Geometry, tiles: Tiles, g: nat): Tiles
    requires g in tiles && tiles[g].order > 0
  {
    var o := tiles[g].order - 1;
    tiles[g := Tile(o, tiles[g].use)][g + Size(geo, o) := Tile(o, Free)]
  }

  lemma HalveKeeps(geo: Geometry, tiles: Tiles, g: nat)
    requires Tiled(geo, tiles) && Merged(geo, tiles)
    requires g in tiles && !tiles[g].use.Free? && tiles[g].order > 0
    ensures Tiled(geo, Halve(geo, tiles, g)) && Merged(geo, Halve(geo, tiles, g))
    ensures g + Size(geo, tiles[g].order - 1) !in tiles
  {
    hide Aligned, Pow2, FlipBit, Merged;
    AlignedHalves(geo, g, tiles[g].order);
    HalveMerged(geo, tiles, g);
    HalveCovers(geo, tiles, g);
  }

  lemma HalveCovers(geo: Geometry, tiles: Tiles, g: nat)
    requires g in tiles && tiles[g].order > 0
    requires forall x: nat :: x < geo.total ==> Covered(geo, tiles, x)
    requires Size(geo, tiles[g].order) == 2 * Size(geo, tiles[g].order - 1)
    requires g + Size(geo, tiles[g].order - 1) !in tiles
    ensures forall x: nat :: x < geo.total ==> Covered(geo, Halve(geo, tiles, g), x)
  {
    hide Pow2;
    var t', u := Halve(geo, tiles, g), g + Size(geo, tiles[g].order - 1);
    forall x: nat | x < geo.total ensures Covered(geo, t', x) {
      var h := TileAt(geo, tiles, x);
      assert Covers(geo, t', if h == g && x >= u then u else h, x);
    }
  }

  lemma HalveMerged(geo: Geometry, tiles: Tiles, g: nat)
    requires Placed(geo, tiles) && Merged(geo, tiles)
    requires g in tiles && !tiles[g].use.Free? && tiles[g].order > 0
    ensures Merged(geo, Halve(geo, tiles, g))
  {
    hide Aligned, Pow2, FlipBit, ClearBit, SetBit, Bit;
    var o := tiles[g].order - 1;
    var t', u := Halve(geo, tiles, g), g + Size(geo, o);
    AlignedHalves(geo, g, o + 1);
    forall h: nat, p: nat | IsFree(t', h, p) && p + 1 < geo.top ensures !IsFree(t', BuddyOf(geo, h, p), p) {
      BuddyBits(g, geo.lm + o);
      if h != u {
        assert IsFree(tiles, h, p);
        BuddyBits(h, geo.lm + p);
      }
    }
  }

  /** One step of a merge: the block in hand swallows its buddy. */
  function Join(geo: Geometry, tiles: Tiles, g: nat): Tiles
    requires g in tiles
  {
    var o := tiles[g].order;
    (tiles - {g, BuddyOf(geo, g, o)})[Parent(geo, g, o) := Tile(o + 1, tiles[g].use)]
  }

  lemma JoinKeeps(geo: Geometry, tiles: Tiles, g: nat)
    requires Tiled(geo, tiles) && Merged(geo, tiles)
    requires g in tiles && !tiles[g].use.Free? && tiles[g].order + 1 < geo.top
    requires IsFree(tiles, BuddyOf(geo, g, tiles[g].order), tiles[g].order)
    ensures Tiled(geo, Join(geo, tiles, g)) && Merged(geo, Join(geo, tiles, g))
  {
    hide Aligned, Pow2, FlipBit, ClearBit;
    var o := tiles[g].order;
    var b, p := BuddyOf(geo, g, o), Parent(geo, g, o);
    var t' := Join(geo, tiles, g);
    PairSpan(geo, g, o);
    forall x: nat | x < geo.total ensures Covered(geo, t', x) {
      var h := TileAt(geo, tiles, x);
      assert Covers(geo, t', if h == g || h == b then p else h, x);
    }
    forall h: nat, q: nat | IsFree(t', h, q) && q + 1 < geo.top ensures !IsFree(t', BuddyOf(geo, h, q), q) {
      assert IsFree(tiles, h, q);
    }
  }

  /** A block and its buddy make up their parent. */
  lemma PairSpan(geo: Geometry, g: nat, o: nat)
    requires Aligned(g, geo.lm + o)
    ensures var b, p := BuddyOf(geo, g, o), Parent(geo, g, o);
            && p == (if b < g then b else g) && Aligned(p, geo.lm + o + 1)
            && (if b < g then b + Size(geo, o) == g else g + Size(geo, o) == b)
            && Size(geo, o + 1) == 2 * Size(geo, o)
  {
    hide Aligned, FlipBit, ClearBit, SetBit, Bit;
    BuddyBits(g, geo.lm + o);
  }

  // ---- the seed ------------------------------------------------------------------------

  /** The binary expansion of `units` below bit `o`, laid out from `off`, largest first. */
  function Decomposition(geo: Geometry, units: nat, o: nat, off: nat): Tiles {
    if o == 0 then map[]
    else if Bit(units, o - 1) then
      Decomposition(geo, units, o - 1, off + Size(geo, o - 1))[off := Tile(o - 1, Free)]
    else Decomposition(geo, units, o - 1, off)
  }

  /** The low `o` bits of `units`, in granules. */
  function LowSize(geo: Geometry, units: nat, o: nat): nat {
    if o == 0 then 0 else LowSize(geo, units, o - 1) + if Bit(units, o - 1) then Size(geo, o - 1) else 0
  }

  lemma {:induction false} DecompositionTiles(geo: Geometry, units: nat, o: nat, off: nat)
    requires o <= geo.top && Aligned(off, geo.lm + o) && off + LowSize(geo, units, o) <= geo.total
    ensures var t := Decomposition(geo, units, o, off);
            && Placed(geo, t) && Disjoint(geo, t)
            && (forall g :: g in t ==> t[g].use.Free? && off <= g)
  {
    if o > 0 {
      hide Aligned, Pow2, Bit, Placed, Disjoint, Size;
      AlignedHalves(geo, off, o);
      if Bit(units, o - 1) {
        DecompositionTiles(geo, units, o - 1, off + Size(geo, o - 1));
        Prepend(geo, Decomposition(geo, units, o - 1, off + Size(geo, o - 1)), off, o - 1);
      } else {
        DecompositionTiles(geo, units, o - 1, off);
      }
    } else {
      NoTiles(geo);
    }
  }

  lemma NoTiles(geo: Geometry)
    ensures Placed(geo, map[]) && Disjoint(geo, map[])
  {
  }

  /** A free tile laid out in front of others. */
  lemma Prepend(geo: Geometry, t: Tiles, off: nat, o: nat)
    requires Placed(geo, t) && Disjoint(geo, t) && (forall g :: g in t ==> off + Size(geo, o) <= g)
    requires o < geo.top && Aligned(off, geo.lm + o) && off + Size(geo, o) <= geo.total
    ensures Placed(geo, t[off := Tile(o, Free)]) && Disjoint(geo, t[off := Tile(o, Free)])
  {
    hide Aligned, Size;
  }

  /** Each order below `o` occurs at most once. */
  ghost predicate OrdersOnce(t: Tiles, o: nat) {
    && (forall g :: g in t ==> t[g].order < o)
    && (forall g, h :: g in t && h in t && t[g].order == t[h].order ==> g == h)
  }

  lemma OrdersAdd(t: Tiles, o: nat, off: nat)
    requires OrdersOnce(t, o)
    ensures OrdersOnce(t, o + 1) && OrdersOnce(t[off := Tile(o, Free)], o + 1)
  {
  }

  lemma {:induction false} DecompositionOrders(geo: Geometry, units: nat, o: nat, off: nat)
    ensures OrdersOnce(Decomposition(geo, units, o, off), o)
  {
    if o > 0 {
      hide Pow2, OrdersOnce;
      if Bit(units, o - 1) {
        DecompositionOrders(geo, units, o - 1, off + Size(geo, o - 1));
        OrdersAdd(Decomposition(geo, units, o - 1, off + Size(geo, o - 1)), o - 1, off);
        assert Decomposition(geo, units, o, off)
            == Decomposition(geo, units, o - 1, off + Size(geo, o - 1))[off := Tile(o - 1, Free)];
      } else {
        DecompositionOrders(geo, units, o - 1, off);
        OrdersAdd(Decomposition(geo, units, o - 1, off), o - 1, off);
        assert Decomposition(geo, units, o, off) == Decomposition(geo, units, o - 1, off);
      }
    }
  }

  lemma {:induction false} DecompositionCovers(geo: Geometry, units: nat, o: nat, off: nat, x: nat)
    requires off <= x < off + LowSize(geo, units, o)
    ensures Covered(geo, Decomposition(geo, units, o, off), x)
  {
    hide Pow2, Bit;
    var t := Decomposition(geo, units, o, off);
    if !Bit(units, o - 1) {
      DecompositionCovers(geo, units, o - 1, off, x);
    } else if x < off + Size(geo, o - 1) {
      assert Covers(geo, t, off, x);
    } else {
      var t' := Decomposition(geo, units, o - 1, off + Size(geo, o - 1));
      DecompositionCovers(geo, units, o - 1, off + Size(geo, o - 1), x);
      DecompositionAbove(geo, units, o - 1, off + Size(geo, o - 1));
      var g := TileAt(geo, t', x);
      assert Covers(geo, t, g, x);
    }
  }

  lemma {:induction false} DecompositionAbove(geo: Geometry, units: nat, o: nat, off: nat)
    ensures forall g :: g in Decomposition(geo, units, o, off) ==> g >= off
  {
    if o > 0 {
      DecompositionAbove(geo, units, o - 1, off);
      DecompositionAbove(geo, units, o - 1, off + Size(geo, o - 1));
    }
  }

  lemma {:induction false} LowSizeIsAll(geo: Geometry, units: nat, o: nat)
    ensures units < Pow2(o) ==> LowSize(geo, units, o) == units * Pow2(geo.lm)
  {
    LowSizeIs(geo, units, o);
    ModSmall(units, o);
  }

  /** The bits of `units` below `o`, as a number. */
  function Low(units: nat, o: nat): nat {
    if o == 0 then 0 else Low(units, o - 1) + if Bit(units, o - 1) then Pow2(o - 1) else 0
  }

  lemma {:induction false} LowSizeIs(geo: Geometry, units: nat, o: nat)
    ensures LowSize(geo, units, o) == Low(units, o) * Pow2(geo.lm)
  {
    if o > 0 {
      hide Pow2, Bit;
      LowSizeIs(geo, units, o - 1);
      Pow2Add(o - 1, geo.lm);
      assert geo.lm + (o - 1) == o - 1 + geo.lm;
      Distribute(Low(units, o - 1), Pow2(o - 1), Pow2(geo.lm));
    }
  }

  lemma Distribute(a: nat, b: nat, p: nat)
    ensures (a + b) * p == a * p + b * p
  {
  }

  lemma {:induction false} ModSmall(units: nat, o: nat)
    ensures units < Pow2(o) ==> Low(units, o) == units
    decreases o
  {
    if o > 0 {
      ModSmall(units / 2, o - 1);
      LowHalf(units, o);
    }
  }

  lemma {:induction false} LowHalf(units: nat, o: nat)
    requires o > 0
    ensures Low(units, o) == 2 * Low(units / 2, o - 1) + units % 2
  {
    if o > 1 {
      LowHalf(units, o - 1);
    }
  }

  /** The seed is a state like any other: tiled, merged, and with nothing lent. */
  lemma SeedIsTiled(geo: Geometry, units: nat)
    requires units < Pow2(geo.top) && geo.total == units * Pow2(geo.lm)
    ensures var t := Decomposition(geo, units, geo.top, 0);
            Tiled(geo, t) && Merged(geo, t) && Busy(t) == map[]
  {
    AlignedZero(geo.lm + geo.top);
    LowSizeIsAll(geo, units, geo.top);
    DecompositionTiles(geo, units, geo.top, 0);
    DecompositionOrders(geo, units, geo.top, 0);
    var t := Decomposition(geo, units, geo.top, 0);
    forall x: nat | x < geo.total ensures Covered(geo, t, x) {
      DecompositionCovers(geo, units, geo.top, 0, x);
    }
    forall g: nat, o: nat | IsFree(t, g, o) ensures !IsFree(t, BuddyOf(geo, g, o), o) {
      BuddyBits(g, geo.lm + o);
    }
  }

  /** Giving everything back, in any order, restores the seed. */
  lemma DrainedIsSeed(geo: Geometry, units: nat, tiles: Tiles)
    requires units < Pow2(geo.top) && geo.total == units * Pow2(geo.lm)
    requires Tiled(geo, tiles) && Merged(geo, tiles) && Busy(tiles) == map[]
    ensures tiles == Decomposition(geo, units, geo.top, 0)
  {
    SeedIsTiled(geo, units);
    HistoryIndependent(geo, tiles, Decomposition(geo, units, geo.top, 0));
  }
}
