/** How the fields of the buddy tier represent a tiling: tag bytes, free lists, order mask and
    byte counter, and how each elementary update carries the representation along. */
module BuddyState {
  import opened Bits
  import opened Granules
  import opened Links
  import opened Tiling
  import opened Sums

  const TAG_NONE: nat := 0x00
  const TAG_ALLOC: nat := 0x40
  const TAG_FREE: nat := 0x80
  const TAG_SHEET: nat := 0xC0

  function KindTag(use: Use): nat {
    match use
    case Free => TAG_FREE
    case Large => TAG_ALLOC
    case Sheet => TAG_SHEET
  }

  /** The tag byte of the unit that starts at granule `g`. */
  function TagOf(tiles: Tiles, g: nat): nat {
    if g in tiles then KindTag(tiles[g].use) + tiles[g].order else TAG_NONE
  }

  /** Tags say where blocks start, of which order and kind; the block in hand is exempt. */
  ghost predicate TagsMatch(geo: Geometry, tags: seq<nat>, tiles: Tiles, hand: nat) {
    forall u :: 0 <= u < |tags| && Shl(u, geo.lm) != hand ==> tags[u] == TagOf(tiles, Shl(u, geo.lm))
  }

  /** List `o` holds exactly the free tiles of order `o`. */
  ghost predicate Members(tiles: Tiles, lists: seq<seq<nat>>) {
    forall o: nat, g: nat :: InList(lists, o, g) <==> IsFree(tiles, g, o)
  }

  /** Bit `o` of the mask says whether list `o` is non-empty. */
  ghost predicate MaskMatches(mask: nat, lists: seq<seq<nat>>) {
    forall o: nat :: Bit(mask, o) <==> NonEmpty(lists, o)
  }

  /** The memory of every block of `kept` is the same in `m` and `m'`. */
  ghost predicate Kept(geo: Geometry, kept: Tiles, m: seq<Granule>, m': seq<Granule>) {
    |m'| == |m| && forall h: nat, x: nat :: Covers(geo, kept, h, x) && x < |m| ==> m'[x] == m[x]
  }

  /** Granules covered by the given blocks. */
  function Weigh(geo: Geometry, busy: Tiles): nat {
    Sum(Weights(geo, busy), geo.total)
  }

  function Weights(geo: Geometry, busy: Tiles): map<nat, nat> {
    map g | g in busy :: Size(geo, busy[g].order)
  }

  // ---- elementary updates --------------------------------------------------------------

  /** Writing the tag of the unit at `g`. */
  lemma TagsUpdate(geo: Geometry, tags: seq<nat>, t: Tiles, hand: nat, g: nat, v: nat, t': Tiles, hand': nat)
    requires TagsMatch(geo, tags, t, hand) && Aligned(g, geo.lm) && Shr(g, geo.lm) < |tags|
    requires forall u: nat :: u < |tags| && Shl(u, geo.lm) != g && Shl(u, geo.lm) != hand' ==>
               Shl(u, geo.lm) != hand && TagOf(t', Shl(u, geo.lm)) == TagOf(t, Shl(u, geo.lm))
    requires g == hand' || v == TagOf(t', g)
    ensures TagsMatch(geo, tags[Shr(g, geo.lm) := v], t', hand')
  {
    hide Shl, Shr, Aligned;
    ShrAligned(g, g, geo.lm);
    forall u: nat | u < |tags| && u != Shr(g, geo.lm) ensures Shl(u, geo.lm) != g {
      AlignedShl(u, geo.lm);
    }
  }

  /** A unit of the region has a tag. */
  lemma TagIndex(geo: Geometry, units: nat, g: nat)
    requires geo.total == Shl(units, geo.lm) && Aligned(g, geo.lm)
    ensures g < geo.total <==> Shr(g, geo.lm) < units
    ensures Shl(Shr(g, geo.lm), geo.lm) == g
  {
    hide Shl, Shr, Aligned;
    AlignedShl(units, geo.lm);
    ShrAligned(g, Shl(units, geo.lm), geo.lm);
    ShrAligned(Shl(units, geo.lm), g, geo.lm);
  }

  lemma MembersAdd(t: Tiles, t': Tiles, lists: seq<seq<nat>>, o: nat, g: nat)
    requires Members(t, lists) && o < |lists|
    requires forall h: nat, p: nat :: IsFree(t', h, p) <==> IsFree(t, h, p) || (h == g && p == o)
    ensures Members(t', lists[o := [g] + lists[o]])
  {
    var lists' := lists[o := [g] + lists[o]];
    forall p: nat, h: nat ensures InList(lists', p, h) <==> IsFree(t', h, p) {
      assert InList(lists, p, h) <==> IsFree(t, h, p);
    }
  }

  lemma MembersDrop(t: Tiles, t': Tiles, lists: seq<seq<nat>>, o: nat, g: nat, l: seq<nat>)
    requires Members(t, lists) && o < |lists|
    requires forall x :: x in l <==> x in lists[o] && x != g
    requires forall h: nat, p: nat :: IsFree(t', h, p) <==> IsFree(t, h, p) && !(h == g && p == o)
    ensures Members(t', lists[o := l])
  {
    var lists' := lists[o := l];
    forall p: nat, h: nat ensures InList(lists', p, h) <==> IsFree(t', h, p) {
      assert InList(lists, p, h) <==> IsFree(t, h, p);
    }
  }

  lemma MembersSame(t: Tiles, t': Tiles, lists: seq<seq<nat>>)
    requires Members(t, lists)
    requires forall h: nat, p: nat :: IsFree(t', h, p) <==> IsFree(t, h, p)
    ensures Members(t', lists)
  {
    forall p: nat, h: nat ensures InList(lists, p, h) <==> IsFree(t', h, p) {
      assert InList(lists, p, h) <==> IsFree(t, h, p);
    }
  }

  lemma MaskSet(mask: nat, lists: seq<seq<nat>>, o: nat, l: seq<nat>)
    requires MaskMatches(mask, lists) && o < |lists| && l != []
    ensures MaskMatches(SetBit(mask, o), lists[o := l])
  {
    hide Bit, SetBit;
    forall p: nat ensures Bit(SetBit(mask, o), p) <==> NonEmpty(lists[o := l], p) {
      BitOfSetBit(mask, o, p);
      assert Bit(mask, p) <==> NonEmpty(lists, p);
    }
  }

  lemma MaskDrop(mask: nat, lists: seq<seq<nat>>, o: nat, l: seq<nat>)
    requires MaskMatches(mask, lists) && o < |lists| && lists[o] != []
    ensures MaskMatches(if l == [] then ClearBit(mask, o) else mask, lists[o := l])
  {
    hide Bit, ClearBit;
    var mask' := if l == [] then ClearBit(mask, o) else mask;
    forall p: nat ensures Bit(mask', p) <==> NonEmpty(lists[o := l], p) {
      BitOfClearBit(mask, o, p);
      assert Bit(mask, p) <==> NonEmpty(lists, p);
    }
  }

  /** Writes at starts of tiles other than those of `kept` leave the blocks of `kept` alone. */
  lemma KeptOff(geo: Geometry, t: Tiles, kept: Tiles, m: seq<Granule>, m': seq<Granule>)
    requires Disjoint(geo, t) && |m'| == |m|
    requires forall h :: h in kept ==> h in t && kept[h].order == t[h].order
    requires forall x :: 0 <= x < |m| && m'[x] != m[x] ==> x in t && x !in kept
    ensures Kept(geo, kept, m, m')
  {
    hide Size;
  }

  lemma KeptTrans(geo: Geometry, kept: Tiles, m0: seq<Granule>, m1: seq<Granule>, m2: seq<Granule>)
    requires Kept(geo, kept, m0, m1) && Kept(geo, kept, m1, m2)
    ensures Kept(geo, kept, m0, m2)
  {
    hide Size, Covers;
  }

  lemma WeighAdd(geo: Geometry, busy: Tiles, g: nat, tile: Tile)
    requires g < geo.total
    ensures Weigh(geo, busy[g := tile])
         == Weigh(geo, busy) + Size(geo, tile.order) - if g in busy then Size(geo, busy[g].order) else 0
  {
    hide Size, Sum;
    SumUpdate(Weights(geo, busy), g, Size(geo, tile.order), geo.total);
    assert Weights(geo, busy[g := tile]) == Weights(geo, busy)[g := Size(geo, tile.order)];
  }

  lemma WeighRemove(geo: Geometry, busy: Tiles, g: nat)
    requires g < geo.total && g in busy
    ensures Weigh(geo, busy - {g}) == Weigh(geo, busy) - Size(geo, busy[g].order)
  {
    hide Size, Sum;
    SumRemove(Weights(geo, busy), g, geo.total);
    assert Weights(geo, busy - {g}) == Weights(geo, busy) - {g};
  }

  lemma WeighBound(geo: Geometry, tiles: Tiles)
    requires Placed(geo, tiles) && Disjoint(geo, tiles)
    ensures Weigh(geo, Busy(tiles)) <= geo.total
  {
    hide Size, Aligned;
    SumBound(Weights(geo, Busy(tiles)), geo.total, geo.total);
  }

  // ---- composed steps ---------------------------------------------------------------------

  /** Setting the tag of a tile that changed in place. */
  lemma TagsRetag(geo: Geometry, tags: seq<nat>, t: Tiles, hand: nat, g: nat, use: Use)
    requires TagsMatch(geo, tags, t, hand) && Aligned(g, geo.lm) && Shr(g, geo.lm) < |tags| && g in t
    requires hand == g || geo.total <= hand
    requires Shl(|tags|, geo.lm) == geo.total
    ensures var t' := t[g := Tile(t[g].order, use)];
            TagsMatch(geo, tags[Shr(g, geo.lm) := TagOf(t', g)], t', NULL)
  {
    hide Shl, Shr, Aligned;
    var t' := t[g := Tile(t[g].order, use)];
    forall u: nat | u < |tags| ensures Shl(u, geo.lm) < geo.total {
      UnitBelow(geo, |tags|, u);
    }
    TagsUpdate(geo, tags, t, hand, g, TagOf(t', g), t', NULL);
  }

  lemma UnitBelow(geo: Geometry, units: nat, u: nat)
    requires Shl(units, geo.lm) == geo.total && u < units
    ensures Shl(u, geo.lm) < geo.total
  {
    hide Shl, Shr, Aligned;
    AlignedShl(u, geo.lm);
    TagIndex(geo, units, Shl(u, geo.lm));
  }

  /** The tag written for the upper half of a block being split. */
  lemma TagsHalve(geo: Geometry, tags: seq<nat>, t: Tiles, g: nat)
    requires TagsMatch(geo, tags, t, g) && g in t && t[g].order > 0
    requires var u := g + Size(geo, t[g].order - 1);
             u !in t && Aligned(u, geo.lm) && Shr(u, geo.lm) < |tags|
    ensures var u := g + Size(geo, t[g].order - 1);
            TagsMatch(geo, tags[Shr(u, geo.lm) := TAG_FREE + t[g].order - 1], Halve(geo, t, g), g)
  {
    hide Shl, Shr, Aligned, Pow2;
    var u := g + Size(geo, t[g].order - 1);
    TagsUpdate(geo, tags, t, g, u, TAG_FREE + t[g].order - 1, Halve(geo, t, g), g);
  }

  /** The tag cleared when a block swallows its buddy. */
  lemma TagsJoin(geo: Geometry, tags: seq<nat>, t: Tiles, g: nat)
    requires TagsMatch(geo, tags, t, g) && g in t && Aligned(g, geo.lm + t[g].order)
    requires var u := SetBit(g, geo.lm + t[g].order); Shr(u, geo.lm) < |tags|
    ensures var u := SetBit(g, geo.lm + t[g].order);
            TagsMatch(geo, tags[Shr(u, geo.lm) := TAG_NONE], Join(geo, t, g), Parent(geo, g, t[g].order))
  {
    hide Shl, Shr, Aligned, Pow2, SetBit, ClearBit, FlipBit;
    var o := t[g].order;
    var u, p := SetBit(g, geo.lm + o), Parent(geo, g, o);
    JoinEnds(geo, g, o);
    TagsUpdate(geo, tags, t, g, u, TAG_NONE, Join(geo, t, g), p);
  }

  /** `off | sz` and `off & ~sz` are the two ends of the pair. */
  lemma JoinEnds(geo: Geometry, g: nat, o: nat)
    requires Aligned(g, geo.lm + o)
    ensures var b, u, p := BuddyOf(geo, g, o), SetBit(g, geo.lm + o), Parent(geo, g, o);
            && ((u == g && p == b) || (u == b && p == g))
            && u != p && Aligned(u, geo.lm) && Aligned(p, geo.lm + o + 1)
  {
    hide Pow2, SetBit, ClearBit, FlipBit, Bit;
    BuddyBits(g, geo.lm + o);
    AlignedWeaken(SetBit(g, geo.lm + o), geo.lm, geo.lm + o);
  }

  /** Putting a tile in hand: its tag no longer matters. */
  lemma TagsHand(geo: Geometry, tags: seq<nat>, t: Tiles, hand: nat, g: nat, tile: Tile)
    requires TagsMatch(geo, tags, t, hand)
    requires hand == g || (Shl(|tags|, geo.lm) == geo.total && geo.total <= hand)
    ensures TagsMatch(geo, tags, t[g := tile], g)
  {
    hide Shl;
    forall u: nat | u < |tags| && Shl(u, geo.lm) != g
      ensures tags[u] == TagOf(t[g := tile], Shl(u, geo.lm))
    {
      if hand != g { UnitBelow(geo, |tags|, u); }
    }
  }

  lemma NotListed(t: Tiles, lists: seq<seq<nat>>, g: nat)
    requires Members(t, lists) && (g in t ==> !t[g].use.Free?)
    ensures forall p :: 0 <= p < |lists| ==> g !in lists[p]
  {
    forall p | 0 <= p < |lists| ensures g !in lists[p] {
      assert InList(lists, p, g) ==> IsFree(t, g, p);
    }
  }

  lemma SetRangeEmpty(m: nat, k: nat)
    ensures SetRange(m, k, k) == m
  {
  }

  /** Pushing one more order below a range already pushed. */
  lemma MaskSetLower(m: nat, lists: seq<seq<nat>>, lo: nat, hi: nat, l: seq<nat>)
    requires 0 < lo <= hi && lo <= |lists| && l != [] && MaskMatches(SetRange(m, lo, hi), lists)
    ensures MaskMatches(SetRange(m, lo - 1, hi), lists[lo - 1 := l])
  {
    hide Bit, SetRange;
    var m' := SetRange(m, lo - 1, hi);
    forall p: nat ensures Bit(m', p) <==> NonEmpty(lists[lo - 1 := l], p) {
      BitSetRange(m, lo - 1, hi, p);
      BitSetRange(m, lo, hi, p);
      assert Bit(SetRange(m, lo, hi), p) <==> NonEmpty(lists, p);
    }
  }

  /** The members of a list, and where they are. */
  lemma ListPlaces(geo: Geometry, t: Tiles, lists: seq<seq<nat>>, o: nat)
    requires Members(t, lists) && Placed(geo, t) && o < |lists|
    ensures forall x: nat :: x in lists[o] ==> IsFree(t, x, o) && x < geo.total && Aligned(x, geo.lm)
  {
    hide Aligned, Pow2;
    forall x: nat | x in lists[o] ensures IsFree(t, x, o) && x < geo.total && Aligned(x, geo.lm) {
      assert InList(lists, o, x);
      AlignedWeaken(x, geo.lm, geo.lm + o);
    }
  }

  // ---- the representation as a whole ---------------------------------------------------------

  /** Memory, tags, heads and lists together represent the tiling `t`; the tag of the block
      `hand` (if it is a position at all) is not yet settled. */
  ghost predicate Represents(geo: Geometry, mem: seq<Granule>, tags: seq<nat>, heads: seq<nat>,
                             lists: seq<seq<nat>>, t: Tiles, hand: nat)
  {
    && |mem| == geo.total == Shl(|tags|, geo.lm) && geo.total < NULL && geo.top <= |lists|
    && Tiled(geo, t) && Merged(geo, t)
    && TagsMatch(geo, tags, t, hand)
    && Members(t, lists)
    && Linked(BuddyLinks, mem, heads, lists)
  }

  /** Where a tile sits, and what its tag is. */
  lemma TileFacts(geo: Geometry, mem: seq<Granule>, tags: seq<nat>, heads: seq<nat>, lists: seq<seq<nat>>, t: Tiles,
                  hand: nat, g: nat)
    requires Represents(geo, mem, tags, heads, lists, t, hand) && g in t
    ensures t[g].order < geo.top <= |lists| == |heads|
    ensures Aligned(g, geo.lm + t[g].order) && Aligned(g, geo.lm)
    ensures g + Size(geo, t[g].order) <= geo.total < NULL && Shr(g, geo.lm) < |tags|
    ensures g != hand ==> tags[Shr(g, geo.lm)] == TagOf(t, g)
    ensures if t[g].use.Free? then g in lists[t[g].order]
            else forall p :: 0 <= p < |lists| ==> g !in lists[p]
  {
    hide Tiled, Merged, TagsMatch, Linked, Members, Aligned, Shr, Shl;
    TilePlace(geo, t, g);
    TagIndex(geo, |tags|, g);
    if g != hand { TagAt(geo, tags, t, hand, g); }
    LinkedLengths(mem, heads, lists);
    if t[g].use.Free? {
      MemberOf(t, lists, g);
    } else {
      NotListed(t, lists, g);
    }
  }

  lemma TilePlace(geo: Geometry, t: Tiles, g: nat)
    requires Tiled(geo, t) && g in t
    ensures t[g].order < geo.top && Aligned(g, geo.lm + t[g].order) && Aligned(g, geo.lm)
    ensures g + Size(geo, t[g].order) <= geo.total
  {
    hide Aligned, Size;
    AlignedWeaken(g, geo.lm, geo.lm + t[g].order);
  }

  lemma LinkedLengths(mem: seq<Granule>, heads: seq<nat>, lists: seq<seq<nat>>)
    requires Linked(BuddyLinks, mem, heads, lists)
    ensures |heads| == |lists|
  {
    hide Chain;
  }

  lemma MemberOf(t: Tiles, lists: seq<seq<nat>>, g: nat)
    requires Members(t, lists) && g in t && t[g].use.Free?
    ensures t[g].order < |lists| && g in lists[t[g].order]
  {
    assert IsFree(t, g, t[g].order);
    assert InList(lists, t[g].order, g);
  }

  lemma TagAt(geo: Geometry, tags: seq<nat>, t: Tiles, hand: nat, g: nat)
    requires TagsMatch(geo, tags, t, hand) && Aligned(g, geo.lm) && Shr(g, geo.lm) < |tags| && g != hand
    ensures tags[Shr(g, geo.lm)] == TagOf(t, g)
  {
    hide Aligned, Shr, Shl;
    ShrAligned(g, g, geo.lm);
  }

  /** Writes to nodes of one list, or to a new start `n`, leave every other lent block alone. */
  lemma KeptByList(geo: Geometry, t: Tiles, lists: seq<seq<nat>>, o: nat, hand: nat, n: nat,
                   m: seq<Granule>, m': seq<Granule>)
    requires Tiled(geo, t) && Members(t, lists) && o < |lists| && |m'| == |m|
    requires hand in t && (n == hand || (n == hand + Size(geo, o) && t[hand].order == o + 1))
    requires forall x :: 0 <= x < |m| && m'[x] != m[x] ==> x == n || x in lists[o]
    ensures Kept(geo, Busy(t) - {hand}, m, m')
  {
    hide Members, Size, Aligned, Covered;
    ListPlaces(geo, t, lists, o);
    SizeDouble(geo, o);
    forall h: nat, x: nat | Covers(geo, Busy(t) - {hand}, h, x) && x < |m| ensures m'[x] == m[x] {
      assert Covers(geo, t, h, x);
    }
  }

  /** Settling the block in hand as free. */
  lemma PushStep(geo: Geometry, mem: seq<Granule>, tags: seq<nat>, heads: seq<nat>, lists: seq<seq<nat>>, t: Tiles,
                 g: nat, o: nat, mem': seq<Granule>, heads': seq<nat>)
    requires Represents(geo, mem, tags, heads, lists, t, g)
    requires g in t && t[g].order == o && !t[g].use.Free? && o < |lists| && Shr(g, geo.lm) < |tags|
    requires o + 1 < geo.top ==> !IsFree(t, BuddyOf(geo, g, o), o)
    requires Linked(BuddyLinks, mem', heads', lists[o := [g] + lists[o]]) && |mem'| == |mem|
    requires forall x :: 0 <= x < |mem| && mem'[x] != mem[x] ==> x == g || x in lists[o]
    ensures Represents(geo, mem', tags[Shr(g, geo.lm) := TAG_FREE + o], heads', lists[o := [g] + lists[o]],
                       t[g := Tile(o, Free)], NULL)
    ensures Busy(t[g := Tile(o, Free)]) == Busy(t) - {g}
    ensures Kept(geo, Busy(t) - {g}, mem, mem')
  {
    hide Linked, Aligned, Shr, Shl, Tiled, Merged, Size, BuddyOf, Kept, TagsMatch, Members;
    var t' := t[g := Tile(o, Free)];
    TilePlace(geo, t, g);
    RetagKeeps(geo, t, g, Free);
    TagsRetag(geo, tags, t, g, g, Free);
    MembersAdd(t, t', lists, o, g);
    KeptByList(geo, t, lists, o, g, g, mem, mem');
  }

  /** Taking a free tile in hand. */
  lemma PopStep(geo: Geometry, mem: seq<Granule>, tags: seq<nat>, heads: seq<nat>, lists: seq<seq<nat>>, t: Tiles,
                g: nat, o: nat, l: seq<nat>, mem': seq<Granule>, heads': seq<nat>)
    requires Represents(geo, mem, tags, heads, lists, t, NULL)
    requires o < |lists| && g in lists[o] && forall x :: x in l <==> x in lists[o] && x != g
    requires Linked(BuddyLinks, mem', heads', lists[o := l]) && |mem'| == |mem|
    requires forall x :: 0 <= x < |mem| && mem'[x] != mem[x] ==> x in lists[o]
    ensures IsFree(t, g, o)
    ensures Represents(geo, mem', tags, heads', lists[o := l], t[g := Tile(o, Large)], g)
    ensures g !in Busy(t) && Busy(t[g := Tile(o, Large)]) == Busy(t)[g := Tile(o, Large)]
    ensures Kept(geo, Busy(t), mem, mem')
  {
    hide Linked, Aligned, Shr, Shl, Merged, Size, BuddyOf, Kept, TagsMatch, Members;
    var t' := t[g := Tile(o, Large)];
    ListPlaces(geo, t, lists, o);
    RetagKeeps(geo, t, g, Large);
    TagsHand(geo, tags, t, NULL, g, Tile(o, Large));
    MembersDrop(t, t', lists, o, g, l);
    KeptOff(geo, t, Busy(t), mem, mem');
  }

  /** Freeing the upper half of the block in hand. */
  lemma HalveStep(geo: Geometry, mem: seq<Granule>, tags: seq<nat>, heads: seq<nat>, lists: seq<seq<nat>>, t: Tiles,
                  g: nat, o: nat, u: nat, mem': seq<Granule>, heads': seq<nat>)
    requires Represents(geo, mem, tags, heads, lists, t, g)
    requires g in t && t[g].order == o + 1 && !t[g].use.Free? && o < |lists|
    requires u == g + Size(geo, o) && Aligned(u, geo.lm) && Shr(u, geo.lm) < |tags|
    requires Linked(BuddyLinks, mem', heads', lists[o := [u] + lists[o]]) && |mem'| == |mem|
    requires forall x :: 0 <= x < |mem| && mem'[x] != mem[x] ==> x == u || x in lists[o]
    ensures Represents(geo, mem', tags[Shr(u, geo.lm) := TAG_FREE + o], heads', lists[o := [u] + lists[o]],
                       Halve(geo, t, g), g)
    ensures Busy(Halve(geo, t, g)) == Busy(t)[g := Tile(o, t[g].use)]
    ensures Kept(geo, Busy(t) - {g}, mem, mem')
  {
    hide Linked, Aligned, Shr, Shl, Merged, Size, Kept, TagsMatch, Members, Tiled, Halve;
    var t' := Halve(geo, t, g);
    HalveKeeps(geo, t, g);
    TagsHalve(geo, tags, t, g);
    HalveTiles(geo, t, g, o, u);
    MembersAdd(t, t', lists, o, u);
    KeptHalves(geo, mem, tags, heads, lists, t, g, o, u, mem');
  }

  lemma KeptHalves(geo: Geometry, mem: seq<Granule>, tags: seq<nat>, heads: seq<nat>, lists: seq<seq<nat>>, t: Tiles,
                   g: nat, o: nat, u: nat, mem': seq<Granule>)
    requires Represents(geo, mem, tags, heads, lists, t, g)
    requires g in t && t[g].order == o + 1 && !t[g].use.Free? && o < |lists| && u == g + Size(geo, o) && |mem'| == |mem|
    requires forall x :: 0 <= x < |mem| && mem'[x] != mem[x] ==> x == u || x in lists[o]
    ensures Kept(geo, Busy(t) - {g}, mem, mem')
  {
    hide Linked, Aligned, Shl, Merged, Size, Kept, TagsMatch, Members;
    KeptByList(geo, t, lists, o, g, u, mem, mem');
  }

  /** What a split does to the free tiles and to the lent ones. */
  lemma HalveTiles(geo: Geometry, t: Tiles, g: nat, o: nat, u: nat)
    requires g in t && t[g].order == o + 1 && !t[g].use.Free? && u == g + Size(geo, o) && u !in t
    ensures Busy(Halve(geo, t, g)) == Busy(t)[g := Tile(o, t[g].use)]
    ensures forall h: nat, p: nat :: IsFree(Halve(geo, t, g), h, p) <==> IsFree(t, h, p) || (h == u && p == o)
  {
    hide Size;
  }

  /** The upper half of a block: where it is, and that no list has it yet. */
  lemma UpperHalf(geo: Geometry, mem: seq<Granule>, tags: seq<nat>, heads: seq<nat>, lists: seq<seq<nat>>, t: Tiles,
                  g: nat, o: nat)
    requires Represents(geo, mem, tags, heads, lists, t, g)
    requires g in t && t[g].order == o + 1 && !t[g].use.Free?
    ensures var u := g + Size(geo, o);
            && u < geo.total && Aligned(u, geo.lm) && Shr(u, geo.lm) < |tags|
            && (forall p :: 0 <= p < |lists| ==> u !in lists[p])
  {
    hide Linked, Aligned, Shr, Shl, Merged, Size, TagsMatch, Members;
    var u := g + Size(geo, o);
    HalveKeeps(geo, t, g);
    NotListed(t, lists, u);
    TilePlace(geo, Halve(geo, t, g), u);
    TagIndex(geo, |tags|, u);
  }

  lemma JoinMembers(geo: Geometry, t: Tiles, g: nat, o: nat, b: nat)
    requires Disjoint(geo, t) && Placed(geo, t) && IsFree(t, b, o) && b == BuddyOf(geo, g, o)
    requires g in t && t[g].order == o && !t[g].use.Free?
    ensures var t', p := Join(geo, t, g), Parent(geo, g, o);
            && (forall h: nat, q: nat :: IsFree(t', h, q) <==> IsFree(t, h, q) && !(h == b && q == o))
            && p in t' && t'[p] == Tile(o + 1, t[g].use)
            && Busy(t') - {p} == Busy(t) - {g}
  {
    hide Size, Aligned, FlipBit, ClearBit, BuddyOf, Parent, Disjoint, Placed;
    var p := Parent(geo, g, o);
    assert p == g || p == b by { PairPlaces(geo, t, g, o, b); }
    MergedMap(t, g, b, p, o);
  }

  lemma PairPlaces(geo: Geometry, t: Tiles, g: nat, o: nat, b: nat)
    requires Placed(geo, t) && g in t && t[g].order == o && b == BuddyOf(geo, g, o)
    ensures Parent(geo, g, o) == g || Parent(geo, g, o) == b
  {
    hide Size, Aligned, FlipBit, ClearBit;
    PairSpan(geo, g, o);
  }

  /** Two tiles of order `o`, one of them free, made one of the next order at the place of either. */
  lemma MergedMap(t: Tiles, g: nat, b: nat, p: nat, o: nat)
    requires g in t && t[g].order == o && !t[g].use.Free? && IsFree(t, b, o) && (p == g || p == b)
    ensures var t' := (t - {g, b})[p := Tile(o + 1, t[g].use)];
            && (forall h: nat, q: nat :: IsFree(t', h, q) <==> IsFree(t, h, q) && !(h == b && q == o))
            && Busy(t') - {p} == Busy(t) - {g}
  {
  }

  /** Swallowing the free buddy of the block in hand. */
  lemma JoinStep(geo: Geometry, mem: seq<Granule>, tags: seq<nat>, heads: seq<nat>, lists: seq<seq<nat>>, t: Tiles,
                 g: nat, o: nat, l: seq<nat>, mem': seq<Granule>, heads': seq<nat>)
    requires Represents(geo, mem, tags, heads, lists, t, g)
    requires g in t && t[g].order == o && !t[g].use.Free? && o + 1 < geo.top && o < |lists|
    requires BuddyOf(geo, g, o) in lists[o] && forall x :: x in l <==> x in lists[o] && x != BuddyOf(geo, g, o)
    requires Linked(BuddyLinks, mem', heads', lists[o := l]) && |mem'| == |mem|
    requires forall x :: 0 <= x < |mem| && mem'[x] != mem[x] ==> x in lists[o]
    ensures var u, p := SetBit(g, geo.lm + o), Parent(geo, g, o);
            && Shr(u, geo.lm) < |tags|
            && Represents(geo, mem', tags[Shr(u, geo.lm) := TAG_NONE], heads', lists[o := l], Join(geo, t, g), p)
            && p in Join(geo, t, g) && Join(geo, t, g)[p] == Tile(o + 1, t[g].use)
            && Busy(Join(geo, t, g)) - {p} == Busy(t) - {g}
    ensures Kept(geo, Busy(t), mem, mem')
  {
    hide Linked, Aligned, Shr, Shl, Merged, Size, Kept, TagsMatch, Members, SetBit, ClearBit, FlipBit;
    var b := BuddyOf(geo, g, o);
    var t' := Join(geo, t, g);
    ListPlaces(geo, t, lists, o);
    TilePlace(geo, t, g);
    JoinEnds(geo, g, o);
    TagIndex(geo, |tags|, SetBit(g, geo.lm + o));
    JoinKeeps(geo, t, g);
    TagsJoin(geo, tags, t, g);
    JoinMembers(geo, t, g, o, b);
    MembersDrop(t, t', lists, o, b, l);
    KeptOff(geo, t, Busy(t), mem, mem');
  }

  /** A free block of order `o` at `x`, where blocks of the region can lie. */
  predicate Listed(geo: Geometry, t: Tiles, o: nat, x: nat) {
    IsFree(t, x, o) && o < geo.top && x < geo.total && AtUnit(geo, x)
  }

  /** Granule `x` begins a unit. */
  predicate AtUnit(geo: Geometry, x: nat) { Aligned(x, geo.lm) }

  lemma LinkedOf(geo: Geometry, mem: seq<Granule>, tags: seq<nat>, heads: seq<nat>, lists: seq<seq<nat>>, t: Tiles,
                 hand: nat)
    requires Represents(geo, mem, tags, heads, lists, t, hand)
    ensures Linked(BuddyLinks, mem, heads, lists) && |mem| == geo.total && |heads| == |lists| >= geo.top
    ensures Tiled(geo, t) && Merged(geo, t) && Members(t, lists)
    ensures forall o, x: nat :: 0 <= o < |lists| && x in lists[o] ==> Listed(geo, t, o, x)
  {
    hide Linked, Members, Merged, TagsMatch, Tiled, Listed, Shl;
    LinkedLengths(mem, heads, lists);
    ListedPlaces(geo, t, lists);
  }

  lemma ListedPlaces(geo: Geometry, t: Tiles, lists: seq<seq<nat>>)
    requires Members(t, lists) && Tiled(geo, t)
    ensures forall o, x: nat :: 0 <= o < |lists| && x in lists[o] ==> Listed(geo, t, o, x)
  {
    hide Members, Tiled, Listed;
    forall o, x: nat | 0 <= o < |lists| && x in lists[o] ensures Listed(geo, t, o, x) {
      ListedPlace(geo, t, lists, o, x);
    }
  }

  lemma ListedPlace(geo: Geometry, t: Tiles, lists: seq<seq<nat>>, o: nat, x: nat)
    requires Members(t, lists) && Tiled(geo, t) && o < |lists| && x in lists[o]
    ensures Listed(geo, t, o, x)
  {
    hide Aligned;
    ListPlaces(geo, t, lists, o);
  }

  // ---- seeding -------------------------------------------------------------------------------

  /** The blocks of the seed of order `o` and above have been pushed; the rest is to be laid
      out from `off`. */
  ghost predicate PartlySeeded(geo: Geometry, units: nat, mem: seq<Granule>, tags: seq<nat>, heads: seq<nat>,
                               lists: seq<seq<nat>>, t: Tiles, mask: nat, o: nat, off: nat)
  {
    && |mem| == geo.total == Shl(|tags|, geo.lm) && geo.total < NULL && geo.top <= |lists| && |tags| == units
    && TagsMatch(geo, tags, t, NULL) && Members(t, lists) && MaskMatches(mask, lists)
    && Linked(BuddyLinks, mem, heads, lists)
    && (forall g :: g in t ==> g < off && t[g].use.Free?)
    && t + Decomposition(geo, units, o, off) == Decomposition(geo, units, geo.top, 0)
  }

  lemma EmptyState(geo: Geometry, mem: seq<Granule>, tags: seq<nat>, heads: seq<nat>, lists: seq<seq<nat>>)
    requires |mem| == geo.total == Shl(|tags|, geo.lm) && geo.total < NULL && geo.top <= |lists| == |heads|
    requires forall i :: 0 <= i < |tags| ==> tags[i] == TAG_NONE
    requires forall i :: 0 <= i < |heads| ==> heads[i] == NULL && lists[i] == []
    ensures PartlySeeded(geo, |tags|, mem, tags, heads, lists, map[], 0, geo.top, 0)
  {
    hide Shl, Decomposition;
    ZeroIff(0);
    assert map[] + Decomposition(geo, |tags|, geo.top, 0) == Decomposition(geo, |tags|, geo.top, 0);
    forall o: nat ensures Bit(0, o) <==> NonEmpty(lists, o) {
    }
  }

  /** The next block of the seed fits and is new. */
  lemma SeedRoom(geo: Geometry, units: nat, mem: seq<Granule>, tags: seq<nat>, heads: seq<nat>, lists: seq<seq<nat>>,
                 t: Tiles, mask: nat, o: nat, off: nat)
    requires PartlySeeded(geo, units, mem, tags, heads, lists, t, mask, o, off)
    requires 0 < o <= geo.top && Bit(units, o - 1) && units < Pow2(geo.top)
    ensures off < geo.total && Aligned(off, geo.lm) && Shr(off, geo.lm) < |tags|
    ensures Linked(BuddyLinks, mem, heads, lists) && forall p :: 0 <= p < |lists| ==> off !in lists[p]
  {
    hide Linked, MaskMatches, TagsMatch, Members, Aligned, Shl, Shr, Pow2, Bit;
    ShlIsMul(units, geo.lm);
    SeedIsTiled(geo, units);
    assert off in Decomposition(geo, units, o, off);
    TilePlace(geo, Decomposition(geo, units, geo.top, 0), off);
    TagIndex(geo, |tags|, off);
    NotListed(t, lists, off);
  }

  lemma SeedStep(geo: Geometry, units: nat, mem: seq<Granule>, tags: seq<nat>, heads: seq<nat>, lists: seq<seq<nat>>,
                 t: Tiles, mask: nat, o: nat, off: nat, mem': seq<Granule>, heads': seq<nat>)
    requires PartlySeeded(geo, units, mem, tags, heads, lists, t, mask, o + 1, off)
    requires o < |lists| && Bit(units, o) && Aligned(off, geo.lm) && Shr(off, geo.lm) < |tags|
    requires Linked(BuddyLinks, mem', heads', lists[o := [off] + lists[o]]) && |mem'| == |mem|
    ensures PartlySeeded(geo, units, mem', tags[Shr(off, geo.lm) := TAG_FREE + o], heads', lists[o := [off] + lists[o]],
                         t[off := Tile(o, Free)], SetBit(mask, o), o, off + Size(geo, o))
  {
    hide Linked, MaskMatches, TagsMatch, Members, Aligned, Shl, Shr, Size, Bit, SetBit;
    var t' := t[off := Tile(o, Free)];
    TagsUpdate(geo, tags, t, NULL, off, TAG_FREE + o, t', NULL) by {
      forall u: nat | u < |tags| ensures Shl(u, geo.lm) < geo.total { UnitBelow(geo, |tags|, u); }
    }
    MembersAdd(t, t', lists, o, off);
    MaskSet(mask, lists, o, [off] + lists[o]);
    DecompositionAbove(geo, units, o, off + Size(geo, o));
    assert t' + Decomposition(geo, units, o, off + Size(geo, o)) == t + Decomposition(geo, units, o + 1, off);
  }

  lemma SeedSkip(geo: Geometry, units: nat, mem: seq<Granule>, tags: seq<nat>, heads: seq<nat>, lists: seq<seq<nat>>,
                 t: Tiles, mask: nat, o: nat, off: nat)
    requires PartlySeeded(geo, units, mem, tags, heads, lists, t, mask, o + 1, off) && !Bit(units, o)
    ensures PartlySeeded(geo, units, mem, tags, heads, lists, t, mask, o, off)
  {
    hide Linked, MaskMatches, TagsMatch, Members, Bit;
  }

  lemma SeedDone(geo: Geometry, units: nat, mem: seq<Granule>, tags: seq<nat>, heads: seq<nat>, lists: seq<seq<nat>>,
                 t: Tiles, mask: nat, off: nat)
    requires PartlySeeded(geo, units, mem, tags, heads, lists, t, mask, 0, off) && units < Pow2(geo.top)
    ensures t == Decomposition(geo, units, geo.top, 0) && MaskMatches(mask, lists)
    ensures Represents(geo, mem, tags, heads, lists, t, NULL) && Weigh(geo, Busy(t)) == 0
  {
    hide Linked, MaskMatches, TagsMatch, Members, Shl, Pow2, Size;
    ShlIsMul(units, geo.lm);
    SeedIsTiled(geo, units);
    assert t + map[] == t;
    SumZero(geo.total);
    assert Weights(geo, map[]) == map[];
  }

  // ---- queries ---------------------------------------------------------------------------------

  lemma FindFreeOrderBits(mask: nat, o: nat, top: nat)
    ensures var m := Shr(mask, o);
            if m == 0 then forall j: nat :: o <= j ==> !Bit(mask, j)
            else Bit(mask, o + Ctz(m)) && forall j: nat :: o <= j < o + Ctz(m) ==> !Bit(mask, j)
  {
    hide Bit, Ctz, Shr;
    var m := Shr(mask, o);
    if m != 0 { CtzIsLowest(m); BitShr(mask, o, Ctz(m)); }
    ZeroIff(m);
    forall j: nat | o <= j && (m == 0 || j < o + Ctz(m)) ensures !Bit(mask, j) {
      BitShr(mask, o, j - o);
    }
  }

  lemma TakeInHand(geo: Geometry, mem: seq<Granule>, tags: seq<nat>, heads: seq<nat>, lists: seq<seq<nat>>, t: Tiles,
                   g: nat)
    requires Represents(geo, mem, tags, heads, lists, t, NULL) && g in t
    ensures Represents(geo, mem, tags, heads, lists, t, g)
    ensures forall kept: Tiles :: Kept(geo, kept, mem, mem)
  {
    hide Linked, Members, Merged, Tiled;
    TagsHand(geo, tags, t, NULL, g, t[g]);
    assert t[g := t[g]] == t;
  }

  /** The tag test of the merging loop finds exactly the free buddies. */
  lemma BuddyTag(geo: Geometry, mem: seq<Granule>, tags: seq<nat>, heads: seq<nat>, lists: seq<seq<nat>>, t: Tiles,
                 g: nat, o: nat)
    requires Represents(geo, mem, tags, heads, lists, t, g) && g in t && t[g].order == o && geo.top <= 63
    ensures var b := BuddyOf(geo, g, o);
            && (b < geo.total ==> Shr(b, geo.lm) < |tags|)
            && (IsFree(t, b, o) <==> b < geo.total && tags[Shr(b, geo.lm)] == TAG_FREE + o)
  {
    hide Linked, Members, Merged, Tiled, TagsMatch, Aligned, Shr, Shl, FlipBit, SetBit, ClearBit, Bit, Pow2;
    var b := BuddyOf(geo, g, o);
    TilePlace(geo, t, g);
    BuddyBits(g, geo.lm + o);
    AlignedWeaken(b, geo.lm, geo.lm + o);
    TagIndex(geo, |tags|, b);
    if b < geo.total {
      TagAt(geo, tags, t, g, b);
    }
    if b in t {
      TilePlace(geo, t, b);
    }
  }

  /** Tag bytes separate the kinds and the orders. */
  lemma TagDecodes(t: Tiles, g: nat)
    requires g in t ==> t[g].order < 63
    ensures var v := TagOf(t, g);
            && (v / 64 % 2 == 1 <==> g in t && !t[g].use.Free?)
            && (v / 64 * 64 == TAG_SHEET <==> g in t && t[g].use.Sheet?)
            && (g in t ==> v % 64 == t[g].order)
            && (forall o: nat :: o < 63 && v == TAG_FREE + o <==> IsFree(t, g, o))
  {
  }

  /** The mask search finds an order exactly when some aligned run can serve the request. */
  lemma MaskComplete(geo: Geometry, mem: seq<Granule>, tags: seq<nat>, heads: seq<nat>, lists: seq<seq<nat>>, t: Tiles,
                     mask: nat, o: nat)
    requires Represents(geo, mem, tags, heads, lists, t, NULL) && MaskMatches(mask, lists)
    ensures (exists j: nat :: o <= j < geo.top && Bit(mask, j)) <==> Servable(geo, t, o)
    ensures forall j: nat :: Bit(mask, j) ==> j < geo.top && NonEmpty(lists, j)
  {
    hide Linked, TagsMatch, Bit, Servable, Pow2, Aligned;
    LinkedOf(geo, mem, tags, heads, lists, t, NULL);
    ServableIffRun(geo, t, o);
    forall j: nat | Bit(mask, j) ensures j < geo.top && NonEmpty(lists, j) {
      var x := ListedOf(t, lists, mask, j);
      TilePlace(geo, t, x);
    }
    if j: nat :| o <= j < geo.top && Bit(mask, j) {
      var x := ListedOf(t, lists, mask, j);
      assert x in t && t[x].use.Free? && t[x].order >= o;
    }
    if f: nat :| f in t && t[f].use.Free? && t[f].order >= o {
      TilePlace(geo, t, f);
      MemberOf(t, lists, f);
      assert NonEmpty(lists, t[f].order);
    }
  }

  lemma NotServableAbove(geo: Geometry, t: Tiles, o: nat)
    ensures o >= geo.top ==> !Servable(geo, t, o)
  {
  }

  lemma MaskFinds(geo: Geometry, mem: seq<Granule>, tags: seq<nat>, heads: seq<nat>, lists: seq<seq<nat>>, t: Tiles,
                  mask: nat, o: nat, i: nat)
    requires Represents(geo, mem, tags, heads, lists, t, NULL) && MaskMatches(mask, lists)
    requires i < geo.top ==> o <= i && Bit(mask, i)
    requires forall j: nat :: o <= j < i && j < geo.top ==> !Bit(mask, j)
    ensures i < geo.top <==> Servable(geo, t, o)
    ensures i < geo.top ==> NonEmpty(lists, i)
    ensures forall j: nat, x: nat :: o <= j < i && j < geo.top ==> !IsFree(t, x, j)
  {
    hide Represents, MaskMatches, Servable, Bit;
    MaskComplete(geo, mem, tags, heads, lists, t, mask, o);
    forall j: nat, x: nat | o <= j < i && j < geo.top ensures !IsFree(t, x, j) {
      FreeHasBit(geo, mem, tags, heads, lists, t, mask, j, x);
    }
  }

  lemma FreeHasBit(geo: Geometry, mem: seq<Granule>, tags: seq<nat>, heads: seq<nat>, lists: seq<seq<nat>>, t: Tiles,
                   mask: nat, j: nat, x: nat)
    requires Represents(geo, mem, tags, heads, lists, t, NULL) && MaskMatches(mask, lists)
    ensures IsFree(t, x, j) ==> Bit(mask, j)
  {
    hide Bit, Linked, Tiled, Merged, TagsMatch, Shl;
    assert InList(lists, j, x) <==> IsFree(t, x, j);
    assert Bit(mask, j) <==> NonEmpty(lists, j);
  }

  /** `g` starts a free tile of the least order, from `o` on, of which there is one. */
  ghost predicate BestFit(geo: Geometry, t: Tiles, o: nat, g: nat) {
    && g in t && t[g].use.Free? && o <= t[g].order
    && forall j: nat, x: nat :: o <= j < t[g].order ==> !IsFree(t, x, j)
  }

  lemma ListedOf(t: Tiles, lists: seq<seq<nat>>, mask: nat, j: nat) returns (x: nat)
    requires Members(t, lists) && MaskMatches(mask, lists) && Bit(mask, j)
    ensures IsFree(t, x, j) && NonEmpty(lists, j)
  {
    hide Bit;
    assert NonEmpty(lists, j);
    x := lists[j][0];
    assert InList(lists, j, x);
  }

  lemma KeptSub(geo: Geometry, kept: Tiles, less: Tiles, m: seq<Granule>, m': seq<Granule>)
    requires Kept(geo, kept, m, m')
    requires forall h :: h in less ==> h in kept && less[h].order <= kept[h].order
    ensures Kept(geo, less, m, m')
  {
    hide Pow2;
    forall h: nat, x: nat | Covers(geo, less, h, x) && x < |m| ensures m'[x] == m[x] {
      Pow2Mono(geo.lm + less[h].order, geo.lm + kept[h].order);
      assert Covers(geo, kept, h, x);
    }
  }

  /** The block in hand is granted: its tag is written. */
  lemma GrantStep(geo: Geometry, mem: seq<Granule>, tags: seq<nat>, heads: seq<nat>, lists: seq<seq<nat>>, t: Tiles,
                  hand: nat, g: nat, use: Use)
    requires Represents(geo, mem, tags, heads, lists, t, hand) && (hand == g || hand == NULL)
    requires g in t && !t[g].use.Free? && !use.Free?
    ensures Shr(g, geo.lm) < |tags|
    ensures var t' := t[g := Tile(t[g].order, use)];
            && Represents(geo, mem, tags[Shr(g, geo.lm) := KindTag(use) + t[g].order], heads, lists, t', NULL)
            && Busy(t') == Busy(t)[g := Tile(t[g].order, use)]
  {
    hide Linked, TagsMatch, Members, Merged, Shr, Shl, Aligned, Size;
    var t' := t[g := Tile(t[g].order, use)];
    TilePlace(geo, t, g);
    TagIndex(geo, |tags|, g);
    RetagKeeps(geo, t, g, use);
    TagsRetag(geo, tags, t, hand, g, use);
    MembersSame(t, t', lists);
  }

  // ---- in-place growth ----------------------------------------------------------------------------

  /** A block aligned to a larger order is the lower of every pair on the way up. */
  lemma GrowEnds(geo: Geometry, g: nat, j: nat, want: nat)
    requires j < want && Aligned(g, geo.lm + want)
    ensures BuddyOf(geo, g, j) == SetBit(g, geo.lm + j) == g + Size(geo, j) && Parent(geo, g, j) == g
    ensures Aligned(g, geo.lm + j) && Aligned(g + Size(geo, j), geo.lm)
  {
    hide Aligned, SetBit, FlipBit, ClearBit, Bit;
    AlignedWeaken(g, geo.lm + j + 1, geo.lm + want);
    AlignedWeaken(g, geo.lm + j, geo.lm + want);
    BuddyBits(g, geo.lm + j);
    JoinEnds(geo, g, j);
  }

  /** The tag test of the checking pass finds exactly the free upper buddies. */
  lemma UpperTag(geo: Geometry, mem: seq<Granule>, tags: seq<nat>, heads: seq<nat>, lists: seq<seq<nat>>, t: Tiles,
                 hand: nat, g: nat, j: nat, want: nat)
    requires Represents(geo, mem, tags, heads, lists, t, hand) && geo.top <= 63 && (hand == NULL || hand == g)
    requires j < want < geo.top && Aligned(g, geo.lm + want)
    ensures var u := g + Size(geo, j);
            && (u < geo.total ==> Shr(u, geo.lm) < |tags|)
            && (UpperFree(geo, t, g, j) <==> u < geo.total && tags[Shr(u, geo.lm)] == TAG_FREE + j)
  {
    hide Linked, Members, Merged, Tiled, TagsMatch, Aligned, Shr, Shl, Size;
    var u := g + Size(geo, j);
    GrowEnds(geo, g, j, want);
    TagIndex(geo, |tags|, u);
    if u < geo.total {
      TagAt(geo, tags, t, hand, u);
    }
    if u in t {
      TilePlace(geo, t, u);
    }
  }

  /** Absorbing one upper buddy leaves the others free. */
  lemma UpperStill(geo: Geometry, t: Tiles, g: nat, j: nat, want: nat)
    requires g in t && t[g].order == j < want && Aligned(g, geo.lm + want)
    requires UpperBuddiesFree(geo, t, g, j, want)
    ensures UpperBuddiesFree(geo, Join(geo, t, g), g, j + 1, want)
  {
    hide Aligned, FlipBit, ClearBit, Pow2;
    GrowEnds(geo, g, j, want);
    forall i: nat | j + 1 <= i < want ensures UpperFree(geo, Join(geo, t, g), g, i) {
      assert UpperFree(geo, t, g, i);
      Pow2Mono(geo.lm + j, geo.lm + i);
    }
  }
}
