/** The TLSF tier (`__tlsf_list`): boundary-tag blocks in fixed sheets, filed by size class.

    Positions and block sizes are granules; `size` arguments of the mapping are bytes. */
module TlsfTier {
  import opened Bits
  import opened Granules
  import opened Links
  import opened Mapping
  import opened Sums
  import opened TlsfState
  import opened BuddyTier

  /** Size in granules of the header word, and whether it says "free". */
  function Bsize(w: nat): nat { w / 16 }

  predicate IsFreeWord(w: nat) { w % 4 == 0 }

  /** Granules a request of `n` bytes takes, header included; 0 if no sheet could hold it. */
  function Adjusted(cfg: Config, n: nat): nat {
    if n == 0 || n > 16 * DataSpan(cfg) then 0 else (n + 31) / 16
  }

  class Tlsf {
    const cfg: Config
    const mem: array<Granule>
    const heads: array<nat>
    const slBits: array<nat>
    const tableFl: seq<nat>
    const tableSl: seq<nat>
    var flBits: nat
    var allocatedBytes: nat
    var count: nat
    ghost var lists: seq<seq<nat>>
    ghost var sheets: set<nat>
    ghost var blocks: Blocks

    ghost predicate Layout() {
      && Sound(cfg)
      && heads.Length == ListCount(cfg) && slBits.Length == FlCount(cfg) && heads != slBits
      && TableAgrees(cfg, tableFl, tableSl)
    }

    ghost function Now(): View
      reads this, mem, heads, slBits
    {
      View(mem[..], heads[..], slBits[..], flBits, lists, sheets, blocks)
    }

    /** The representation, with the headers of `xw` and `xp` not yet settled. */
    ghost predicate State(xw: set<nat>, xp: set<nat>)
      reads this, mem, heads, slBits
    {
      Layout() && Rep(cfg, Now(), xw, xp)
    }

    /** `insert_free` */
    method InsertFree(off: nat, bs: nat, ghost xw: set<nat>, ghost xp: set<nat>, ghost kept: Blocks)
      requires State(xw, xp) && off in blocks && blocks[off].use.Hand? && blocks[off].size == bs
      requires !IsVacant(blocks, off + bs) && !IsVacant(blocks, blocks[off].prev) && PartOf(kept, blocks)
      modifies this`lists, this`blocks, this`flBits, heads, slBits, mem
      ensures State(xw, xp) && blocks == WithUse(old(blocks), off, Vacant) && cfg.slLog <= 5 && bs >= 2
      ensures var i := Index(cfg.slLog, 16 * bs); i < |old(lists)| && lists == old(lists)[i := [off] + old(lists)[i]]
      ensures PartOf(kept, blocks) && Spared(cfg, sheets, kept, old(mem[..]), mem[..])
      ensures forall x :: 0 <= x < mem.Length ==> mem[x].w0 == old(mem[x].w0) && mem[x].w1 == old(mem[x].w1)
    {
      hide Rep, Linked, BitsMatch, OnlyOwn, Pow2, SetBit, Sound, Fl, Sl, WithUse, Index, At, Spared, PartOf, LiveSizes;
      ghost var v := Now();
      ClassOf(cfg, v, xw, xp, off);
      ParamBounds(cfg, v, xw, xp);
      var fl, sl := Fl(16 * bs), Sl(cfg.slLog, 16 * bs);
      var idx := fl * Pow2(cfg.slLog) + sl;
      AtIs(Pow2(cfg.slLog), fl, sl);
      HeadOf(TlsfLinks, v.mem, v.heads, lists, idx);
      var head := heads[idx];
      mem[off] := mem[off].(w2 := head);
      if head != NULL {
        mem[head] := mem[head].(w3 := off);
      }
      LinkedPush(TlsfLinks, v.mem, mem[..], v.heads, lists, idx, off);
      heads[idx] := off;
      assert heads[..] == v.heads[idx := off];
      BitsOf(cfg, v, xw, xp);
      BitsSet(Pow2(cfg.slLog), v.slBits, v.flBits, lists, fl, sl, [off] + lists[idx]);
      slBits[fl] := SetBit(slBits[fl], sl);
      flBits := SetBit(flBits, fl);
      assert slBits[..] == v.slBits[fl := SetBit(v.slBits[fl], sl)];
      assert Relinked(v.mem, mem[..], v.lists[idx], off);
      InsertStep(cfg, v, xw, xp, off, idx, mem[..], heads[..], slBits[..], flBits);
      SpareRep(cfg, v, xw, xp, kept, mem[..]);
      NotLive(blocks, off, kept);
      UseLent(blocks, off, Vacant, kept);
      lists := lists[idx := [off] + lists[idx]];
      blocks := WithUse(blocks, off, Vacant);
    }

    /** `__clear_if_empty`: list `idx` has become `l`, which starts at `headNow`. */
    method ClearIfEmpty(idx: nat, headNow: nat, ghost ls: seq<seq<nat>>, ghost l: seq<nat>)
      requires Layout() && BitsMatch(Pow2(cfg.slLog), slBits[..], flBits, ls)
      requires NonEmpty(ls, idx) && (headNow == NULL <==> l == [])
      modifies this`flBits, slBits
      ensures BitsMatch(Pow2(cfg.slLog), slBits[..], flBits, ls[idx := l])
    {
      hide BitsMatch, Pow2, Shr, ClearBit, Sound, At;
      ghost var sl0, fl0 := slBits[..], flBits;
      IndexParts(cfg, slBits[..], flBits, ls, idx);
      var fl, sl := Shr(idx, cfg.slLog), idx % Pow2(cfg.slLog);
      BitsDrop(Pow2(cfg.slLog), sl0, fl0, ls, fl, sl, l);
      var s := if headNow == NULL then ClearBit(slBits[fl], sl) else slBits[fl];
      slBits[fl] := s;
      assert slBits[..] == sl0[fl := s];
      flBits := if s == 0 then ClearBit(flBits, fl) else flBits;
    }

    /** `remove_free` */
    method RemoveFree(off: nat, bs: nat, ghost xw: set<nat>, ghost xp: set<nat>, ghost kept: Blocks)
      requires State(xw, xp) && IsVacant(blocks, off) && blocks[off].size == bs && PartOf(kept, blocks)
      modifies this`lists, this`blocks, this`flBits, heads, slBits, mem
      ensures State(xw, xp) && blocks == WithUse(old(blocks), off, Hand)
      ensures PartOf(kept, blocks) && Spared(cfg, sheets, kept, old(mem[..]), mem[..])
      ensures forall x :: 0 <= x < mem.Length ==> mem[x].w0 == old(mem[x].w0) && mem[x].w1 == old(mem[x].w1)
    {
      hide Rep, Linked, BitsMatch, OnlyOwn, Pow2, Sound, Fl, Sl, WithUse, Index, At, Spared, PartOf, LiveSizes;
      ghost var v := Now();
      ClassOf(cfg, v, xw, xp, off);
      ParamBounds(cfg, v, xw, xp);
      BitsOf(cfg, v, xw, xp);
      var fl, sl := Fl(16 * bs), Sl(cfg.slLog, 16 * bs);
      var idx := fl * Pow2(cfg.slLog) + sl;
      AtIs(Pow2(cfg.slLog), fl, sl);
      ghost var i := NodeAt(TlsfLinks, v.mem, v.heads, lists, idx, off);
      ghost var l := Without(lists[idx], i);
      var nx, pv, head := mem[off].w2, mem[off].w3, heads[idx];
      var isHead := head == off;
      if isHead {
        heads[idx] := nx;
        assert heads[..] == v.heads[idx := nx] && mem[..] == v.mem && l == lists[idx][1..];
        LinkedPop(TlsfLinks, v.mem, v.heads, lists, idx);
      } else {
        mem[pv] := mem[pv].(w2 := nx);
        if nx != NULL {
          mem[nx] := mem[nx].(w3 := pv);
        }
        LinkedRemove(TlsfLinks, v.mem, mem[..], v.heads, lists, idx, i);
        assert heads[..] == v.heads;
      }
      HeadAfter(mem[..], heads[..], lists, idx, l);
      ClearIfEmpty(idx, if isHead then nx else head, lists, l);
      assert Relinked(v.mem, mem[..], v.lists[idx], off);
      DropStep(cfg, v, xw, xp, off, idx, l, mem[..], heads[..], slBits[..], flBits);
      SpareRep(cfg, v, xw, xp, kept, mem[..]);
      NotLive(blocks, off, kept);
      UseLent(blocks, off, Hand, kept);
      lists := lists[idx := l];
      blocks := WithUse(blocks, off, Hand);
    }

    // ---- search --------------------------------------------------------------------------------------------

    /** `__find_exact`: the head of the size's own list, if it is large enough. */
    method FindExact(size: nat) returns (off: nat, idx: nat)
      requires State({}, {}) && size >= 32
      ensures off != NULL <==> Exact(cfg.slLog, lists, blocks, size)
      ensures off != NULL ==> idx == Index(cfg.slLog, size) && NonEmpty(lists, idx) && off == lists[idx][0]
    {
      hide Rep, Linked, Pow2, Sound, Fl, Sl, Index, At, FlCount;
      ParamBounds(cfg, Now(), {}, {});
      BitsOf(cfg, Now(), {}, {});
      var fl, sl := Fl(size), Sl(cfg.slLog, size);
      IndexAt(cfg, size);
      if fl >= FlCount(cfg) {
        NoListAbove(cfg, Now(), fl, sl);
        return NULL, 0;
      }
      idx := fl * Pow2(cfg.slLog) + sl;
      AtIs(Pow2(cfg.slLog), fl, sl);
      AtInRange(Pow2(cfg.slLog), fl, sl, FlCount(cfg));
      ListHead(cfg, Now(), idx);
      off := heads[idx];
      if off != NULL && 16 * Bsize(mem[off].w0) >= size {
        return;
      }
      off := NULL;
    }

    /** `find_free`: the lowest non-empty list at or above the search class; failing that, the exact
        fallback. */
    method FindFree(size: nat) returns (off: nat, idx: nat)
      requires State({}, {}) && size >= 32 && size % 16 == 0
      ensures off != NULL <==> Findable(cfg.slLog, lists, blocks, size)
      ensures off != NULL ==> Hit(cfg.slLog, lists, blocks, size, off, idx)
    {
      hide Rep, Pow2, DataSpan, SearchFl, SearchSl, Keep, Ctz, Above, Exact, Findable, Hit, FlCount, TableMax, Index,
           LowestAbove;
      ParamBounds(cfg, Now(), {}, {});
      SpanFacts(cfg);
      var fl, sl := SearchClass(size);
      if fl >= FlCount(cfg) {
        NothingAbove(cfg, Now(), size);
        off, idx := FindExact(size);
        HitExact(cfg, Now(), size);
        return;
      }
      BitsOf(cfg, Now(), {}, {});
      var m := Keep(slBits[fl], sl);
      if m != 0 {
        AtIs(Pow2(cfg.slLog), fl, Ctz(m));
        idx := fl * Pow2(cfg.slLog) + Ctz(m);
        FindInLevel(cfg, Now(), size, fl, sl, m);
        HitAbove(cfg, Now(), size, idx);
        return heads[idx], idx;
      }
      var fm := Keep(flBits, fl + 1);
      if fm != 0 {
        var hf := Ctz(fm);
        FindInNext(cfg, Now(), size, fl, sl, fm);
        AtIs(Pow2(cfg.slLog), hf, Ctz(slBits[hf]));
        idx := hf * Pow2(cfg.slLog) + Ctz(slBits[hf]);
        HitAbove(cfg, Now(), size, idx);
        return heads[idx], idx;
      }
      FindNone(cfg, Now(), size, fl, sl);
      off, idx := FindExact(size);
      HitExact(cfg, Now(), size);
    }

    /** The search class: from the table in its range, computed otherwise. */
    method SearchClass(size: nat) returns (fl: nat, sl: nat)
      requires Layout() && size >= 32 && size % 16 == 0 && cfg.slLog <= 5
      ensures fl == SearchFl(cfg.slLog, size) && sl == SearchSl(cfg.slLog, size)
    {
      hide Sound, SearchFl, SearchSl, TableMax, FlCount, ListCount;
      if size <= 16 * TableMax(cfg) {
        assert 16 * (size / 16) == size;
        return tableFl[size / 16], tableSl[size / 16];
      }
      return SearchFl(cfg.slLog, size), SearchSl(cfg.slLog, size);
    }

    // ---- marks and headers ------------------------------------------------------------------------------------

    /** `__mark` (`on`) and `__unmark`. */
    method Mark(off: nat, on: bool, ghost xw: set<nat>, ghost xp: set<nat>, ghost kept: Blocks)
      requires State(xw, xp) && off in xw && off in blocks
               && (if on then blocks[off].use.Hand? else blocks[off].use.Live?)
      requires PartOf(kept, blocks) && off !in kept
      modifies this`blocks, mem
      ensures State(xw, xp) && blocks == WithUse(old(blocks), off, if on then Live else Hand)
      ensures PartOf(kept, blocks) && Spared(cfg, sheets, kept, old(mem[..]), mem[..])
      ensures forall x: nat :: x < mem.Length && IsHeader(cfg, old(blocks), sheets, x) ==> mem[x] == old(mem[x])
    {
      hide Rep, OnlyOwn, Spared, PartOf, Sound, WithUse, SheetOf, MarkedGranule, IsHeader, LiveSizes;
      ghost var v := Now();
      MarkPlace(cfg, v, xw, xp, off);
      var p := off + 1;
      var c := SheetOf(cfg, p) + 1 + (p - SheetOf(cfg, p)) / 128;
      mem[c] := MarkedGranule(cfg, mem[c], p, on);
      assert mem[..] == v.mem[c := MarkedGranule(cfg, v.mem[c], p, on)];
      MarkStep(cfg, v, xw, xp, off, on, mem[..]);
      assert xw + {off} == xw;
      SpareRep(cfg, v, xw, xp, kept, mem[..]);
      UseLent(blocks, off, if on then Live else Hand, kept);
      blocks := WithUse(blocks, off, if on then Live else Hand);
    }

    /** Writing the size word of a block. */
    method SetSize(off: nat, w: nat, ghost xw: set<nat>, ghost xp: set<nat>, ghost kept: Blocks)
      requires State(xw, xp) && off in blocks && off in xw && off in xp && PartOf(kept, blocks)
      modifies mem
      ensures State(xw, xp) && off < mem.Length && mem[..] == old(mem[..])[off := old(mem[..])[off].(w0 := w)]
      ensures Spared(cfg, sheets, kept, old(mem[..]), mem[..])
    {
      hide Rep, OnlyOwn, Spared, PartOf, Sound, SheetOf;
      ghost var v := Now();
      BlockFacts(cfg, v, xw, xp, off);
      mem[off] := mem[off].(w0 := w);
      assert mem[..] == v.mem[off := v.mem[off].(w0 := w)];
      WriteStep(cfg, v, xw, xp, off, mem[..]);
      assert xw + {off} == xw && xp + {off} == xp;
      SpareRep(cfg, v, xw, xp, kept, mem[..]);
    }

    /** Writing the back link of a header. */
    method SetPrev(off: nat, w: nat, ghost xw: set<nat>, ghost xp: set<nat>, ghost kept: Blocks)
      requires State(xw, xp) && off < mem.Length && off in xw && off in xp && PartOf(kept, blocks)
      requires IsHeader(cfg, blocks, sheets, off)
      modifies mem
      ensures State(xw, xp) && mem[..] == old(mem[..])[off := old(mem[..])[off].(w1 := w)]
      ensures Spared(cfg, sheets, kept, old(mem[..]), mem[..])
    {
      hide Rep, OnlyOwn, Spared, PartOf, Sound, IsHeader;
      ghost var v := Now();
      mem[off] := mem[off].(w1 := w);
      assert mem[..] == v.mem[off := v.mem[off].(w1 := w)];
      WriteStep(cfg, v, xw, xp, off, mem[..]);
      assert xw + {off} == xw && xp + {off} == xp;
      SpareRep(cfg, v, xw, xp, kept, mem[..]);
    }

    /** Cutting a block that is not free: the rest becomes a free block, whose header and back link
        are written; the block's own size word is left to the caller. */
    method Carve(off: nat, take: nat, bs: nat, ghost xp: set<nat>, ghost kept: Blocks)
      requires xp <= {off + bs} && State({off}, xp) && off in blocks && !blocks[off].use.Vacant?
               && blocks[off].size == bs
      requires 2 <= take && take + 2 <= bs && !IsVacant(blocks, off + bs)
      requires PartOf(kept, blocks) && (off in kept ==> kept[off].size <= take)
      modifies this`lists, this`blocks, this`flBits, heads, slBits, mem
      ensures State({off}, {}) && off < mem.Length && mem[off].w1 == old(mem[off].w1)
      ensures blocks == CarveBlocks(old(blocks), off, take)
      ensures PartOf(kept, blocks) && Spared(cfg, sheets, kept, old(mem[..]), mem[..])
    {
      hide Rep, Sound, SplitBlocks, PartOf, Spared, WithUse, IsVacant;
      ghost var m0 := mem[..];
      CutLoose(off, take, bs, xp, kept);
      ghost var m1 := mem[..];
      InsertFree(off + take, bs - take, {off}, {}, kept);
      SpareTrans(cfg, sheets, kept, m0, m1, mem[..]);
    }

    /** The rest of a cut, not yet filed. */
    method CutLoose(off: nat, take: nat, bs: nat, ghost xp: set<nat>, ghost kept: Blocks)
      requires xp <= {off + bs} && State({off}, xp) && off in blocks && !blocks[off].use.Vacant?
               && blocks[off].size == bs
      requires 2 <= take && take + 2 <= bs && !IsVacant(blocks, off + bs)
      requires PartOf(kept, blocks) && (off in kept ==> kept[off].size <= take)
      modifies this`blocks, mem
      ensures State({off}, {}) && off < mem.Length && mem[off].w1 == old(mem[off].w1)
      ensures blocks == SplitBlocks(old(blocks), off, take) && CutShape(cfg, old(blocks), sheets, off, take)
      ensures PartOf(kept, blocks) && Spared(cfg, sheets, kept, old(mem[..]), mem[..])
    {
      hide Rep, Sound, SplitBlocks, PartOf, Spared, IsHeader, SizeWord, IsVacant;
      ghost var v := Now();
      var rem, n := off + take, off + bs;
      NextFacts(cfg, v, {off}, xp, off);
      SplitStep(cfg, v, {off}, xp, off, take);
      SplitLent(blocks, off, take, kept);
      SplitShape(cfg, v, xp, off, take);
      blocks := SplitBlocks(blocks, off, take);
      Loosen(cfg, Now(), {off} + {off, rem}, xp + {rem, n}, {off, rem, n}, {rem, n});
      SetSize(rem, 16 * (bs - take), {off, rem, n}, {rem, n}, kept);
      ghost var m1 := mem[..];
      SetPrev(rem, off, {off, rem, n}, {rem, n}, kept);
      SpareTrans(cfg, sheets, kept, v.mem, m1, mem[..]);
      m1 := mem[..];
      SetPrev(n, rem, {off, rem, n}, {rem, n}, kept);
      SpareTrans(cfg, sheets, kept, v.mem, m1, mem[..]);
      CarveSettle(cfg, v, xp, off, take, mem[..]);
    }

    /** Swallowing the free block behind a block that is not free. */
    method Absorb(off: nat, bs: nat, nb: nat, ghost xw: set<nat>, ghost xp: set<nat>, ghost kept: Blocks)
      requires off in blocks && !blocks[off].use.Vacant? && blocks[off].size == bs
      requires IsVacant(blocks, off + bs) && blocks[off + bs].size == nb && OnlyHand(blocks, off)
               && PartOf(kept, blocks)
      requires State(xw, xp)
      modifies this`lists, this`blocks, this`flBits, heads, slBits, mem
      ensures State(xw + {off}, xp - {off + bs} + {off + bs + nb})
      ensures off in blocks && blocks[off] == old(blocks)[off].(size := bs + nb)
      ensures !IsVacant(blocks, off + bs + nb) && OnlyHand(blocks, off)
      ensures IsVacant(blocks, blocks[off].prev) <==> IsVacant(old(blocks), blocks[off].prev)
      ensures LiveSizes(blocks) == if blocks[off].use.Live? then LiveSizes(old(blocks))[off := bs + nb]
              else LiveSizes(old(blocks))
      ensures PartOf(kept, blocks) && Spared(cfg, sheets, kept, old(mem[..]), mem[..])
      ensures forall x :: 0 <= x < mem.Length ==> mem[x].w0 == old(mem[x].w0) && mem[x].w1 == old(mem[x].w1)
    {
      hide Rep, Sound, PartOf, Spared, WithUse, IsHeader, Calm, Apart, OnlyHand, LiveSizes;
      ghost var v, n := Now(), off + bs;
      ShapeOf(cfg, v, xw, xp);
      AbsorbShape(blocks, off, n);
      RemoveFree(off + bs, nb, xw, xp, kept);
      WithUseAt(v.blocks, n, Hand);
      MergeStep(cfg, Now(), xw, xp, off, n, n + nb);
      UseLent(v.blocks, n, Hand, kept) by { NotLive(v.blocks, n, kept); }
      MergeLent(blocks, off, kept);
      blocks := MergeBlocks(blocks, off);
      DropInside(cfg, Now(), xw + {off}, xp + {n + nb}, off, n);
      assert (xp + {n + nb}) - {n} == xp - {n} + {n + nb};
    }

    /** Frees nothing by itself: the block in hand takes in a free block behind it, if there is one. */
    method MergeNext(off: nat, bs: nat, ghost xw: set<nat>, ghost xp: set<nat>, ghost kept: Blocks) returns (size: nat)
      requires State(xw, xp) && off in blocks && blocks[off].use.Hand? && blocks[off].size == bs
      requires OnlyHand(blocks, off) && off + bs !in xw && PartOf(kept, blocks)
      modifies this`lists, this`blocks, this`flBits, heads, slBits, mem
      ensures State(xw + {off}, xp - {off + bs} + {off + size}) && size >= bs
      ensures off in blocks && blocks[off] == old(blocks)[off].(size := size)
      ensures !IsVacant(blocks, off + size) && OnlyHand(blocks, off)
      ensures IsVacant(blocks, blocks[off].prev) <==> IsVacant(old(blocks), blocks[off].prev)
      ensures LiveSizes(blocks) == LiveSizes(old(blocks))
      ensures PartOf(kept, blocks) && Spared(cfg, sheets, kept, old(mem[..]), mem[..])
      ensures forall x :: 0 <= x < mem.Length ==> mem[x].w0 == old(mem[x].w0) && mem[x].w1 == old(mem[x].w1)
    {
      hide Rep, Sound, PartOf, Spared, OnlyHand, LiveSizes;
      NextWord(cfg, Now(), xw, xp, off);
      SpareSelf(cfg, sheets, kept, mem[..]);
      var next := off + bs;
      if IsFreeWord(mem[next].w0) {
        var nb := Bsize(mem[next].w0);
        Absorb(off, bs, nb, xw, xp, kept);
        return bs + nb;
      }
      Loosen(cfg, Now(), xw, xp, xw + {off}, xp - {off + bs} + {off + bs});
      return bs;
    }

    /** A free block takes in the block in hand behind it. */
    method AbsorbBack(prev: nat, pb: nat, off: nat, bs: nat, ghost xp: set<nat>, ghost kept: Blocks)
      requires State({off}, xp) && off in blocks && blocks[off].use.Hand? && blocks[off].size == bs
      requires IsVacant(blocks, prev) && blocks[prev].size == pb && off == prev + pb
      requires OnlyHand(blocks, off) && xp <= {off + bs} && !IsVacant(blocks, off + bs) && PartOf(kept, blocks)
      modifies this`lists, this`blocks, this`flBits, heads, slBits, mem
      ensures prev in blocks && blocks[prev].use.Hand? && blocks[prev].size == pb + bs && off !in blocks
      ensures State({off, prev}, {off + bs})
      ensures !IsVacant(blocks, off + bs) && !IsVacant(blocks, blocks[prev].prev) && OnlyHand(blocks, prev)
      ensures LiveSizes(blocks) == LiveSizes(old(blocks))
      ensures PartOf(kept, blocks) && Spared(cfg, sheets, kept, old(mem[..]), mem[..])
    {
      hide Rep, Sound, PartOf, Spared, OnlyHand, LiveSizes, WithUse, SheetOf, Calm, Apart, IsHeader, Backed;
      ghost var v := Now();
      BlockFacts(cfg, v, {off}, xp, prev);
      ShapeOf(cfg, v, {off}, xp);
      BackShape(blocks, prev, off);
      RemoveFree(prev, pb, {off}, xp, kept);
      WithUseAt(v.blocks, prev, Hand);
      MergeStep(cfg, Now(), {off}, xp, prev, off, off + bs);
      UseLent(v.blocks, prev, Hand, kept) by { NotLive(v.blocks, prev, kept); }
      MergeLent(blocks, prev, kept);
      blocks := MergeBlocks(blocks, prev);
      Loosen(cfg, Now(), {off} + {prev}, xp + {off + bs}, {off, prev}, {off + bs});
    }

    /** The block in hand is taken in by a free block before it, if there is one. */
    method MergePrev(off: nat, bs: nat, ghost xp: set<nat>, ghost kept: Blocks) returns (o: nat, size: nat)
      requires State({off}, xp) && off in blocks && blocks[off].use.Hand? && blocks[off].size == bs
      requires OnlyHand(blocks, off) && xp <= {off + bs} && !IsVacant(blocks, off + bs) && PartOf(kept, blocks)
      modifies this`lists, this`blocks, this`flBits, heads, slBits, mem
      ensures o in blocks && blocks[o].use.Hand? && blocks[o].size == size && o + size == off + bs
      ensures State({off, o}, {o + size}) && (off == o || off !in blocks)
      ensures !IsVacant(blocks, o + size) && !IsVacant(blocks, blocks[o].prev) && OnlyHand(blocks, o)
      ensures LiveSizes(blocks) == LiveSizes(old(blocks)) && SheetOf(cfg, o) == SheetOf(cfg, off)
      ensures PartOf(kept, blocks) && Spared(cfg, sheets, kept, old(mem[..]), mem[..])
    {
      hide Rep, Sound, PartOf, Spared, OnlyHand, LiveSizes, SheetOf, IsHeader;
      ghost var v := Now();
      BlockFacts(cfg, v, {off}, xp, off);
      PrevWord(cfg, v, {off}, xp, off);
      SpareSelf(cfg, sheets, kept, mem[..]);
      var prev := mem[off].w1;
      if IsFreeWord(mem[prev].w0) {
        var pb := Bsize(mem[prev].w0);
        NextFacts(cfg, v, {off}, xp, prev);
        AbsorbBack(prev, pb, off, bs, xp, kept);
        return prev, pb + bs;
      }
      Loosen(cfg, Now(), {off}, xp, {off, off}, {off + bs});
      return off, bs;
    }

    /** Writing a block's size word and the back link behind it settles everything. */
    method Seal(o: nat, bs: nat, w: nat, ghost xw: set<nat>, ghost kept: Blocks)
      requires State(xw, {o + bs}) && o in blocks && blocks[o].size == bs && w == SizeWord(blocks[o])
      requires (forall g :: g in xw ==> g == o || g !in blocks) && PartOf(kept, blocks)
      modifies mem
      ensures State({}, {}) && Spared(cfg, sheets, kept, old(mem[..]), mem[..])
    {
      hide Rep, Sound, PartOf, Spared, IsHeader, SheetOf, SizeWord;
      ghost var v, n := Now(), o + bs;
      NextFacts(cfg, v, xw, {n}, o);
      BlockFacts(cfg, v, xw, {n}, o);
      Loosen(cfg, v, xw, {n}, xw + {o, n}, {o, n});
      SetSize(o, w, xw + {o, n}, {o, n}, kept);
      ghost var m1 := mem[..];
      SetPrev(o + bs, o, xw + {o, n}, {o, n}, kept);
      SpareTrans(cfg, sheets, kept, v.mem, m1, mem[..]);
      SealSettle(cfg, v, xw, {n}, o, mem[..]);
    }

    // ---- the operations ---------------------------------------------------------------------------------------------

    ghost predicate Valid()
      reads this, mem, heads, slBits
    {
      && State({}, {}) && NoHand(blocks)
      && allocatedBytes == 16 * Sum(LiveSizes(blocks), mem.Length)
      && count == |sheets| <= cfg.maxSheets
    }

    /** Fails exactly when the search does, and then changes nothing.  A grant holds the request, is new,
        takes at most one granule more than needed, and no live payload is touched. */
    method Allocate(n: nat) returns (c: Chunk)
      requires Valid()
      modifies this`lists, this`blocks, this`flBits, this`allocatedBytes, heads, slBits, mem
      ensures Valid()
      ensures c.Null? <==> !FitsIn(cfg, old(lists), old(blocks), n)
      ensures c.Null? ==> blocks == old(blocks) && lists == old(lists) && mem[..] == old(mem[..])
      ensures c.Chunk? ==>
              Granted(cfg, old(lists), old(blocks), n, c)
              && LiveSizes(blocks) == LiveSizes(old(blocks))[c.pos - 1 := c.len / 16 + 1]
      ensures Spared(cfg, sheets, Lent(old(blocks)), old(mem[..]), mem[..])
    {
      hide Rep, Sound, PartOf, Spared, LiveSizes, Lent, Findable, Hit, WithUse, IsVacant, SizeWord, IsHeader, NoHand,
           Sum, Apart, Calm, OnlyHand, CarveBlocks, FlCount;
      ghost var v, kept := Now(), Lent(blocks);
      ParamBounds(cfg, v, {}, {});
      SpareSelf(cfg, sheets, kept, mem[..]);
      LentIsPart(blocks);
      var adj := Adjusted(cfg, n);
      if adj == 0 {
        return Null;
      }
      var off, idx := FindFree(16 * adj);
      if off == NULL {
        return Null;
      }
      HitFacts(cfg, v, 16 * adj, off, idx);
      var bs := TakeHead(off, idx, 16 * adj, kept);
      var take := adj;
      Loosen(cfg, Now(), {}, {}, {off}, {});
      ShapeOf(cfg, Now(), {}, {});
      if bs - take >= 2 {
        ghost var b1 := blocks;
        Carve(off, take, bs, {}, kept);
        CarveShape(b1, off, take);
      } else {
        take := bs;
      }
      Finish(off, take, v.blocks, v.mem, kept);
      c := Chunk(off + 1, 16 * (take - 1));
    }

    /** `allocate` takes the head of the list found. */
    method TakeHead(off: nat, idx: nat, size: nat, ghost kept: Blocks) returns (bs: nat)
      requires State({}, {}) && NoHand(blocks) && size >= 32 && cfg.slLog <= 5
               && Hit(cfg.slLog, lists, blocks, size, off, idx)
      requires PartOf(kept, blocks)
      modifies this`lists, this`blocks, this`flBits, heads, slBits
      ensures State({}, {}) && off in blocks && blocks == WithUse(old(blocks), off, Hand) && blocks[off].size == bs
      ensures blocks[off].use.Hand? && OnlyHand(blocks, off) && PartOf(kept, blocks) && !IsVacant(blocks, off + bs)
              && bs == old(blocks)[off].size
      ensures LiveSizes(blocks) == LiveSizes(old(blocks)) && off !in LiveSizes(old(blocks))
    {
      hide Rep, Linked, BitsMatch, OnlyOwn, Pow2, Sound, WithUse, Index, Spared, PartOf, LiveSizes, Above, LowestAbove,
           Calm, NoHand, OnlyHand, Apart;
      ghost var v := Now();
      ClassOf(cfg, v, {}, {}, off);
      BitsOf(cfg, v, {}, {});
      BlockFacts(cfg, v, {}, {}, off);
      LinkedPop(TlsfLinks, v.mem, v.heads, lists, idx);
      bs := Bsize(mem[off].w0);
      var nx := mem[off].w2;
      heads[idx] := nx;
      assert heads[..] == v.heads[idx := nx];
      ClearIfEmpty(idx, nx, lists, lists[idx][1..]);
      assert Relinked(v.mem, mem[..], v.lists[idx], off);
      DropStep(cfg, v, {}, {}, off, idx, lists[idx][1..], mem[..], heads[..], slBits[..], flBits);
      NotLive(blocks, off, kept);
      UseLent(blocks, off, Hand, kept);
      ShapeOf(cfg, v, {}, {});
      HandShape(blocks, off);
      WithUseAt(blocks, off, Hand);
      lists := lists[idx := lists[idx][1..]];
      blocks := WithUse(blocks, off, Hand);
    }

    /** The end of `allocate`: the size word, the mark and the byte counter. */
    method Finish(off: nat, take: nat, ghost b0: Blocks, ghost m0: seq<Granule>, ghost kept: Blocks)
      requires State({off}, {}) && off in blocks && blocks[off].use.Hand? && blocks[off].size == take
               && OnlyHand(blocks, off)
      requires PartOf(kept, blocks) && off !in kept && Spared(cfg, sheets, kept, m0, mem[..])
      requires LiveSizes(blocks) == LiveSizes(b0) && off !in LiveSizes(b0)
      requires allocatedBytes == 16 * Sum(LiveSizes(b0), mem.Length) && count == |sheets| <= cfg.maxSheets
      modifies this`blocks, this`allocatedBytes, mem
      ensures Valid() && LiveSizes(blocks) == LiveSizes(b0)[off := take]
      ensures Spared(cfg, sheets, kept, m0, mem[..])
    {
      hide Rep, Sound, PartOf, Spared, LiveSizes, WithUse, IsHeader, OnlyHand, Sum, NoHand;
      ghost var v := Now();
      BlockFacts(cfg, v, {off}, {}, off);
      Loosen(cfg, v, {off}, {}, {off}, {off});
      SetSize(off, 16 * take + 1, {off}, {off}, kept);
      SpareTrans(cfg, sheets, kept, m0, v.mem, mem[..]);
      ghost var m1, b1 := mem[..], blocks;
      HeaderOf(cfg, Now(), {off}, {off}, off);
      Mark(off, true, {off}, {off}, kept);
      SpareTrans(cfg, sheets, kept, m0, m1, mem[..]);
      WithUseAt(b1, off, Live);
      SettleOne(cfg, Now(), off);
      UseLent(b1, off, Live, kept);
      LiveHand(b1, off);
      SumUpdate(LiveSizes(b0), off, take, mem.Length);
      allocatedBytes := allocatedBytes + 16 * take;
    }

    /** The live block at payload pointer `up` (in bytes), if there is one: its header, and its payload
        in bytes.  The answer does not depend on what callers have written into their payloads. */
    method OwnsLen(up: nat) returns (hdr: nat, payload: nat)
      requires Valid() && SheetOf(cfg, up / 16) in sheets
      ensures (hdr as int, payload as int) == OwnAnswer(blocks, up)
    {
      hide Rep, Sound, SheetOf, DataOff, Span, Marked, Sum, LiveSizes, NoHand, GranuleBit, Bsize, OwnAnswer;
      var p := up / 16;
      var s := SheetOf(cfg, p);
      var r := p - s;
      OwnFacts(cfg, Now(), p);
      OwnDecide(cfg, Now(), up, p, r);
      if r < DataOff(cfg) + 1 || r >= Span(cfg) - 1 || up % 16 != 0 {
        return NULL, 0;
      }
      var f := mem[p - 1].w0;
      var ok := GranuleBit(mem[s + 1 + r / 128], r % 128) && f % 4 == 1 && 16 * Bsize(f) >= 32
                && r - 1 + Bsize(f) <= Span(cfg) - 1;
      if !ok {
        return NULL, 0;
      }
      return p - 1, 16 * (Bsize(f) - 1);
    }

    /** Frees a live block, merging it with its free neighbours.  Returns its sheet if that has become
        empty. */
    method Deallocate(off: nat) returns (s: nat)
      requires Valid() && off in LiveSizes(blocks)
      modifies this`lists, this`blocks, this`flBits, this`allocatedBytes, heads, slBits, mem
      ensures Valid() && LiveSizes(blocks) == LiveSizes(old(blocks)) - {off}
      ensures s == if EmptySheet(cfg, blocks, SheetOf(cfg, off)) then SheetOf(cfg, off) else NULL
      ensures Spared(cfg, sheets, Lent(old(blocks)) - {off}, old(mem[..]), mem[..])
    {
      hide Rep, Sound, PartOf, Spared, LiveSizes, Lent, WithUse, IsVacant, IsHeader, NoHand, OnlyHand, Sum, SheetOf,
           DataSpan, EmptySheet;
      ghost var v, kept := Now(), Lent(blocks) - {off};
      ParamBounds(cfg, v, {}, {});
      LiveAt(blocks, off);
      BlockFacts(cfg, v, {}, {}, off);
      LentLess(blocks, off);
      SumRemove(LiveSizes(blocks), off, mem.Length);
      var bs := Bsize(mem[off].w0);
      Loosen(cfg, v, {}, {}, {off}, {});
      Mark(off, false, {off}, {}, kept);
      WithUseAt(v.blocks, off, Hand);
      HandAlone(v.blocks, off);
      UseLent(v.blocks, off, Hand, kept);
      allocatedBytes := allocatedBytes - 16 * bs;
      ghost var m1 := mem[..];
      bs := MergeNext(off, bs, {off}, {}, kept);
      SpareTrans(cfg, sheets, kept, v.mem, m1, mem[..]);
      assert {off} + {off} == {off};
      m1 := mem[..];
      var o;
      o, bs := MergePrev(off, bs, {} - {off + v.blocks[off].size} + {off + bs}, kept);
      SpareTrans(cfg, sheets, kept, v.mem, m1, mem[..]);
      m1 := mem[..];
      Seal(o, bs, 16 * bs, {off, o}, kept);
      SpareTrans(cfg, sheets, kept, v.mem, m1, mem[..]);
      m1 := mem[..];
      FileLast(o, bs, kept);
      SpareTrans(cfg, sheets, kept, v.mem, m1, mem[..]);
      WholeSheet(cfg, Now(), o);
      return if bs == DataSpan(cfg) then SheetOf(cfg, o) else NULL;
    }

    /** The last block in hand goes back to the lists. */
    method FileLast(o: nat, bs: nat, ghost kept: Blocks)
      requires State({}, {}) && o in blocks && blocks[o].use.Hand? && blocks[o].size == bs && OnlyHand(blocks, o)
      requires !IsVacant(blocks, o + bs) && !IsVacant(blocks, blocks[o].prev) && PartOf(kept, blocks)
      modifies this`lists, this`blocks, this`flBits, heads, slBits, mem
      ensures State({}, {}) && NoHand(blocks) && LiveSizes(blocks) == LiveSizes(old(blocks))
      ensures IsVacant(blocks, o) && blocks[o].size == bs
      ensures PartOf(kept, blocks) && Spared(cfg, sheets, kept, old(mem[..]), mem[..])
    {
      hide Rep, Sound, PartOf, Spared, LiveSizes, WithUse;
      ghost var b := blocks;
      InsertFree(o, bs, {}, {}, kept);
      WithUseAt(b, o, Vacant);
      NotLive(b, o, kept);
      UseLent(b, o, Vacant, kept);
    }

    /** Shrinks a live block in place; too small a remainder stays with it. */
    method Shrink(off: nat, n: nat) returns (ok: bool)
      requires Valid() && off in LiveSizes(blocks)
      modifies this`lists, this`blocks, this`flBits, this`allocatedBytes, heads, slBits, mem
      ensures Valid()
      ensures ok <==> 2 <= Adjusted(cfg, n) <= LiveSizes(old(blocks))[off]
      ensures LiveSizes(blocks) == if ok then LiveSizes(old(blocks))[off := ShrunkSize(cfg, LiveSizes(old(blocks))[off],
              n)]
                                   else LiveSizes(old(blocks))
      ensures ok ==> var k, s := (n + 31) / 16, LiveSizes(blocks)[off];
                     k <= s <= k + 1 && (s == k || s == LiveSizes(old(blocks))[off])
      ensures !ok ==> mem[..] == old(mem[..])
      ensures Spared(cfg, sheets, if ok then Trimmed(old(blocks), off, ShrunkSize(cfg, LiveSizes(old(blocks))[off], n))
                                  else Lent(old(blocks)), old(mem[..]), mem[..])
    {
      hide Rep, Sound, PartOf, Spared, LiveSizes, Lent, Trimmed, NoHand, Sum, DataSpan;
      ghost var v := Now();
      LiveAt(blocks, off);
      BlockFacts(cfg, v, {}, {}, off);
      SpareSelf(cfg, sheets, Lent(blocks), mem[..]);
      TrimSame(blocks, off);
      assert LiveSizes(blocks)[off := LiveSizes(blocks)[off]] == LiveSizes(blocks);
      var adj := Adjusted(cfg, n);
      if adj == 0 {
        return false;
      }
      var bs := Bsize(mem[off].w0);
      if adj > bs {
        return false;
      }
      if bs - adj < 2 {
        return true;
      }
      CutOff(off, adj, bs);
      return true;
    }

    method CutOff(off: nat, take: nat, bs: nat)
      requires off in blocks && blocks[off].use.Live? && blocks[off].size == bs && 2 <= take && take + 2 <= bs
      requires Valid()
      modifies this`lists, this`blocks, this`flBits, this`allocatedBytes, heads, slBits, mem
      ensures Valid() && LiveSizes(blocks) == LiveSizes(old(blocks))[off := take]
      ensures Spared(cfg, sheets, Trimmed(old(blocks), off, take), old(mem[..]), mem[..])
    {
      hide Rep, Sound, PartOf, Spared, LiveSizes, Lent, Trimmed, NoHand, OnlyHand, Sum, SplitBlocks, IsVacant, IsHeader,
           DataSpan;
      ghost var v, kept := Now(), Trimmed(blocks, off, take);
      var rem, rest := off + take, bs - take;
      BlockFacts(cfg, v, {}, {}, off);
      LiveAt(blocks, off);
      SumUpdate(LiveSizes(blocks), off, take, mem.Length);
      TrimPart(blocks, off, take);
      SplitStep(cfg, v, {}, {}, off, take);
      SplitAt(blocks, off, take);
      SplitLent(blocks, off, take, kept);
      blocks := SplitBlocks(blocks, off, take);
      Loosen(cfg, Now(), {} + {off, rem}, {} + {rem, off + bs}, {off, rem}, {off, rem, off + bs});
      HeaderOf(cfg, Now(), {off, rem}, {off, rem, off + bs}, rem);
      SetPrev(rem, off, {off, rem}, {off, rem, off + bs}, kept);
      ghost var m1 := mem[..];
      SetSize(off, 16 * take + 1, {off, rem}, {off, rem, off + bs}, kept);
      SpareTrans(cfg, sheets, kept, v.mem, m1, mem[..]);
      ShrinkSettle(cfg, v, off, take, mem[..]);
      allocatedBytes := allocatedBytes - 16 * rest;
      m1 := mem[..];
      rest := MergeNext(rem, rest, {rem}, {off + bs}, kept);
      SpareTrans(cfg, sheets, kept, v.mem, m1, mem[..]);
      assert {off + bs} - {off + bs} + {rem + rest} == {rem + rest};
      m1 := mem[..];
      Seal(rem, rest, 16 * rest, {rem} + {rem}, kept);
      SpareTrans(cfg, sheets, kept, v.mem, m1, mem[..]);
      m1 := mem[..];
      NotVacantLive(v.blocks, off, take);
      FileLast(rem, rest, kept);
      SpareTrans(cfg, sheets, kept, v.mem, m1, mem[..]);
    }

    /** Grows a live block in place into the free block behind it: all or nothing. */
    method Grow(off: nat, n: nat) returns (ok: bool)
      requires Valid() && off in LiveSizes(blocks)
      modifies this`lists, this`blocks, this`flBits, this`allocatedBytes, heads, slBits, mem
      ensures Valid()
      ensures ok <==> Growable(cfg, old(blocks), off, n)
      ensures LiveSizes(blocks) == if ok then LiveSizes(old(blocks))[off := GrownSize(cfg, old(blocks), off, n)]
                                   else LiveSizes(old(blocks))
      ensures ok ==> var k, s := (n + 31) / 16, LiveSizes(blocks)[off];
                     s == LiveSizes(old(blocks))[off] || k <= s <= k + 1
      ensures !ok ==> mem[..] == old(mem[..]) && blocks == old(blocks) && lists == old(lists)
      ensures Spared(cfg, sheets, Lent(old(blocks)), old(mem[..]), mem[..])
    {
      hide Rep, Sound, PartOf, Spared, LiveSizes, Lent, NoHand, Sum, DataSpan;
      ghost var v := Now();
      LiveAt(blocks, off);
      BlockFacts(cfg, v, {}, {}, off);
      SpareSelf(cfg, sheets, Lent(blocks), mem[..]);
      assert LiveSizes(blocks)[off := LiveSizes(blocks)[off]] == LiveSizes(blocks);
      var adj := Adjusted(cfg, n);
      if adj == 0 {
        return false;
      }
      var bs := Bsize(mem[off].w0);
      if adj <= bs {
        return true;
      }
      NoHandOnly(blocks, off);
      NextWord(cfg, v, {}, {}, off);
      var next := off + bs;
      if !IsFreeWord(mem[next].w0) {
        return false;
      }
      var nb := Bsize(mem[next].w0);
      if bs + nb < adj {
        return false;
      }
      TakeOver(off, bs, nb, adj);
      return true;
    }

    method TakeOver(off: nat, bs: nat, nb: nat, take: nat)
      requires off in blocks && blocks[off].use.Live? && blocks[off].size == bs && 2 <= bs < take <= bs + nb
      requires IsVacant(blocks, off + bs) && blocks[off + bs].size == nb
      requires Valid()
      modifies this`lists, this`blocks, this`flBits, this`allocatedBytes, heads, slBits, mem
      ensures Valid()
      ensures LiveSizes(blocks) == LiveSizes(old(blocks))[off := if bs + nb - take >= 2 then take else bs + nb]
      ensures Spared(cfg, sheets, Lent(old(blocks)), old(mem[..]), mem[..])
    {
      hide Rep, Sound, PartOf, Spared, LiveSizes, Lent, NoHand, OnlyHand, Sum, CarveBlocks, IsVacant, IsHeader, Apart,
           Calm;
      ghost var v, kept := Now(), Lent(blocks);
      var span := bs + nb;
      LentIsPart(blocks);
      LentAt(blocks, off);
      LiveAt(blocks, off);
      BlockFacts(cfg, v, {}, {}, off);
      NoHandOnly(blocks, off);
      Absorb(off, bs, nb, {}, {}, kept);
      assert {} + {off} == {off} && {} - {off + bs} + {off + bs + nb} == {off + span};
      ghost var m1 := mem[..];
      BlockFacts(cfg, Now(), {off}, {off + span}, off);
      if span - take >= 2 {
        ShapeOf(cfg, Now(), {off}, {off + span});
        CarveShape(blocks, off, take);
        SumUpdate(LiveSizes(v.blocks), off, take, mem.Length);
        assert LiveSizes(v.blocks)[off := span][off := take] == LiveSizes(v.blocks)[off := take];
        Carve(off, take, span, {off + span}, kept);
        SpareTrans(cfg, sheets, kept, v.mem, m1, mem[..]);
        Loosen(cfg, Now(), {off}, {}, {off}, {off});
        m1 := mem[..];
        SetSize(off, 16 * take + 1, {off}, {off}, kept);
        SpareTrans(cfg, sheets, kept, v.mem, m1, mem[..]);
        SettleOne(cfg, Now(), off);
        allocatedBytes := allocatedBytes + 16 * (take - bs);
      } else {
        SumUpdate(LiveSizes(v.blocks), off, span, mem.Length);
        Seal(off, span, 16 * span + 1, {off}, kept);
        SpareTrans(cfg, sheets, kept, v.mem, m1, mem[..]);
        allocatedBytes := allocatedBytes + 16 * (span - bs);
      }
      OnlyHandLive(blocks, off);
    }

    // ---- sheets -------------------------------------------------------------------------------------------

    method SheetEmpty(s: nat) returns (b: bool)
      requires Valid() && s in sheets
      ensures b <==> EmptySheet(cfg, blocks, s)
      ensures b <==> forall g: nat :: g in LiveSizes(blocks) ==> SheetOf(cfg, g) != s
    {
      hide Rep, Sound, LiveSizes, NoHand, Sum, DataSpan, DataOff, SheetOf;
      var d := s + DataOff(cfg);
      FirstBlock(cfg, Now(), s);
      BlockFacts(cfg, Now(), {}, {}, d);
      EmptyIffNoLive(cfg, Now(), s);
      NoHandOnly(blocks, d);
      NotInHand(blocks, d);
      return IsFreeWord(mem[d].w0) && Bsize(mem[d].w0) == DataSpan(cfg);
    }

    /** A sheet is laid out between two sentinels and filed as one free block. */
    method AddSheet(s: nat) returns (ok: bool)
      requires Valid() && s !in sheets && Aligned(s, cfg.sheetLog) && s + Span(cfg) <= mem.Length
      modifies this`lists, this`blocks, this`sheets, this`flBits, this`count, heads, slBits, mem
      ensures Valid()
      ensures ok <==> old(count) < cfg.maxSheets
      ensures !ok ==> sheets == old(sheets) && blocks == old(blocks) && lists == old(lists) && mem[..] == old(mem[..])
      ensures ok ==>
              sheets == old(sheets) + {s} && LiveSizes(blocks) == LiveSizes(old(blocks))
              && EmptySheet(cfg, blocks, s)
      ensures ok ==> FiledFirst(cfg, old(lists), lists, s) && ShapesKept(old(blocks), blocks)
      ensures Spared(cfg, old(sheets) + {s}, Lent(old(blocks)), old(mem[..]), mem[..])
    {
      hide Rep, Sound, PartOf, Spared, LiveSizes, Lent, NoHand, OnlyHand, Sum, DataSpan, DataOff, Span, SheetOf,
           IsVacant, FreshSheet;
      ghost var v, kept := Now(), Lent(blocks);
      SpareSelf(cfg, sheets + {s}, kept, mem[..]);
      SpanFacts(cfg);
      if count >= cfg.maxSheets {
        return false;
      }
      LayOut(s);
      AddSheetStep(cfg, v, s, mem[..]);
      NewSheetSpares(cfg, v, s, mem[..]);
      AddLent(blocks, s + DataOff(cfg), WholeBlock(cfg, s, Hand));
      sheets, blocks := sheets + {s}, blocks[s + DataOff(cfg) := WholeBlock(cfg, s, Hand)];
      count := count + 1;
      AddAlone(cfg, Now(), v.blocks, s);
      LentIsPart(v.blocks);
      ghost var m1 := mem[..];
      FileWhole(s, kept);
      SpareTrans(cfg, sheets, kept, v.mem, m1, mem[..]);
      return true;
    }

    /** What `add_sheet` writes before the free block is filed. */
    method LayOut(s: nat)
      requires Layout() && s + Span(cfg) <= mem.Length
      modifies mem
      ensures FreshSheet(cfg, mem[..], s)
      ensures forall x: nat :: x < mem.Length && !(s <= x < s + Span(cfg)) ==> mem[x] == old(mem[x])
    {
      hide Sound, DataOff, Span;
      SpanFacts(cfg);
      var d, e := s + DataOff(cfg), s + Span(cfg) - 1;
      mem[s] := Granule(16 * DataOff(cfg) + 3, NULL, 0, 0);
      for c := s + 1 to d
        invariant mem[s].w0 == 16 * DataOff(cfg) + 3
        invariant forall x :: s < x < c ==> mem[x] == Granule(0, 0, 0, 0)
        invariant forall x: nat :: x < mem.Length && !(s <= x < s + Span(cfg)) ==> mem[x] == old(mem[x])
      {
        mem[c] := Granule(0, 0, 0, 0);
      }
      mem[e] := Granule(16 + 3, d, NULL, NULL);
      mem[d] := mem[d].(w0 := 16 * DataSpan(cfg), w1 := s);
    }

    method FileWhole(s: nat, ghost kept: Blocks)
      requires s in sheets && DataSpan(cfg) >= 2 && s + DataOff(cfg) in blocks
      requires blocks[s + DataOff(cfg)] == WholeBlock(cfg, s, Hand) && OnlyHand(blocks, s + DataOff(cfg))
               && PartOf(kept, blocks)
      requires State({}, {})
      modifies this`lists, this`blocks, this`flBits, heads, slBits, mem
      ensures State({}, {}) && NoHand(blocks) && LiveSizes(blocks) == LiveSizes(old(blocks))
              && EmptySheet(cfg, blocks, s)
      ensures FiledFirst(cfg, old(lists), lists, s) && ShapesKept(old(blocks), blocks)
      ensures Spared(cfg, sheets, kept, old(mem[..]), mem[..])
    {
      hide Rep, Sound, PartOf, Spared, LiveSizes, WithUse, DataSpan, DataOff, Index;
      ghost var b, d := blocks, s + DataOff(cfg);
      NextFacts(cfg, Now(), {}, {}, d);
      BlockFacts(cfg, Now(), {}, {}, d);
      SheetWord(cfg, Now(), {}, {}, s);
      WholeEnds(cfg, Now(), s);
      ParamBounds(cfg, Now(), {}, {});
      InsertFree(s + DataOff(cfg), DataSpan(cfg), {}, {}, kept);
      WithUseAt(b, d, Vacant);
      NotLive(b, d, kept);
      UseLent(b, d, Vacant, kept);
      NoHandAfter(b, d);
    }

    /** Refused exactly when the sheet still holds a live block. */
    method RemoveSheet(s: nat) returns (ok: bool)
      requires Valid() && s in sheets
      modifies this`lists, this`blocks, this`sheets, this`flBits, this`count, heads, slBits, mem
      ensures Valid()
      ensures ok <==> EmptySheet(cfg, old(blocks), s)
      ensures !ok ==> sheets == old(sheets) && blocks == old(blocks) && lists == old(lists) && mem[..] == old(mem[..])
      ensures ok ==> sheets == old(sheets) - {s} && LiveSizes(blocks) == LiveSizes(old(blocks))
      ensures Spared(cfg, old(sheets), Lent(old(blocks)), old(mem[..]), mem[..])
    {
      hide Rep, Sound, PartOf, Spared, LiveSizes, Lent, NoHand, OnlyHand, Sum, DataSpan, DataOff, Span, SheetOf,
           WithUse;
      ghost var v, kept, d := Now(), Lent(blocks), s + DataOff(cfg);
      SpareSelf(cfg, sheets, kept, mem[..]);
      var empty := SheetEmpty(s);
      if count == 0 || !empty {
        SheetCounts(sheets, s);
        return false;
      }
      SheetCounts(sheets, s);
      LentIsPart(blocks);
      FirstBlock(cfg, v, s);
      SpanFacts(cfg);
      WholeIs(cfg, v, s, d);
      RemoveFree(s + DataOff(cfg), DataSpan(cfg), {}, {}, kept);
      WithUseAt(v.blocks, d, Hand);
      NotLive(v.blocks, d, kept);
      UseLent(v.blocks, d, Hand, kept);
      RemoveSheetStep(cfg, Now(), s);
      HandAlone(v.blocks, d);
      RemoveLent(blocks, d);
      count := count - 1;
      sheets, blocks := sheets - {s}, blocks - {d};
      return true;
    }

    /** Payload of the head of the top list, in bytes.  Every request up to it can be met. */
    method LargestFree() returns (r: nat)
      requires Valid()
      ensures r == 0 <==> forall g: nat :: !IsVacant(blocks, g)
      ensures forall n: nat :: n > 0 ==> (n <= r <==> FitsIn(cfg, lists, blocks, n))
    {
      hide Rep, Sound, LiveSizes, NoHand, Sum, Pow2, Fls, FitsIn, Index;
      ghost var v := Now();
      ParamBounds(cfg, v, {}, {});
      BitsOf(cfg, v, {}, {});
      SomeVacant(cfg, v);
      if flBits == 0 {
        forall n: nat ensures !FitsIn(cfg, lists, blocks, n) {
          NothingFits(cfg, v, n);
        }
        return 0;
      }
      var fl := Fls(flBits);
      TopLevel(cfg, v);
      var sl := Fls(slBits[fl]);
      AtIs(Pow2(cfg.slLog), fl, sl);
      ListHead(cfg, v, At(Pow2(cfg.slLog), fl, sl));
      var off := heads[fl * Pow2(cfg.slLog) + sl];
      var bs := Bsize(mem[off].w0);
      r := 16 * (bs - 1);
      BlockFacts(cfg, v, {}, {}, off);
      forall n: nat | n > 0 ensures n <= r <==> FitsIn(cfg, lists, blocks, n) {
        if n <= r { TopFits(cfg, v, At(Pow2(cfg.slLog), fl, sl), n); }
        if FitsIn(cfg, lists, blocks, n) { FitsTop(cfg, v, At(Pow2(cfg.slLog), fl, sl), n); }
      }
    }

    // ---- set-up -------------------------------------------------------------------------------------------

    constructor (cfg: Config, mem: array<Granule>)
      requires Sound(cfg) && mem.Length < NULL
      ensures this.cfg == cfg && this.mem == mem && fresh(heads) && fresh(slBits)
      ensures Valid() && sheets == {} && blocks == map[]
    {
      var fl, sl := MakeTable(cfg);
      this.cfg, this.mem, this.tableFl, this.tableSl := cfg, mem, fl, sl;
      SpanFacts(cfg);
      this.heads := new nat[ListCount(cfg)];
      this.slBits := new nat[FlCount(cfg)];
      new;
      Reset();
    }

    method Reset()
      requires Layout() && mem.Length < NULL
      modifies this, heads, slBits
      ensures Valid() && sheets == {} && blocks == map[]
    {
      hide Rep, Sound, TableAgrees;
      flBits := 0;
      for i := 0 to slBits.Length
        invariant flBits == 0 && forall j :: 0 <= j < i ==> slBits[j] == 0
      {
        slBits[i] := 0;
      }
      for i := 0 to heads.Length
        invariant flBits == 0
        invariant forall j :: 0 <= j < i ==> heads[j] == NULL
        invariant forall j :: 0 <= j < slBits.Length ==> slBits[j] == 0
      {
        heads[i] := NULL;
      }
      count, allocatedBytes := 0, 0;
      sheets, blocks, lists := {}, map[], seq(heads.Length, _ => []);
      EmptyRep(cfg, Now());
      SumZero(mem.Length);
      assert LiveSizes(map[]) == map[];
    }

    /** Payload bytes of a live block. */
    method Payload(off: nat) returns (len: nat)
      requires Valid() && off in LiveSizes(blocks)
      ensures len == 16 * (LiveSizes(blocks)[off] - 1)
    {
      hide Rep, Sound, LiveSizes, NoHand, Sum, DataSpan;
      LiveAt(blocks, off);
      BlockFacts(cfg, Now(), {}, {}, off);
      return 16 * (Bsize(mem[off].w0) - 1);
    }
  }

  lemma WithUseAt(blk: Blocks, g: nat, u: BlockUse)
    requires g in blk
    ensures g in WithUse(blk, g, u) && WithUse(blk, g, u)[g] == blk[g].(use := u)
    ensures forall h :: h in WithUse(blk, g, u) <==> h in blk
    ensures forall h :: h in blk && h != g ==> WithUse(blk, g, u)[h] == blk[h]
  {
  }

  lemma SpareSelf(cfg: Config, sheets: set<nat>, kept: Blocks, m: seq<Granule>)
    ensures Spared(cfg, sheets, kept, m, m)
  {
    hide SheetOf;
  }

  /** The blocks after the free block `p` took in the block in hand behind it. */
  lemma BackShape(blk: Blocks, p: nat, off: nat)
    requires Calm(blk) && Apart(blk) && (forall h :: h in blk ==> blk[h].size >= 2 && blk[h].prev < h)
    requires IsVacant(blk, p) && off in blk && off == p + blk[p].size && blk[off].use.Hand? && OnlyHand(blk, off)
    requires !IsVacant(blk, off + blk[off].size)
    requires blk[p].prev in blk ==> blk[p].prev + blk[blk[p].prev].size == p
    ensures var t := MergeBlocks(WithUse(blk, p, Hand), p);
            && p in t && t[p] == Block(blk[p].size + blk[off].size, Hand, blk[p].prev) && off !in t
            && !IsVacant(t, off + blk[off].size) && !IsVacant(t, blk[p].prev) && OnlyHand(t, p)
  {
  }

  /** The shape of a cut: what `insert_free` needs to know of the rest. */
  lemma SplitShape(cfg: Config, v: View, xp: set<nat>, off: nat, take: nat)
    requires off in v.blocks && !v.blocks[off].use.Vacant?
    requires 2 <= take && take + 2 <= v.blocks[off].size && !IsVacant(v.blocks, off + v.blocks[off].size)
    requires Rep(cfg, v, {off}, xp)
    ensures CutShape(cfg, v.blocks, v.sheets, off, take)
  {
    hide Sound, SheetsPlaced, Calm, Linked, BitsMatch, Marks, Filed, Headers, FlCount, Pow2, SheetOf, EndOf, DataOff,
         Apart, Chained, Backed;
    NextFacts(cfg, v, {off}, xp, off);
    NextSheet(cfg, |v.mem|, v.sheets, v.blocks, off, take);
  }

  predicate CutShape(cfg: Config, blk: Blocks, sheets: set<nat>, off: nat, take: nat)
    requires off in blk && take <= blk[off].size
  {
    var t, rem, n := SplitBlocks(blk, off, take), off + take, off + blk[off].size;
    && rem in t && t[rem] == Block(blk[off].size - take, Hand, off)
    && !IsVacant(t, n) && !IsVacant(t, off)
    && IsHeader(cfg, t, sheets, rem) && IsHeader(cfg, t, sheets, n)
  }

  // ---- what the search finds --------------------------------------------------------------------------------

  /** Some list at or above the search class is non-empty. */
  ghost predicate Above(slLog: nat, lists: seq<seq<nat>>, size: nat)
    requires size >= 32 && slLog <= 5
  {
    exists j: nat :: SearchIndex(slLog, size) <= j && NonEmpty(lists, j)
  }

  /** The head of the size's own list is large enough. */
  ghost predicate Exact(slLog: nat, lists: seq<seq<nat>>, blk: Blocks, size: nat)
    requires size >= 32 && slLog <= 5
  {
    var i := Index(slLog, size);
    NonEmpty(lists, i) && lists[i][0] in blk && size <= 16 * blk[lists[i][0]].size
  }

  ghost predicate Findable(slLog: nat, lists: seq<seq<nat>>, blk: Blocks, size: nat)
    requires size >= 32 && slLog <= 5
  {
    Above(slLog, lists, size) || Exact(slLog, lists, blk, size)
  }

  lemma IndexAt(cfg: Config, size: nat)
    requires size >= 32 && cfg.slLog <= 5
    ensures Index(cfg.slLog, size) == At(Pow2(cfg.slLog), Fl(size), Sl(cfg.slLog, size))
    ensures Sl(cfg.slLog, size) < Pow2(cfg.slLog)
  {
  }

  lemma SearchIsAt(cfg: Config, size: nat)
    requires size >= 32 && cfg.slLog <= 5
    ensures SearchIndex(cfg.slLog, size) == At(Pow2(cfg.slLog), SearchFl(cfg.slLog, size), SearchSl(cfg.slLog, size))
    ensures SearchSl(cfg.slLog, size) < Pow2(cfg.slLog)
  {
  }

  /** There is no list at a first level that does not exist. */
  lemma NoListAbove(cfg: Config, v: View, fl: nat, sl: nat)
    requires Rep(cfg, v, {}, {}) && fl >= FlCount(cfg)
    ensures At(Pow2(cfg.slLog), fl, sl) >= |v.lists|
  {
    hide Pow2, FlCount;
    BitsOf(cfg, v, {}, {});
    MulMono(FlCount(cfg), fl, Pow2(cfg.slLog));
  }

  lemma NothingAbove(cfg: Config, v: View, size: nat)
    requires Rep(cfg, v, {}, {}) && size >= 32 && cfg.slLog <= 5 && SearchFl(cfg.slLog, size) >= FlCount(cfg)
    ensures !Above(cfg.slLog, v.lists, size)
  {
    hide Pow2, FlCount, Rep, SearchFl, SearchSl, SearchIndex;
    SearchIsAt(cfg, size);
    NoListAbove(cfg, v, SearchFl(cfg.slLog, size), SearchSl(cfg.slLog, size));
  }

  /** The head of a list. */
  lemma ListHead(cfg: Config, v: View, idx: nat)
    requires Rep(cfg, v, {}, {}) && (idx < |v.lists| || NonEmpty(v.lists, idx))
    ensures |v.heads| == |v.lists| > idx
    ensures v.heads[idx] == NULL <==> !NonEmpty(v.lists, idx)
    ensures NonEmpty(v.lists, idx) ==>
              var h := v.lists[idx][0];
              && v.heads[idx] == h < |v.mem| && h != NULL && IsVacant(v.blocks, h)
              && v.mem[h].w0 == 16 * v.blocks[h].size && 32 <= 16 * v.blocks[h].size
              && Index(cfg.slLog, 16 * v.blocks[h].size) == idx
  {
    hide Sound, SheetsPlaced, Laid, Calm, BitsMatch, Marks, Filed, Headers, FlCount, Pow2, Index, Linked;
    HeadOf(TlsfLinks, v.mem, v.heads, v.lists, idx);
    ParamBounds(cfg, v, {}, {});
    if NonEmpty(v.lists, idx) {
      var h := v.lists[idx][0];
      FiledNode(cfg.slLog, v.blocks, v.lists, idx, h);
      BlockFacts(cfg, v, {}, {}, h);
    }
  }

  /** What a successful search returns. */
  ghost predicate Hit(slLog: nat, lists: seq<seq<nat>>, blk: Blocks, size: nat, off: nat, idx: nat)
    requires size >= 32 && slLog <= 5
  {
    && NonEmpty(lists, idx) && off == lists[idx][0]
    && IsVacant(blk, off) && blk[off].size >= 2 && size <= 16 * blk[off].size && idx == Index(slLog, 16 * blk[off].size)
    && (Above(slLog, lists, size) ==> LowestAbove(slLog, lists, size, idx))
  }

  lemma HitAbove(cfg: Config, v: View, size: nat, idx: nat)
    requires size >= 32 && cfg.slLog <= 5 && LowestAbove(cfg.slLog, v.lists, size, idx)
    requires Rep(cfg, v, {}, {})
    ensures idx < |v.heads| && v.heads[idx] != NULL
    ensures Findable(cfg.slLog, v.lists, v.blocks, size) && Hit(cfg.slLog, v.lists, v.blocks, size, v.heads[idx], idx)
  {
    hide Rep, SearchIndex, Index;
    ListHead(cfg, v, idx);
    GoodFit(cfg.slLog, size, 16 * v.blocks[v.lists[idx][0]].size);
  }

  lemma HitExact(cfg: Config, v: View, size: nat)
    requires size >= 32 && cfg.slLog <= 5 && !Above(cfg.slLog, v.lists, size)
    requires Rep(cfg, v, {}, {})
    ensures Findable(cfg.slLog, v.lists, v.blocks, size) <==> Exact(cfg.slLog, v.lists, v.blocks, size)
    ensures var i := Index(cfg.slLog, size);
            Exact(cfg.slLog, v.lists, v.blocks, size) ==> Hit(cfg.slLog, v.lists, v.blocks, size, v.lists[i][0], i)
  {
    hide Rep, Index, Above;
    if Exact(cfg.slLog, v.lists, v.blocks, size) {
      ListHead(cfg, v, Index(cfg.slLog, size));
    }
  }

  /** The second level leads to the lowest non-empty list of the search class's first level. */
  lemma FindInLevel(cfg: Config, v: View, size: nat, fl: nat, sl: nat, m: nat)
    requires size >= 32 && cfg.slLog <= 5
    requires fl == SearchFl(cfg.slLog, size) < |v.slBits| && sl == SearchSl(cfg.slLog, size)
    requires m == Keep(v.slBits[fl], sl) && m > 0
    requires Rep(cfg, v, {}, {})
    ensures LowestAbove(cfg.slLog, v.lists, size, At(Pow2(cfg.slLog), fl, Ctz(m)))
  {
    hide Rep, Pow2, Keep, Ctz, SearchFl, SearchSl, FlCount, LowestAbove;
    CtzIsLowest(m);
    BitKeep(v.slBits[fl], sl, Ctz(m));
    forall j: nat | sl <= j < Ctz(m) ensures !Bit(v.slBits[fl], j) {
      BitKeep(v.slBits[fl], sl, j);
    }
    LowestList(cfg, v, size, fl, sl, fl, Ctz(m));
  }

  /** The first level leads to the lowest non-empty list beyond. */
  lemma FindInNext(cfg: Config, v: View, size: nat, fl: nat, sl: nat, fm: nat)
    requires size >= 32 && cfg.slLog <= 5
    requires fl == SearchFl(cfg.slLog, size) < |v.slBits| && sl == SearchSl(cfg.slLog, size)
    requires Keep(v.slBits[fl], sl) == 0 && fm == Keep(v.flBits, fl + 1) && fm > 0
    requires Rep(cfg, v, {}, {})
    ensures Ctz(fm) < |v.slBits| && v.slBits[Ctz(fm)] > 0
    ensures LowestAbove(cfg.slLog, v.lists, size, At(Pow2(cfg.slLog), Ctz(fm), Ctz(v.slBits[Ctz(fm)])))
  {
    hide Rep, Pow2, Keep, Ctz, SearchFl, SearchSl, FlCount, LowestAbove, BitsMatch;
    var hf := Ctz(fm);
    BitsOf(cfg, v, {}, {});
    NoBitsFrom(v.slBits[fl], sl);
    CtzIsLowest(fm);
    BitKeep(v.flBits, fl + 1, hf);
    FlBit(Pow2(cfg.slLog), v.slBits, v.flBits, v.lists, hf);
    CtzIsLowest(v.slBits[hf]);
    forall f: nat | fl < f < hf && f < |v.slBits| ensures v.slBits[f] == 0 {
      BitKeep(v.flBits, fl + 1, f);
      FlBit(Pow2(cfg.slLog), v.slBits, v.flBits, v.lists, f);
    }
    LowestList(cfg, v, size, fl, sl, hf, Ctz(v.slBits[hf]));
  }

  lemma FindNone(cfg: Config, v: View, size: nat, fl: nat, sl: nat)
    requires size >= 32 && cfg.slLog <= 5
    requires fl == SearchFl(cfg.slLog, size) < |v.slBits| && sl == SearchSl(cfg.slLog, size)
    requires Keep(v.slBits[fl], sl) == 0 && Keep(v.flBits, fl + 1) == 0
    requires Rep(cfg, v, {}, {})
    ensures !Above(cfg.slLog, v.lists, size)
  {
    hide Rep, Pow2, Keep, SearchFl, SearchSl, FlCount, BitsMatch, Above;
    BitsOf(cfg, v, {}, {});
    NoBitsFrom(v.slBits[fl], sl);
    NoBitsFrom(v.flBits, fl + 1);
    forall f: nat | fl < f < |v.slBits| ensures v.slBits[f] == 0 {
      FlBit(Pow2(cfg.slLog), v.slBits, v.flBits, v.lists, f);
    }
    NoneAbove(cfg, v, size, fl, sl);
  }

  lemma NoBitsFrom(m: nat, k: nat)
    requires Keep(m, k) == 0
    ensures forall j: nat :: j >= k ==> !Bit(m, j)
  {
    hide Keep;
    forall j: nat | j >= k ensures !Bit(m, j) {
      BitKeep(m, k, j);
      ZeroHasNoBits(j);
    }
  }

  lemma FlBit(k: nat, slBits: seq<nat>, flBits: nat, ls: seq<seq<nat>>, f: nat)
    requires BitsMatch(k, slBits, flBits, ls)
    ensures Bit(flBits, f) <==> f < |slBits| && slBits[f] != 0
  {
  }

  lemma SlBit(k: nat, slBits: seq<nat>, flBits: nat, ls: seq<seq<nat>>, f: nat, j: nat)
    requires BitsMatch(k, slBits, flBits, ls) && f < |slBits|
    ensures Bit(slBits[f], j) <==> j < k && NonEmpty(ls, At(k, f, j))
  {
  }

  /** `idx` is the lowest non-empty list at or above the search class. */
  ghost predicate LowestAbove(slLog: nat, ls: seq<seq<nat>>, size: nat, idx: nat)
    requires size >= 32 && slLog <= 5
  {
    && SearchIndex(slLog, size) <= idx && NonEmpty(ls, idx)
    && forall j: nat :: SearchIndex(slLog, size) <= j < idx ==> !NonEmpty(ls, j)
  }

  /** Bit (hf, hs) is the first one set from (fl, sl) on, reading level by level. */
  ghost predicate Lowest(k: nat, slBits: seq<nat>, fl: nat, sl: nat, hf: nat, hs: nat) {
    && fl <= hf < |slBits| && fl < |slBits| && (hf == fl ==> sl <= hs) && Bit(slBits[hf], hs)
    && (forall j: nat :: sl <= j && (hf == fl ==> j < hs) ==> !Bit(slBits[fl], j))
    && (forall f: nat :: fl < f < hf && f < |slBits| ==> slBits[f] == 0)
    && (hf > fl ==> forall j: nat :: j < hs ==> !Bit(slBits[hf], j))
  }

  lemma LowestList(cfg: Config, v: View, size: nat, fl: nat, sl: nat, hf: nat, hs: nat)
    requires size >= 32 && cfg.slLog <= 5
    requires fl == SearchFl(cfg.slLog, size) < |v.slBits| && sl == SearchSl(cfg.slLog, size)
    requires Lowest(Pow2(cfg.slLog), v.slBits, fl, sl, hf, hs)
    requires Rep(cfg, v, {}, {})
    ensures LowestAbove(cfg.slLog, v.lists, size, At(Pow2(cfg.slLog), hf, hs))
  {
    hide Rep, Pow2, SearchFl, SearchSl, FlCount, BitsMatch, SearchIndex;
    var k := Pow2(cfg.slLog);
    BitsOf(cfg, v, {}, {});
    SearchIsAt(cfg, size);
    SlBit(k, v.slBits, v.flBits, v.lists, hf, hs);
    LevelOrder(fl, sl, hf, hs, k);
    forall j: nat | SearchIndex(cfg.slLog, size) <= j < hf * k + hs ensures !NonEmpty(v.lists, j) {
      if NonEmpty(v.lists, j) {
        var f, i := Levels(cfg, v, j);
        LevelOrder(fl, sl, f, i, k);
        LevelOrder(hf, hs, f, i, k);
        if f != fl && f != hf { ZeroHasNoBits(i); }
      }
    }
  }

  /** The levels of a non-empty list, whose bit is set. */
  lemma Levels(cfg: Config, v: View, j: nat) returns (f: nat, i: nat)
    requires Rep(cfg, v, {}, {}) && NonEmpty(v.lists, j)
    ensures i < Pow2(cfg.slLog) && j == f * Pow2(cfg.slLog) + i && f < |v.slBits| && Bit(v.slBits[f], i)
  {
    hide Rep, Pow2, FlCount, BitsMatch, Shr, Bit;
    BitsOf(cfg, v, {}, {});
    IndexParts(cfg, v.slBits, v.flBits, v.lists, j);
    f, i := Shr(j, cfg.slLog), j % Pow2(cfg.slLog);
    SlBit(Pow2(cfg.slLog), v.slBits, v.flBits, v.lists, f, i);
  }

  lemma NoneAbove(cfg: Config, v: View, size: nat, fl: nat, sl: nat)
    requires size >= 32 && cfg.slLog <= 5
    requires fl == SearchFl(cfg.slLog, size) < |v.slBits| && sl == SearchSl(cfg.slLog, size)
    requires forall j: nat :: sl <= j ==> !Bit(v.slBits[fl], j)
    requires forall f: nat :: fl < f < |v.slBits| ==> v.slBits[f] == 0
    requires Rep(cfg, v, {}, {})
    ensures !Above(cfg.slLog, v.lists, size)
  {
    hide Rep, Pow2, SearchFl, SearchSl, FlCount, BitsMatch, SearchIndex;
    SearchIsAt(cfg, size);
    forall j: nat | SearchIndex(cfg.slLog, size) <= j ensures !NonEmpty(v.lists, j) {
      if NonEmpty(v.lists, j) {
        var f, i := Levels(cfg, v, j);
        LevelOrder(fl, sl, f, i, Pow2(cfg.slLog));
        if f != fl { ZeroHasNoBits(i); }
      }
    }
  }

  /** The block that byte pointer `up` is the payload start of, and its payload in bytes. */
  function OwnAnswer(blk: Blocks, up: nat): (int, int) {
    if up % 16 == 0 && IsLive(blk, up / 16 - 1) then (up / 16 - 1, 16 * (blk[up / 16 - 1].size - 1)) else (NULL, 0)
  }

  /** Granules of a live block after shrinking it to `n` bytes. */
  function ShrunkSize(cfg: Config, size: nat, n: nat): nat {
    if size - Adjusted(cfg, n) >= 2 then Adjusted(cfg, n) else size
  }

  /** The live blocks, with `off` cut to `size`. */
  function Trimmed(blk: Blocks, off: nat, size: nat): Blocks {
    if off in Lent(blk) then Lent(blk)[off := blk[off].(size := size)] else Lent(blk)
  }

  lemma TrimSame(blk: Blocks, off: nat)
    ensures off in blk ==> Trimmed(blk, off, blk[off].size) == Lent(blk)
  {
  }

  lemma TrimPart(blk: Blocks, off: nat, size: nat)
    requires off in blk && blk[off].use.Live? && size <= blk[off].size
    ensures PartOf(Trimmed(blk, off, size), blk) && off in Trimmed(blk, off, size)
            && Trimmed(blk, off, size)[off].size == size
  {
  }

  lemma NotVacantLive(blk: Blocks, off: nat, take: nat)
    requires off in blk && blk[off].use.Live? && take <= blk[off].size && take > 0
    ensures !IsVacant(SplitBlocks(blk, off, take), off)
  {
  }

  lemma NoHandOnly(blk: Blocks, off: nat)
    requires NoHand(blk)
    ensures OnlyHand(blk, off)
  {
  }

  lemma OnlyHandLive(blk: Blocks, off: nat)
    requires OnlyHand(blk, off) && (off in blk ==> !blk[off].use.Hand?)
    ensures NoHand(blk)
  {
  }

  lemma LentAt(blk: Blocks, off: nat)
    ensures off in Lent(blk) <==> off in blk && blk[off].use.Live?
    ensures off in Lent(blk) ==> Lent(blk)[off] == blk[off]
  {
  }

  /** The free block behind a live block can take it to `n` bytes. */
  predicate Growable(cfg: Config, blk: Blocks, off: nat, n: nat)
    requires off in LiveSizes(blk)
  {
    var adj, bs := Adjusted(cfg, n), blk[off].size;
    adj >= 2 && (adj <= bs || (IsVacant(blk, off + bs) && adj <= bs + blk[off + bs].size))
  }

  function GrownSize(cfg: Config, blk: Blocks, off: nat, n: nat): nat
    requires off in LiveSizes(blk) && Growable(cfg, blk, off, n)
  {
    var adj, bs := Adjusted(cfg, n), blk[off].size;
    if adj <= bs then bs
    else if bs + blk[off + bs].size - adj >= 2 then adj else bs + blk[off + bs].size
  }

  /** The granules [hdr, hdr + k) lie in the sheet of `hdr`, and no live block but the one at `hdr` meets them. */
  ghost predicate RoomBehind(cfg: Config, smalls: map<nat, nat>, hdr: nat, k: nat) {
    && hdr + k <= EndOf(cfg, SheetOf(cfg, hdr))
    && forall g: nat :: g in smalls && g != hdr ==> g + smalls[g] <= hdr || hdr + k <= g
  }

  /** Growth succeeds exactly when the block is large enough or there is room for it among the live blocks.  It
      ends with the granules asked for, or with one more if that is all the room there is. */
  lemma GrowsIntoRoom(cfg: Config, v: View, off: nat, n: nat)
    requires off in LiveSizes(v.blocks) && NoHand(v.blocks) && n > 0
    requires Rep(cfg, v, {}, {})
    ensures var live, k := LiveSizes(v.blocks), (n + 31) / 16;
            && (Growable(cfg, v.blocks, off, n) <==> k <= live[off] || RoomBehind(cfg, live, off, k))
            && (Growable(cfg, v.blocks, off, n) ==>
                  var s := GrownSize(cfg, v.blocks, off, n);
                  if k <= live[off] then s == live[off]
                  else k <= s <= k + 1 && RoomBehind(cfg, live, off, s)
                       && (s == k + 1 <==> !RoomBehind(cfg, live, off, k + 2) && RoomBehind(cfg, live, off, k + 1)))
  {
    hide Rep, SheetOf, Span, DataOff, RoomBehind;
    var next, k := off + v.blocks[off].size, (n + 31) / 16;
    BlockFacts(cfg, v, {}, {}, off);
    BlockEnd(cfg, v, off);
    if next in v.blocks {
      BlockFacts(cfg, v, {}, {}, next);
      BlockEnd(cfg, v, next);
    }
    RoomIs(cfg, v, off, k);
    RoomIs(cfg, v, off, k + 1);
    RoomIs(cfg, v, off, k + 2);
  }

  /** The room behind a live block is what it and the free block behind it cover. */
  lemma RoomIs(cfg: Config, v: View, off: nat, k: nat)
    requires off in LiveSizes(v.blocks) && NoHand(v.blocks) && k > 0
    requires Rep(cfg, v, {}, {})
    ensures var next := off + v.blocks[off].size;
            RoomBehind(cfg, LiveSizes(v.blocks), off, k)
            <==> off + k <= if IsVacant(v.blocks, next) then next + v.blocks[next].size else next
  {
    hide Rep, SheetOf, EndOf;
    var live, next := LiveSizes(v.blocks), off + v.blocks[off].size;
    var end := if IsVacant(v.blocks, next) then next + v.blocks[next].size else next;
    ShapeOf(cfg, v, {}, {});
    BlockEnd(cfg, v, off);
    if next in v.blocks { BlockEnd(cfg, v, next); }
    assert IsVacant(v.blocks, next) ==> !IsVacant(v.blocks, next + v.blocks[next].size);
    if end in v.blocks {
      LiveAt(v.blocks, end);
      assert !v.blocks[end].use.Hand?;
    }
  }

  /** A block ends where another begins or its sheet ends. */
  lemma BlockEnd(cfg: Config, v: View, g: nat)
    requires g in v.blocks
    requires Rep(cfg, v, {}, {})
    ensures var n := g + v.blocks[g].size;
            && SheetOf(cfg, n) == SheetOf(cfg, g) && n <= EndOf(cfg, SheetOf(cfg, g))
            && (n !in v.blocks <==> n == EndOf(cfg, SheetOf(cfg, g))) && SheetOf(cfg, g) + DataOff(cfg) <= g
  {
    hide Sound, Calm, Linked, BitsMatch, Marks, Filed, Headers, FlCount, Pow2, SheetOf, EndOf, DataOff, Laid,
         SheetsPlaced;
    NextFacts(cfg, v, {}, {}, g);
    BlockBounds(cfg, |v.mem|, v.sheets, v.blocks, g);
  }

  /** `__make_table`: the search classes of all sizes up to the table's end. */
  method MakeTable(cfg: Config) returns (fl: seq<nat>, sl: seq<nat>)
    requires Sound(cfg)
    ensures TableAgrees(cfg, fl, sl)
  {
    hide Fls, Pow2, Shr, FlCount, DataSpan, SearchFl, SearchSl;
    var n := TableMax(cfg) + 1;
    var tf, ts := new nat[n], new nat[n];
    for i := 0 to n
      invariant forall j :: 2 <= j < i ==> tf[j] == SearchFl(cfg.slLog, 16 * j) && ts[j] == SearchSl(cfg.slLog, 16 * j)
    {
      var size := 16 * i;
      if size < 32 {
        tf[i], ts[i] := 0, 0;
        continue;
      }
      TableEntry(cfg.slLog, size);
      var f := Fls(size);
      var r := size + Pow2(f - cfg.slLog) - 1;
      var f2 := Fls(r);
      tf[i], ts[i] := f2 - 5, Shr(r, f2 - cfg.slLog) % Pow2(cfg.slLog);
    }
    return tf[..], ts[..];
  }

  /** The table's formula and the computed one agree. */
  lemma TableEntry(slLog: nat, size: nat)
    requires size >= 32 && slLog <= 5
    ensures Fls(size) >= 5
    ensures var r := size + Pow2(Fls(size) - slLog) - 1;
            && r >= size && Fls(r) >= 5
            && SearchFl(slLog, size) == Fls(r) - 5 && SearchSl(slLog, size) == Shr(r, Fls(r) - slLog) % Pow2(slLog)
  {
    hide Fls, Pow2, Shr, SearchFl, SearchSl;
    FlsMono(32, size);
    SearchIsRounded(slLog, size);
    FlsMono(32, RoundUp(slLog, size));
  }

  /** The whole sheet is filed in front of its list. */
  ghost predicate FiledFirst(cfg: Config, ls: seq<seq<nat>>, ls': seq<seq<nat>>, s: nat) {
    DataSpan(cfg) >= 2 && cfg.slLog <= 5
    && var i := Index(cfg.slLog, 16 * DataSpan(cfg));
    i < |ls| && ls' == ls[i := [s + DataOff(cfg)] + ls[i]]
  }

  /** Blocks keep their places and sizes. */
  ghost predicate ShapesKept(blk: Blocks, blk': Blocks) {
    forall g :: g in blk ==> g in blk' && blk'[g].size == blk[g].size && (blk[g].use.Vacant? ==> blk'[g].use.Vacant?)
  }

  lemma NotInHand(blk: Blocks, d: nat)
    requires NoHand(blk)
    ensures d in blk ==> !blk[d].use.Hand?
  {
  }

  lemma NewSheetSpares(cfg: Config, v: View, s: nat, mem: seq<Granule>)
    requires s !in v.sheets && Aligned(s, cfg.sheetLog) && |mem| == |v.mem|
    requires forall x: nat :: x < |mem| && !(s <= x < s + Span(cfg)) ==> mem[x] == v.mem[x]
    requires Rep(cfg, v, {}, {})
    ensures Spared(cfg, v.sheets + {s}, Lent(v.blocks), v.mem, mem)
  {
    hide Sound, Calm, Linked, BitsMatch, Marks, Filed, Headers, FlCount, Pow2, SheetOf, DataOff, Span, Laid,
         SheetsPlaced;
    NoBlockIn(cfg, |v.mem|, v.sheets, v.blocks, s);
    forall g: nat, x: nat | PayloadOf(Lent(v.blocks), g, x) && x < |mem| ensures mem[x] == v.mem[x] {
      BlockBounds(cfg, |v.mem|, v.sheets, v.blocks, g);
      PayloadSheet(cfg, |v.mem|, v.sheets, v.blocks, g, x);
    }
  }

  lemma PayloadSheet(cfg: Config, total: nat, sheets: set<nat>, blk: Blocks, g: nat, x: nat)
    requires SheetsPlaced(cfg, total, sheets) && Laid(cfg, sheets, blk) && PayloadOf(blk, g, x)
    ensures SheetOf(cfg, x) == SheetOf(cfg, g) && SheetOf(cfg, g) in sheets
  {
    hide SheetOf, DataOff, Span, Apart, Chained, Backed, SheetsPlaced;
    NextSheet(cfg, total, sheets, blk, g, x - g);
  }

  lemma AddLent(blk: Blocks, d: nat, b: Block)
    requires d !in blk && b.use.Hand?
    ensures LiveSizes(blk[d := b]) == LiveSizes(blk)
    ensures PartOf(Lent(blk), blk[d := b])
    ensures ShapesKept(blk, blk[d := b])
  {
  }

  lemma AddAlone(cfg: Config, w: View, blk: Blocks, s: nat)
    requires NoHand(blk) && DataSpan(cfg) >= 0 && w.blocks == blk[s + DataOff(cfg) := WholeBlock(cfg, s, Hand)]
    ensures OnlyHand(w.blocks, s + DataOff(cfg))
  {
  }

  lemma WholeEnds(cfg: Config, v: View, s: nat)
    requires s in v.sheets && s + DataOff(cfg) in v.blocks && v.blocks[s + DataOff(cfg)].size == DataSpan(cfg)
    requires Rep(cfg, v, {}, {})
    ensures s + DataOff(cfg) + DataSpan(cfg) !in v.blocks
  {
    hide Rep, SheetOf, DataOff, Span;
    FirstBlock(cfg, v, s);
    NextFacts(cfg, v, {}, {}, s + DataOff(cfg));
    WholeSpan(cfg, v, s);
  }

  lemma NoHandAfter(blk: Blocks, d: nat)
    requires OnlyHand(blk, d) && d in blk
    ensures NoHand(WithUse(blk, d, Vacant)) && ShapesKept(blk, WithUse(blk, d, Vacant))
  {
  }

  lemma SheetCounts(sheets: set<nat>, s: nat)
    requires s in sheets
    ensures |sheets| > 0 && |sheets - {s}| == |sheets| - 1
  {
  }

  lemma WholeIs(cfg: Config, v: View, s: nat, d: nat)
    requires s in v.sheets && d == s + DataOff(cfg) && EmptySheet(cfg, v.blocks, s) && DataSpan(cfg) >= 2
    requires Rep(cfg, v, {}, {})
    ensures d in v.blocks && v.blocks[d] == WholeBlock(cfg, s, Vacant)
  {
    hide Rep, SheetOf, Span, DataOff, DataSpan;
    FirstBlock(cfg, v, s);
    BlockFacts(cfg, v, {}, {}, d);
    FirstBacked(cfg, v, s);
  }

  lemma FirstBacked(cfg: Config, v: View, s: nat)
    requires s + DataOff(cfg) in v.blocks && SheetOf(cfg, s + DataOff(cfg)) == s
    requires Rep(cfg, v, {}, {})
    ensures v.blocks[s + DataOff(cfg)].prev == s
  {
    hide Sound, Calm, Linked, BitsMatch, Marks, Filed, Headers, FlCount, Pow2, SheetOf, DataOff, Span, SheetsPlaced,
         Inside, Apart, Chained;
    assert BackedAt(cfg, v.blocks, s + DataOff(cfg));
  }

  lemma RemoveLent(blk: Blocks, d: nat)
    requires OnlyHand(blk, d) && d in blk && blk[d].use.Hand?
    ensures NoHand(blk - {d}) && LiveSizes(blk - {d}) == LiveSizes(blk)
  {
  }

  /** The first-level bitmap is zero exactly when nothing is free. */
  lemma SomeVacant(cfg: Config, v: View)
    requires Rep(cfg, v, {}, {})
    ensures v.flBits == 0 <==> forall g: nat :: !IsVacant(v.blocks, g)
  {
    hide Rep, Index, Pow2, FlCount, BitsMatch;
    ParamBounds(cfg, v, {}, {});
    if v.flBits == 0 {
      forall g: nat ensures !IsVacant(v.blocks, g) {
        if IsVacant(v.blocks, g) {
          ClassOf(cfg, v, {}, {}, g);
          var f, i := Levels(cfg, v, Index(cfg.slLog, 16 * v.blocks[g].size));
          BitsOf(cfg, v, {}, {});
          FlBit(Pow2(cfg.slLog), v.slBits, v.flBits, v.lists, f);
          ZeroHasNoBits(f);
          ZeroHasNoBits(i);
        }
      }
    } else {
      TopLevel(cfg, v);
      ListHead(cfg, v, At(Pow2(cfg.slLog), Fls(v.flBits), Fls(v.slBits[Fls(v.flBits)])));
    }
  }

  /** The highest bits of both levels lead to the last non-empty list. */
  lemma TopLevel(cfg: Config, v: View)
    requires v.flBits > 0
    requires Rep(cfg, v, {}, {})
    ensures Fls(v.flBits) < |v.slBits| && v.slBits[Fls(v.flBits)] > 0
    ensures var t := At(Pow2(cfg.slLog), Fls(v.flBits), Fls(v.slBits[Fls(v.flBits)]));
            NonEmpty(v.lists, t) && forall j: nat :: t < j ==> !NonEmpty(v.lists, j)
  {
    hide Rep, Pow2, FlCount, BitsMatch, Fls;
    var k, fl := Pow2(cfg.slLog), Fls(v.flBits);
    BitsOf(cfg, v, {}, {});
    FlsIsHighest(v.flBits);
    FlBit(k, v.slBits, v.flBits, v.lists, fl);
    var sl := Fls(v.slBits[fl]);
    FlsIsHighest(v.slBits[fl]);
    SlBit(k, v.slBits, v.flBits, v.lists, fl, sl);
    forall j: nat | At(k, fl, sl) < j ensures !NonEmpty(v.lists, j) {
      if NonEmpty(v.lists, j) {
        var f, i := Levels(cfg, v, j);
        LevelOrder(f, i, fl, sl, k);
        FlBit(k, v.slBits, v.flBits, v.lists, f);
        ZeroHasNoBits(i);
      }
    }
  }

  /** A request no larger than the head of the last non-empty list is met: either the search class is
      not above that list, or the request belongs to that very list and the exact fallback finds it. */
  lemma TopFits(cfg: Config, v: View, t: nat, n: nat)
    requires cfg.slLog <= 5 && NonEmpty(v.lists, t) && (forall j: nat :: t < j ==> !NonEmpty(v.lists, j))
    requires v.lists[t][0] in v.blocks && 1 <= n <= 16 * (v.blocks[v.lists[t][0]].size - 1)
    requires Rep(cfg, v, {}, {})
    ensures FitsIn(cfg, v.lists, v.blocks, n)
  {
    hide Rep, Index, SearchIndex, DataSpan;
    var h := v.lists[t][0];
    ListHead(cfg, v, t);
    BlockFacts(cfg, v, {}, {}, h);
    var size := 16 * Adjusted(cfg, n);
    if SearchIndex(cfg.slLog, size) > t {
      SearchAtMostNext(cfg.slLog, size);
      IndexMono(cfg.slLog, size, 16 * v.blocks[h].size);
      assert Exact(cfg.slLog, v.lists, v.blocks, size);
    } else {
      assert Above(cfg.slLog, v.lists, size);
    }
  }

  /** And no larger request is met. */
  lemma FitsTop(cfg: Config, v: View, t: nat, n: nat)
    requires cfg.slLog <= 5 && NonEmpty(v.lists, t) && (forall j: nat :: t < j ==> !NonEmpty(v.lists, j))
    requires v.lists[t][0] in v.blocks && FitsIn(cfg, v.lists, v.blocks, n)
    requires Rep(cfg, v, {}, {})
    ensures n <= 16 * (v.blocks[v.lists[t][0]].size - 1)
  {
    hide Rep, Index, SearchIndex, DataSpan;
    var h, size := v.lists[t][0], 16 * Adjusted(cfg, n);
    ListHead(cfg, v, t);
    if Above(cfg.slLog, v.lists, size) {
      GoodFit(cfg.slLog, size, 16 * v.blocks[h].size);
    } else {
      var i := Index(cfg.slLog, size);
      ListHead(cfg, v, i);
      if i < t { IndexStrict(cfg.slLog, size, 16 * v.blocks[h].size); }
    }
  }

  /** Nothing is met while nothing is free. */
  lemma NothingFits(cfg: Config, v: View, n: nat)
    requires cfg.slLog <= 5 && forall g: nat :: !IsVacant(v.blocks, g)
    requires Rep(cfg, v, {}, {})
    ensures !FitsIn(cfg, v.lists, v.blocks, n)
  {
    hide Rep, Index, SearchIndex, Adjusted;
    forall i: nat ensures !NonEmpty(v.lists, i) {
      if NonEmpty(v.lists, i) { ListHead(cfg, v, i); }
    }
  }

  ghost predicate FitsIn(cfg: Config, lists: seq<seq<nat>>, blk: Blocks, n: nat)
    requires cfg.slLog <= 5
  {
    var adj := Adjusted(cfg, n);
    adj >= 2 && Findable(cfg.slLog, lists, blk, 16 * adj)
  }

  /** What a grant looks like: it holds `n` bytes with less than two granules to spare beyond the
      adjusted size, its header was a free block, and that block headed the list searched for. */
  ghost predicate Granted(cfg: Config, lists: seq<seq<nat>>, blk: Blocks, n: nat, c: Chunk)
    requires cfg.slLog <= 5
  {
    var adj := Adjusted(cfg, n);
    && adj >= 2 && c.Chunk? && c.pos > 0 && c.len % 16 == 0 && n <= c.len && adj <= c.len / 16 + 1 <= adj + 1
    && c.pos - 1 !in LiveSizes(blk)
    && HeadsList(cfg.slLog, lists, blk, 16 * adj, c.pos - 1)
  }

  ghost predicate HeadsList(slLog: nat, lists: seq<seq<nat>>, blk: Blocks, size: nat, off: nat)
    requires size >= 32 && slLog <= 5
  {
    exists i: nat :: Hit(slLog, lists, blk, size, off, i)
  }

  /** What a failed search leaves unused: every free block lies below the search class, and exceeds the
      request by less than one part in `2^SlLog2` of it. */
  lemma FailedSearch(cfg: Config, v: View, size: nat, g: nat)
    requires size >= 32 && cfg.slLog <= 5 && !Findable(cfg.slLog, v.lists, v.blocks, size) && IsVacant(v.blocks, g)
    requires v.blocks[g].size >= 2
    requires Rep(cfg, v, {}, {})
    ensures Index(cfg.slLog, 16 * v.blocks[g].size) < SearchIndex(cfg.slLog, size)
    ensures 16 * v.blocks[g].size < size + Pow2(Fl(size) + 5 - cfg.slLog)
    ensures Pow2(cfg.slLog) * Pow2(Fl(size) + 5 - cfg.slLog) <= size
  {
    hide Rep, Pow2, Fl, Index, SearchIndex, Exact, At;
    ClassOf(cfg, v, {}, {}, g);
    assert NonEmpty(v.lists, Index(cfg.slLog, 16 * v.blocks[g].size));
    BelowSearchIsTight(cfg.slLog, size, 16 * v.blocks[g].size);
  }

  lemma HitFacts(cfg: Config, v: View, size: nat, off: nat, idx: nat)
    requires size >= 32 && cfg.slLog <= 5 && Hit(cfg.slLog, v.lists, v.blocks, size, off, idx)
    requires Rep(cfg, v, {}, {})
    ensures off in v.blocks && v.blocks[off].use.Vacant? && size <= 16 * v.blocks[off].size && 2 <= v.blocks[off].size
    ensures off < |v.mem| && off !in Lent(v.blocks)
  {
    hide Rep, Index, SearchIndex, Above;
    BlockFacts(cfg, v, {}, {}, off);
  }

  /** Taking a free block in hand: its neighbour is not free, and no other is in hand. */
  lemma HandShape(blk: Blocks, off: nat)
    requires Calm(blk) && NoHand(blk) && IsVacant(blk, off) && blk[off].size >= 2
    ensures OnlyHand(WithUse(blk, off, Hand), off) && !IsVacant(WithUse(blk, off, Hand), off + blk[off].size)
    ensures off !in LiveSizes(blk)
  {
    assert !IsVacant(blk, off + blk[off].size);
  }

  lemma HandAlone(blk: Blocks, off: nat)
    requires NoHand(blk) && off in blk
    ensures OnlyHand(WithUse(blk, off, Hand), off)
  {
  }

  lemma CarveShape(blk: Blocks, off: nat, take: nat)
    requires off in blk && OnlyHand(blk, off) && 2 <= take && take + 2 <= blk[off].size && Apart(blk)
    ensures var t := CarveBlocks(blk, off, take);
            && off in t && t[off] == blk[off].(size := take) && OnlyHand(t, off)
            && LiveSizes(t) == if blk[off].use.Live? then LiveSizes(blk)[off := take] else LiveSizes(blk)
  {
    hide CarveBlocks, LiveSizes;
    CarveAt(blk, off, take);
    var t, lent := CarveBlocks(blk, off, take), if blk[off].use.Live? then LiveSizes(blk)[off := take]
        else LiveSizes(blk);
    forall g: nat ensures g in LiveSizes(t) <==> g in lent {
      LiveAt(t, g);
      LiveAt(blk, g);
      LiveAt(blk, off);
    }
    forall g: nat | g in LiveSizes(t) ensures LiveSizes(t)[g] == lent[g] {
      LiveAt(t, g);
      LiveAt(blk, g);
    }
  }

  /** The blocks after a cut: one shorter, one new, and one with another back link. */
  lemma CarveAt(blk: Blocks, off: nat, take: nat)
    requires off in blk && 2 <= take && take + 2 <= blk[off].size && Apart(blk)
    ensures var t := CarveBlocks(blk, off, take);
            && off + take !in blk && t.Keys == blk.Keys + {off + take} && t[off] == blk[off].(size := take)
               && t[off + take].use.Vacant?
            && forall g :: g in blk && g != off ==> t[g].use == blk[g].use && t[g].size == blk[g].size
  {
  }


  lemma HeaderOf(cfg: Config, v: View, xw: set<nat>, xp: set<nat>, g: nat)
    requires g in v.blocks && Rep(cfg, v, xw, xp)
    ensures IsHeader(cfg, v.blocks, v.sheets, g)
  {
    hide Rep, SheetOf;
    BlockFacts(cfg, v, xw, xp, g);
  }

  lemma LiveHand(blk: Blocks, off: nat)
    requires OnlyHand(blk, off) && off in blk
    ensures NoHand(WithUse(blk, off, Live))
  {
  }

  lemma LiveAt(blk: Blocks, g: nat)
    ensures g in LiveSizes(blk) <==> g in blk && blk[g].use.Live?
    ensures g in LiveSizes(blk) ==> LiveSizes(blk)[g] == blk[g].size
  {
  }

  lemma LentLess(blk: Blocks, off: nat)
    ensures PartOf(Lent(blk) - {off}, blk)
  {
  }

  /** The mark and the header of a payload granule. */
  lemma OwnFacts(cfg: Config, v: View, p: nat)
    requires SheetOf(cfg, p) in v.sheets && Rep(cfg, v, {}, {})
    ensures var s, r := SheetOf(cfg, p), p - SheetOf(cfg, p);
            && 0 <= r && s + 1 + r / 128 < |v.mem| < NULL && p < s + Span(cfg) <= |v.mem|
            && (GranuleBit(v.mem[s + 1 + r / 128], r % 128) <==> IsLive(v.blocks, p - 1))
            && (IsLive(v.blocks, p - 1) ==>
                  && DataOff(cfg) + 1 <= r < Span(cfg) - 1 && v.mem[p - 1].w0 == 16 * v.blocks[p - 1].size + 1
                  && v.blocks[p - 1].size >= 2 && r - 1 + v.blocks[p - 1].size <= Span(cfg) - 1)
  {
    hide Sound, Laid, Calm, Linked, BitsMatch, Filed, Headers, FlCount, Pow2, SheetOf, DataOff, Span, GranuleBit,
         Inside, Apart, Chained, Backed, SheetsPlaced;
    SheetOfBounds(cfg, p);
    SheetFits(cfg, |v.mem|, v.sheets, SheetOf(cfg, p));
    BitmapCellPlace(cfg, |v.mem|, v.sheets, p);
    assert Marked(cfg, v.mem, p) <==> IsLive(v.blocks, p - 1);
    if IsLive(v.blocks, p - 1) {
      BlockFacts(cfg, v, {}, {}, p - 1);
      BlockBounds(cfg, |v.mem|, v.sheets, v.blocks, p - 1);
      LaidParts(cfg, v.sheets, v.blocks);
      NextSheet(cfg, |v.mem|, v.sheets, v.blocks, p - 1, 1);
    }
  }

  /** The tests of `owns_len` decide whether the pointer is the payload start of a live block. */
  lemma OwnDecide(cfg: Config, v: View, up: nat, p: nat, r: nat)
    requires p == up / 16 && SheetOf(cfg, p) in v.sheets && p == SheetOf(cfg, p) + r
    requires Rep(cfg, v, {}, {})
    ensures SheetOf(cfg, p) + 1 + r / 128 < |v.mem| && p < |v.mem|
    ensures r < DataOff(cfg) + 1 || r >= Span(cfg) - 1 || up % 16 != 0 ==> OwnAnswer(v.blocks, up) == (NULL, 0)
    ensures p >= 1 && up % 16 == 0 && r >= DataOff(cfg) + 1 && r < Span(cfg) - 1 ==>
              OwnAnswer(v.blocks, up)
              == OwnTest(cfg, v.mem[p - 1].w0, GranuleBit(v.mem[SheetOf(cfg, p) + 1 + r / 128], r % 128), p, r)
  {
    hide Rep, SheetOf, DataOff, Span, GranuleBit, OwnAnswer, IsLive;
    OwnFacts(cfg, v, p);
    OwnAnswerAt(v.blocks, up, p);
  }

  lemma OwnAnswerAt(blk: Blocks, up: nat, p: nat)
    requires p == up / 16
    ensures OwnAnswer(blk, up) == if up % 16 == 0 && IsLive(blk, p - 1) then (p - 1, 16 * (blk[p - 1].size - 1))
            else (NULL, 0)
  {
  }

  /** What the tests on header word `f`, the mark and the range come to. */
  function OwnTest(cfg: Config, f: nat, marked: bool, p: nat, r: int): (int, int) {
    if marked && f % 4 == 1 && 16 * Bsize(f) >= 32
        && r - 1 + Bsize(f) <= Span(cfg) - 1 then (p - 1, 16 * (Bsize(f) - 1))
    else (NULL, 0)
  }

  /** A free block of full size is a whole sheet, and no other block is. */
  lemma WholeSheet(cfg: Config, v: View, o: nat)
    requires IsVacant(v.blocks, o) && Rep(cfg, v, {}, {})
    ensures v.blocks[o].size == DataSpan(cfg) <==> EmptySheet(cfg, v.blocks, SheetOf(cfg, o))
  {
    hide Sound, Calm, Linked, BitsMatch, Marks, Filed, Headers, FlCount, Pow2, SheetOf, DataOff, Span, Laid,
         SheetsPlaced;
    BlockBounds(cfg, |v.mem|, v.sheets, v.blocks, o);
    if EmptySheet(cfg, v.blocks, SheetOf(cfg, o)) {
      AloneInSheet(cfg, v, SheetOf(cfg, o));
    }
  }

  lemma NotLive(blk: Blocks, g: nat, kept: Blocks)
    requires PartOf(kept, blk) && g in blk && !blk[g].use.Live?
    ensures g !in kept
  {
  }

  lemma HeadAfter(mem: seq<Granule>, heads: seq<nat>, lists: seq<seq<nat>>, idx: nat, l: seq<nat>)
    requires idx < |lists| && Linked(TlsfLinks, mem, heads, lists[idx := l])
    ensures |heads| == |lists| && (heads[idx] == NULL <==> l == [])
  {
    hide Linked;
    HeadOf(TlsfLinks, mem, heads, lists[idx := l], idx);
  }

  /** A list index is its two levels. */
  lemma IndexParts(cfg: Config, slBits: seq<nat>, flBits: nat, ls: seq<seq<nat>>, idx: nat)
    requires BitsMatch(Pow2(cfg.slLog), slBits, flBits, ls) && NonEmpty(ls, idx)
    ensures var fl, sl := Shr(idx, cfg.slLog), idx % Pow2(cfg.slLog);
            fl < |slBits| && sl < Pow2(cfg.slLog) && At(Pow2(cfg.slLog), fl, sl) == idx
  {
    hide Pow2, Shr, Bit;
    var k := Pow2(cfg.slLog);
    ShrIsDiv(idx, cfg.slLog);
    assert idx == idx / k * k + idx % k;
    MulBelow(idx / k + 1, |slBits|,
        k) by { assert (idx / k + 1) * k <= idx + k; assert (|slBits| + 1) * k == |slBits| * k + k; }
  }

  ghost predicate TableAgrees(cfg: Config, fl: seq<nat>, sl: seq<nat>) {
    && |fl| == |sl| == TableMax(cfg) + 1 && cfg.slLog <= 5
    && (forall i :: 2 <= i < |fl| ==> fl[i] == SearchFl(cfg.slLog, 16 * i) && sl[i] == SearchSl(cfg.slLog, 16 * i))
  }

  lemma ParamBounds(cfg: Config, v: View, xw: set<nat>, xp: set<nat>)
    requires Rep(cfg, v, xw, xp)
    ensures cfg.slLog <= 5 && Sound(cfg)
  {
  }

  lemma AtIs(k: nat, fl: nat, sl: nat)
    ensures At(k, fl, sl) == fl * k + sl
  {
  }

  lemma BitsOf(cfg: Config, v: View, xw: set<nat>, xp: set<nat>)
    requires Rep(cfg, v, xw, xp)
    ensures BitsMatch(Pow2(cfg.slLog), v.slBits, v.flBits, v.lists) && |v.slBits| == FlCount(cfg)
    ensures |v.lists| == FlCount(cfg) * Pow2(cfg.slLog)
  {
  }
}
