/** The allocation interface over the heap.  `rz` is the number of bytes a red zone adds to every
    request; it lies behind what callers may use. */
module MallocTier {
  import opened Bits
  import opened Granules
  import opened Mapping
  import opened RegionState
  import opened RegionTier
  import opened HeapState
  import opened HeapBytes
  import opened HeapTier
  import opened Setup

  /** Nothing, and nothing has changed; or a new block of at least `size` bytes besides its red zone. */
  ghost predicate UserOutcome(rs: seq<Region>, l0: seq<Loans>, l1: seq<Loans>, m: Memory, size: nat, rz: nat) {
    if m.NullMemory? then l1 == l0 else 0 < size <= m.len && Gained(rs, l0, l1, Memory(m.ptr, m.len + rz), size + rz)
  }

  /** Which blocks serve `n` bytes at an alignment: only whole ones beyond the small class or ordinary
      alignments, and none shorter than an extraordinary alignment. */
  ghost predicate Suited(cfg: Config, at: Located, n: nat, alignment: nat) {
    && (alignment > NATIVE_ALIGNMENT || n > cfg.smallMax ==> at.InBuddy?)
    && (alignment > NATIVE_ALIGNMENT ==> alignment <= LenOf(at))
  }

  /** `balloc` */
  method Balloc(h: Heap, rz: nat, size: nat) returns (m: Memory)
    requires h.Valid()
    modifies Footprint(h.regions)
    ensures h.Valid() && h.regions == old(h.regions)
    ensures UserOutcome(h.regions, old(h.Live()), h.Live(), m, size, rz)
    ensures m.Memory? ==> Routed(h.regions, h.cfg, old(h.Live()), old(h.Cans(size + rz)), h.Live(), m.ptr, size + rz)
    ensures m.NullMemory? <==> size == 0 || size + rz >= WORD
                               || NoneServes(h.regions, h.cfg, old(h.Live()), old(h.Cans(size + rz)), size + rz, 1)
    ensures size > 0 && size + rz < WORD && old(h.NeedsSheet(size + rz)) ==>
              m.Memory? && OpensSheet(h.regions, h.cfg, h.Live(), m.ptr, size + rz)
    ensures AllIntact(h.regions, old(h.Live()), old(h.Mems()), h.Mems())
  {
    hide Heap.Valid, Heap.Live, Heap.Mems, Heap.Cans, AllIntact, NoneSmall, NoneLarge, Find, SameBut, Routed, Gained,
         OpensSheet, Heap.NeedsSheet, Footprint;
    AllSame(h.regions, h.Live(), h.Mems());
    if size == 0 || size + rz >= WORD {
      return NullMemory;
    }
    var c := h.Alloc(size + rz);
    if c.NullMemory? {
      return NullMemory;
    }
    GainedAt(h.regions, old(h.Live()), h.Live(), c, size + rz);
    return Memory(c.ptr, c.len - rz);
  }

  /** `aligned_balloc` */
  method AlignedBalloc(h: Heap, rz: nat, alignment: nat, size: nat) returns (m: Memory)
    requires h.Valid()
    modifies Footprint(h.regions)
    ensures h.Valid() && h.regions == old(h.regions)
    ensures UserOutcome(h.regions, old(h.Live()), h.Live(), m, size, rz)
    ensures m.Memory? ==> alignment > 0 && m.ptr % alignment == 0
    ensures m.NullMemory? <==> size == 0 || !IsPow2(alignment) || alignment == 0 || size + rz >= WORD
                               || NoneServes(h.regions, h.cfg, old(h.Live()), old(h.Cans(size + rz)), size + rz,
                                  alignment)
    ensures m.Memory? && alignment > NATIVE_ALIGNMENT ==>
              RouteAligned(h.regions, h.cfg, old(h.Live()), h.Live(), m.ptr, size + rz, alignment)
                  && alignment <= m.len + rz
    ensures AllIntact(h.regions, old(h.Live()), old(h.Mems()), h.Mems())
  {
    hide Heap.Valid, Heap.Live, Heap.Mems, Heap.Cans, AllIntact, NoneSmall, NoneLarge, NoneAligned, Find, SameBut,
         IsPow2, Routed, RouteAligned, Gained, Footprint;
    AllSame(h.regions, h.Live(), h.Mems());
    Pow2IsPositive(alignment);
    if size == 0 || !IsPow2(alignment) || size + rz >= WORD {
      return NullMemory;
    }
    var c := h.AllocAligned(size + rz, alignment);
    if c.NullMemory? {
      return NullMemory;
    }
    GainedAt(h.regions, old(h.Live()), h.Live(), c, size + rz);
    return Memory(c.ptr, c.len - rz);
  }

  /** The choice `resize` makes between the two. */
  method AnyBalloc(h: Heap, rz: nat, alignment: nat, size: nat) returns (m: Memory)
    requires h.Valid() && IsPow2(alignment) && alignment > 0
    modifies Footprint(h.regions)
    ensures h.Valid() && h.regions == old(h.regions)
    ensures UserOutcome(h.regions, old(h.Live()), h.Live(), m, size, rz)
    ensures m.Memory? ==>
            m.ptr % alignment == 0
            && Suited(h.cfg, Find(h.regions, h.Live(), m.ptr), size + rz, alignment)
    ensures m.NullMemory? <==> size == 0 || size + rz >= WORD
                               || NoneServes(h.regions, h.cfg, old(h.Live()), old(h.Cans(size + rz)), size + rz,
                                  alignment)
    ensures AllIntact(h.regions, old(h.Live()), old(h.Mems()), h.Mems())
  {
    hide Heap.Valid, Heap.Live, Heap.Mems, Heap.Cans, AllIntact, Find, SameBut, IsPow2, Gained, Routed, RouteAligned,
         NoneSmall, NoneLarge, NoneAligned, Footprint;
    if alignment <= NATIVE_ALIGNMENT {
      m := Balloc(h, rz, size);
      if m.Memory? {
        GainedAt(h.regions, old(h.Live()), h.Live(), Memory(m.ptr, m.len + rz), size + rz);
        h.NativelyAligned(Memory(m.ptr, m.len + rz), alignment);
        RoutedWhere(h.regions, h.cfg, old(h.Live()), old(h.Cans(size + rz)), h.Live(), m.ptr, size + rz);
      }
    } else {
      m := AlignedBalloc(h, rz, alignment, size);
      if m.Memory? {
        AlignedWhere(h.regions, h.cfg, old(h.Live()), h.Live(), m, rz, size, alignment);
      }
    }
  }

  lemma RoutedWhere(rs: seq<Region>, cfg: Config, l0: seq<Loans>, cans: seq<bool>, l1: seq<Loans>, p: nat, n: nat)
    requires |l1| == |rs| == |l0| == |cans| && Routed(rs, cfg, l0, cans, l1, p, n)
    ensures n > cfg.smallMax ==> Find(rs, l1, p).InBuddy?
  {
    hide Find, RegionOf, LargeFits, NoneSmall;
  }

  lemma AlignedWhere(rs: seq<Region>, cfg: Config, l0: seq<Loans>, l1: seq<Loans>, m: Memory, rz: nat, size: nat,
      alignment: nat)
    requires |l1| == |rs| == |l0| && m.Memory? && UserOutcome(rs, l0, l1, m, size, rz)
    requires RouteAligned(rs, cfg, l0, l1, m.ptr, size + rz, alignment)
    ensures Find(rs, l1, m.ptr).InBuddy? && LenOf(Find(rs, l1, m.ptr)) == m.len + rz
  {
    hide Find, RegionOf, AlignedFits, SameBut;
  }

  /** `dealloc`: refuses, unchanged, whatever is not the start of a live block. */
  method Dealloc(h: Heap, rz: nat, p: nat) returns (ok: bool)
    requires h.Valid()
    modifies Footprint(h.regions)
    ensures h.Valid() && h.regions == old(h.regions)
    ensures var len := LenOf(Find(h.regions, old(h.Live()), p));
            && (ok <==> p == 0 || (len > 0 && len >= rz))
            && (ok && p != 0 ==> Moved(h.regions, old(h.Live()), h.Live(), p, Nowhere))
    ensures !ok || p == 0 ==>
            h.Live() == old(h.Live()) && h.Mems() == old(h.Mems())
            && forall k: nat :: h.Cans(k) == old(h.Cans(k))
    ensures AllIntact(h.regions, h.Live(), old(h.Mems()), h.Mems())
  {
    hide Heap.Valid, Heap.Live, Heap.Mems, Heap.Cans, AllIntact, Find, Moved;
    AllSame(h.regions, h.Live(), h.Mems());
    if p == 0 {
      return true;
    }
    var i, l := h.Locate(p);
    if LenOf(l) == 0 || LenOf(l) < rz {
      return false;
    }
    ok := h.Release(i, l, p);
  }

  /** `memcpy` from one live block to another. */
  method Copy(h: Heap, dst: nat, src: nat, n: nat)
    requires h.Valid() && dst != src
    requires n <= LenOf(Find(h.regions, h.Live(), dst)) && n <= LenOf(Find(h.regions, h.Live(), src))
    modifies Footprint(h.regions)
    ensures h.Valid() && h.regions == old(h.regions) && h.Live() == old(h.Live())
    ensures Copied(h.regions, old(h.Mems()), h.Mems(), dst, src, n)
  {
    hide Heap.Valid, Heap.Live, Heap.Mems, Heap.Cans, Find, ReadByte, WellPlaced, Copied;
    ghost var l0, m0 := h.Live(), h.Mems();
    h.Placed();
    CopiedNone(h.regions, m0, dst, src);
    for k := 0 to n
      invariant h.Valid() && h.regions == old(h.regions) && h.Live() == l0
      invariant Copied(h.regions, m0, h.Mems(), dst, src, k)
    {
      SourceApart(h.regions, l0, dst, src, n, k);
      var b := h.Load(src + k, src);
      ghost var m1 := h.Mems();
      h.Store(dst + k, b, dst);
      CopiedOne(h.regions, m0, m1, h.Mems(), dst, src, k);
    }
  }

  /** `n` bytes have been copied, and no other byte has changed. */
  ghost predicate Copied(rs: seq<Region>, m0: seq<seq<Granule>>, m1: seq<seq<Granule>>, dst: nat, src: nat, n: nat) {
    && |m0| == |m1| == |rs|
    && forall a: nat :: ReadByte(rs, m1, a) == ReadByte(rs, m0, if dst <= a < dst + n then src + (a - dst) else a)
  }

  lemma CopiedNone(rs: seq<Region>, m: seq<seq<Granule>>, dst: nat, src: nat)
    requires |m| == |rs|
    ensures Copied(rs, m, m, dst, src, 0)
  {
    hide ReadByte;
  }

  /** Storing byte `k` of the source as byte `k` of the target carries the copy one byte on. */
  lemma CopiedOne(rs: seq<Region>, m0: seq<seq<Granule>>, m1: seq<seq<Granule>>, m2: seq<seq<Granule>>, dst: nat,
      src: nat, k: nat)
    requires Copied(rs, m0, m1, dst, src, k) && !(dst <= src + k < dst + k) && |m2| == |rs|
    requires forall c: nat :: ReadByte(rs, m2, c) == if c == dst + k then ReadByte(rs, m1, src + k)
             else ReadByte(rs, m1, c)
    ensures Copied(rs, m0, m2, dst, src, k + 1)
  {
    hide ReadByte;
    assert ReadByte(rs, m1, src + k) == ReadByte(rs, m0, src + k);
  }

  lemma SourceApart(rs: seq<Region>, live: seq<Loans>, dst: nat, src: nat, n: nat, k: nat)
    requires WellPlaced(rs, live) && dst != src && k < n
    requires n <= LenOf(Find(rs, live, dst)) && n <= LenOf(Find(rs, live, src))
    ensures !(dst <= src + k < dst + n)
  {
    hide WellPlaced, Find;
    if dst <= src + k < dst + n {
      BlocksApart(rs, live, dst, src, src + k);
      assert false;
    }
  }

  // ---- resize -------------------------------------------------------------------------------------------------

  function Least(a: nat, b: nat): nat { if a < b then a else b }

  /** The bytes at `q` are now those that were at `p`, as far as each of the four lengths goes. */
  ghost predicate SamePrefix(rs: seq<Region>, m0: seq<seq<Granule>>, p: nat, m1: seq<seq<Granule>>, q: nat,
                             preserve: nat, len0: nat, have: nat, now: nat)
    requires |m0| == |m1| == |rs|
  {
    forall a: nat :: q <= a && a - q < preserve && a - q < len0 && a - q < have && a - q < now ==>
      ReadByte(rs, m1, a) == ReadByte(rs, m0, p + (a - q))
  }

  /** `m` has taken the place of `was`: it is a live block of at least `size` bytes, aligned as asked, with
      the same first bytes.  Every other pointer leads where it led, to the same bytes. */
  ghost predicate Resized(rs: seq<Region>, l0: seq<Loans>, l1: seq<Loans>, m0: seq<seq<Granule>>, m1: seq<seq<Granule>>,
                          was: Memory, m: Memory, rz: nat, size: nat, preserve: nat, alignment: nat)
  {
    && |l0| == |l1| == |m0| == |m1| == |rs| && was.Memory? && m.Memory? && alignment > 0
    && size <= m.len && m.ptr % alignment == 0 && LenOf(Find(rs, l1, m.ptr)) == m.len + rz
    && rz <= LenOf(Find(rs, l0, was.ptr)) && Find(rs, l0, was.ptr) != Nowhere
    && (m.ptr != was.ptr ==> Find(rs, l0, m.ptr) == Nowhere && Find(rs, l1, was.ptr) == Nowhere)
    && (forall x: nat :: x != was.ptr && x != m.ptr ==> Find(rs, l1, x) == Find(rs, l0, x))
    && SamePrefix(rs, m0, was.ptr, m1, m.ptr, preserve, was.len, LenOf(Find(rs, l0, was.ptr)) - rz, m.len)
    && KeptBut(rs, l0, m0, m1, was.ptr)
  }

  /** The usable bytes, red zone included, that the block at `p` has if it can be kept in place for `n` bytes
      at an alignment; 0 if it must move. */
  ghost function LenInPlace(h: Heap, p: nat, n: nat, alignment: nat): nat
    reads h, Footprint(h.regions)
  {
    var at, i := Find(h.regions, h.Live(), p), RegionOf(h.regions, p, 0);
    if i == |h.regions| || alignment == 0 || p % alignment != 0 then 0
    else if n <= LenOf(at) then (if at.InTlsf? then ShrunkBytes(at.len, n) else LenOf(at))
    else if n < WORD then h.regions[i].GrownTo(at, p - h.regions[i].base, n)
    else 0
  }

  /** When `resize` returns nothing: asked for nothing or for a bad alignment, given what is no live block, or
      with a block to find and none to be had. */
  ghost predicate ResizeFails(h: Heap, rz: nat, was: Memory, size: nat, alignment: nat)
    reads h, Footprint(h.regions)
  {
    var len := if was.NullMemory? then 0 else LenOf(Find(h.regions, h.Live(), was.ptr));
    || size == 0 || !IsPow2(alignment) || alignment == 0
    || (was.Memory? && (len == 0 || len < rz))
    || ((was.NullMemory? || LenInPlace(h, was.ptr, size + rz, alignment) == 0)
        && (size + rz >= WORD || NoneServes(h.regions, h.cfg, h.Live(), h.Cans(size + rz), size + rz, alignment)))
  }

  /** Where a resized block is: in place with `len` bytes, if that is not 0; elsewhere, in a block suited to
      the request, otherwise. */
  ghost predicate EndsUp(h: Heap, rz: nat, m: Memory, p: nat, len: nat, size: nat, alignment: nat)
    requires m.Memory?
    reads h, Footprint(h.regions)
  {
    if len > 0 then m.ptr == p && m.len + rz == len
    else m.ptr != p && Suited(h.cfg, Find(h.regions, h.Live(), m.ptr), size + rz, alignment)
  }

  /** `resize` of a block that is live. */
  method ResizeLive(h: Heap, rz: nat, was: Memory, size: nat, preserve: nat, alignment: nat, i: nat, l: Located)
      returns (m: Memory)
    requires h.Valid() && was.Memory? && size > 0 && IsPow2(alignment) && alignment > 0
    requires l == Find(h.regions, h.Live(), was.ptr) && i == RegionOf(h.regions, was.ptr, 0) && LenOf(l) > 0
             && LenOf(l) >= rz
    modifies Footprint(h.regions)
    ensures h.Valid() && h.regions == old(h.regions)
    ensures if m.NullMemory? then h.Live() == old(h.Live())
            && AllIntact(h.regions, old(h.Live()), old(h.Mems()), h.Mems())
            else Resized(h.regions, old(h.Live()), h.Live(), old(h.Mems()), h.Mems(), was, m, rz, size, preserve,
                 alignment)
    ensures m.NullMemory? <==> old(ResizeFails(h, rz, was, size, alignment))
    ensures m.Memory? ==> EndsUp(h, rz, m, was.ptr, old(LenInPlace(h, was.ptr, size + rz, alignment)), size, alignment)
  {
    hide Heap.Valid, Heap.Live, Heap.Mems, Heap.Cans, AllIntact, Find, Moved, Resized, IsPow2, RegionOf,
         Region.GrowsInPlace, Region.GrownTo, NoneServes, Suited, Footprint;
    ghost var j, up := h.AtPointer(was.ptr);
    h.BlockSizes(was.ptr);
    var block := LenOf(l);
    var have := block - rz;
    var placed := was.ptr % alignment == 0;
    var sane := size + rz < WORD;
    if size <= have && placed {
      m := ResizeDown(h, rz, was, size, preserve, alignment, i, l);
      return;
    }
    if placed && sane {
      var nb := ResizeUp(h, rz, was, size, preserve, alignment, i, l);
      if nb != 0 {
        return Memory(was.ptr, nb - rz);
      }
      m := ResizeAway(h, rz, was, size, preserve, alignment, i, l);
      return;
    }
    m := ResizeAway(h, rz, was, size, preserve, alignment, i, l);
  }

  /** Shrinking in place; a block that cannot give anything back is kept as it is. */
  method ResizeDown(h: Heap, rz: nat, was: Memory, size: nat, preserve: nat, alignment: nat, i: nat, l: Located)
      returns (m: Memory)
    requires h.Valid() && was.Memory? && size > 0 && alignment > 0 && was.ptr % alignment == 0
    requires l == Find(h.regions, h.Live(), was.ptr) && i == RegionOf(h.regions, was.ptr, 0) && size + rz <= LenOf(l)
    modifies Footprint(h.regions)
    ensures h.Valid() && h.regions == old(h.regions) && m.Memory? && m.ptr == was.ptr
    ensures m.len + rz == if l.InTlsf? && size + rz < WORD then ShrunkBytes(l.len, size + rz) else LenOf(l)
    ensures l.InTlsf? && size + rz < WORD ==> m.len < size + 32 && (m.len + rz == l.len || m.len < size + 16)
    ensures Resized(h.regions, old(h.Live()), h.Live(), old(h.Mems()), h.Mems(), was, m, rz, size, preserve, alignment)
  {
    hide Heap.Valid, Heap.Live, Heap.Mems, Heap.Cans, AllIntact, Find, Moved, Resized, Footprint;
    ghost var l0, m0 := h.Live(), h.Mems();
    AllSame(h.regions, l0, m0);
    Unmoved(h.regions, l0, was.ptr);
    h.Placed();
    if size + rz < WORD {
      var nb;
      ghost var at;
      nb, at := h.ShrinkAt(i, l, was.ptr, size + rz);
      h.Placed();
      var now := if nb < rz then 0 else nb - rz;
      m := Memory(was.ptr, now);
      InPlace(h.regions, l0, h.Live(), h.Live(), m0, h.Mems(), was, m, at, rz, size, preserve, alignment);
      return;
    }
    m := Memory(was.ptr, LenOf(l) - rz);
    InPlace(h.regions, l0, l0, l0, m0, m0, was, m, l, rz, size, preserve, alignment);
  }

  /** Growing in place: the block's new size, or 0 and nothing has changed. */
  method ResizeUp(h: Heap, rz: nat, was: Memory, size: nat, preserve: nat, alignment: nat, i: nat, l: Located)
      returns (nb: nat)
    requires h.Valid() && was.Memory? && size > 0 && alignment > 0 && was.ptr % alignment == 0 && LenOf(l) >= rz
    requires l == Find(h.regions, h.Live(), was.ptr) && i == RegionOf(h.regions, was.ptr, 0) && l != Nowhere
    modifies Footprint(h.regions)
    ensures h.Valid() && h.regions == old(h.regions) && (nb > 0 ==> nb >= size + rz)
    ensures i < |h.regions| && was.ptr >= h.regions[i].base
    ensures nb > 0 <==> old(h.regions[i].GrowsInPlace(l, was.ptr - h.regions[i].base, size + rz))
    ensures nb == old(h.regions[i].GrownTo(l, was.ptr - h.regions[i].base, size + rz))
    ensures l.InTlsf? && nb > l.len ==> size + rz <= nb < size + rz + 32
    ensures l.InBuddy? && nb > l.len ==> LeastOver(h.regions[i].buddy.geo, l.len, size + rz, nb)
    ensures nb == 0 ==>
            h.Live() == old(h.Live()) && h.Mems() == old(h.Mems())
            && forall k: nat :: h.Cans(k) == old(h.Cans(k))
    ensures nb > 0 ==> Resized(h.regions, old(h.Live()), h.Live(), old(h.Mems()), h.Mems(), was,
            Memory(was.ptr, nb - rz), rz, size,
                               preserve, alignment)
  {
    hide Heap.Valid, Heap.Live, Heap.Mems, Heap.Cans, AllIntact, Find, Moved, Resized, RegionOf, Region.GrowsInPlace,
         Region.GrownTo, Footprint;
    ghost var l0, m0, at := h.Live(), h.Mems(), Nowhere;
    h.Placed();
    nb, at := h.GrowAt(i, l, was.ptr, size + rz);
    if nb > 0 {
      InPlace(h.regions, l0, h.Live(), l0, m0, h.Mems(), was, Memory(was.ptr, nb - rz), at, rz, size, preserve,
          alignment);
    }
  }

  /** Moving: a new block, a copy of what is to be preserved, and the old block given back at the place
      located before. */
  method ResizeAway(h: Heap, rz: nat, was: Memory, size: nat, preserve: nat, alignment: nat, i: nat, l: Located)
      returns (m: Memory)
    requires h.Valid() && was.Memory? && size > 0 && IsPow2(alignment) && alignment > 0
    requires l == Find(h.regions, h.Live(), was.ptr) && i == RegionOf(h.regions, was.ptr, 0) && LenOf(l) > 0
             && LenOf(l) >= rz
    modifies Footprint(h.regions)
    ensures h.Valid() && h.regions == old(h.regions)
    ensures if m.NullMemory?
            then h.Live() == old(h.Live()) && AllIntact(h.regions, old(h.Live()), old(h.Mems()), h.Mems())
            else m.ptr != was.ptr && Suited(h.cfg, Find(h.regions, h.Live(), m.ptr), size + rz, alignment)
                 && Resized(h.regions, old(h.Live()), h.Live(), old(h.Mems()), h.Mems(), was, m, rz, size, preserve,
                    alignment)
    ensures m.NullMemory? <==>
            size + rz >= WORD
            || NoneServes(h.regions, h.cfg, old(h.Live()), old(h.Cans(size + rz)), size + rz, alignment)
  {
    hide Heap.Valid, Heap.Live, Heap.Mems, Heap.Cans, AllIntact, Find, Resized, IsPow2, SameBut, WellPlaced, NoneServes,
         Suited, Footprint;
    ghost var l0, m0 := h.Live(), h.Mems();
    h.Placed();
    m := AnyBalloc(h, rz, alignment, size);
    if m.Memory? {
      GainedApart(h.regions, l0, h.Live(), m, was.ptr, rz, size);
      MoveInto(h, rz, was, size, preserve, alignment, i, l, m, l0, m0);
    }
  }

  method MoveInto(h: Heap, rz: nat, was: Memory, size: nat, preserve: nat, alignment: nat, i: nat, l: Located,
      m: Memory,
                  ghost l0: seq<Loans>, ghost m0: seq<seq<Granule>>)
    requires h.Valid() && was.Memory? && m.Memory? && alignment > 0 && m.ptr % alignment == 0
    requires WellPlaced(h.regions, l0) && AllIntact(h.regions, l0, m0, h.Mems())
             && UserOutcome(h.regions, l0, h.Live(), m, size, rz)
    requires l == Find(h.regions, l0, was.ptr) && i == RegionOf(h.regions, was.ptr, 0) && LenOf(l) > 0 && LenOf(l) >= rz
    modifies Footprint(h.regions)
    ensures h.Valid() && h.regions == old(h.regions)
    ensures Find(h.regions, h.Live(), m.ptr) == old(Find(h.regions, h.Live(), m.ptr))
    ensures Resized(h.regions, l0, h.Live(), m0, h.Mems(), was, m, rz, size, preserve, alignment)
  {
    hide Heap.Valid, Heap.Live, Heap.Mems, Heap.Cans, AllIntact, Find, Moved, Resized, Copied, SameBut, UserOutcome,
         WellPlaced, Footprint;
    ghost var l1, m1 := h.Live(), h.Mems();
    h.Placed();
    LengthsSame(h.regions, l0, m0, m1);
    GainedApart(h.regions, l0, l1, m, was.ptr, rz, size);
    var copy := Least(Least(preserve, was.len), Least(LenOf(l) - rz, m.len));
    Copy(h, m.ptr, was.ptr, copy);
    ghost var m2 := h.Mems();
    var ok := h.Release(i, l, was.ptr);
    h.Placed();
    StillThere(h.regions, l1, h.Live(), was.ptr, m.ptr);
    MovedAway(h.regions, l0, l1, h.Live(), m0, m1, m2, h.Mems(), was, m, rz, size, preserve, alignment,
        copy);
  }

  lemma StillThere(rs: seq<Region>, l1: seq<Loans>, l2: seq<Loans>, p: nat, q: nat)
    requires Moved(rs, l1, l2, p, Nowhere) && p != q
    ensures |l1| == |l2| == |rs| && Find(rs, l2, q) == Find(rs, l1, q)
  {
    hide Find;
  }

  /** `resize`, whatever it is given. */
  method Resize(h: Heap, rz: nat, was: Memory, size: nat, preserve: nat, alignment: nat) returns (m: Memory)
    requires h.Valid()
    modifies Footprint(h.regions)
    ensures h.Valid() && h.regions == old(h.regions)
    ensures m.NullMemory? <==> old(ResizeFails(h, rz, was, size, alignment))
    ensures m.NullMemory? && !old(Releases(h, rz, was, size, alignment)) ==>
              h.Live() == old(h.Live()) && AllIntact(h.regions, old(h.Live()), old(h.Mems()), h.Mems())
    ensures old(Refuses(h, rz, was, size, alignment)) ==>
              h.Live() == old(h.Live()) && h.Mems() == old(h.Mems()) && forall k: nat :: h.Cans(k) == old(h.Cans(k))
    ensures old(Releases(h, rz, was, size, alignment)) ==>
              Moved(h.regions, old(h.Live()), h.Live(), was.ptr, Nowhere)
                  && AllIntact(h.regions, h.Live(), old(h.Mems()), h.Mems())
    ensures m.Memory? && was.NullMemory? ==>
              UserOutcome(h.regions, old(h.Live()), h.Live(), m, size, rz) && m.ptr % alignment == 0
              && Suited(h.cfg, Find(h.regions, h.Live(), m.ptr), size + rz, alignment)
              && AllIntact(h.regions, old(h.Live()), old(h.Mems()), h.Mems())
    ensures m.Memory? && was.Memory? ==>
              Resized(h.regions, old(h.Live()), h.Live(), old(h.Mems()), h.Mems(), was, m, rz, size, preserve,
                  alignment)
              && EndsUp(h, rz, m, was.ptr, old(LenInPlace(h, was.ptr, size + rz, alignment)), size, alignment)
    ensures m.Memory? && was.Memory? && m.ptr == was.ptr && Find(h.regions, old(h.Live()), was.ptr).InTlsf? ==>
              m.len + rz == LenOf(Find(h.regions, old(h.Live()), was.ptr)) || m.len < size + 32
  {
    hide Heap.Valid, Heap.Live, Heap.Mems, Heap.Cans, AllIntact, Find, Moved, Resized, IsPow2, Gained, LenInPlace,
         Suited, NoneServes, Footprint;
    AllSame(h.regions, h.Live(), h.Mems());
    Pow2IsPositive(alignment);
    if !IsPow2(alignment) {
      return NullMemory;
    }
    if was.NullMemory? {
      m := AnyBalloc(h, rz, alignment, size);
      return;
    }
    if size == 0 {
      var ok := Dealloc(h, rz, was.ptr);
      return NullMemory;
    }
    InPlaceTight(h, was.ptr, size + rz, alignment);
    m := ResizeAt(h, rz, was, size, preserve, alignment);
  }

  /** A small block kept in place stays as long as it is, or becomes less than 32 bytes longer than asked. */
  lemma InPlaceTight(h: Heap, p: nat, n: nat, alignment: nat)
    requires h.Valid() && n > 0
    ensures Find(h.regions, h.Live(), p).InTlsf? ==>
              var len := LenInPlace(h, p, n, alignment);
              len == 0 || len == LenOf(Find(h.regions, h.Live(), p)) || n <= len < n + 32
  {
    hide Heap.Valid, Heap.Live, Find, RegionOf, Whose, Region.GrownTo, Region.GrowsInPlace, Region.Valid,
         Separate;
    if Find(h.regions, h.Live(), p).InTlsf? {
      var i, up := h.AtPointer(p);
      h.GrownAt(i, Find(h.regions, h.Live(), p), up, n);
    }
  }

  /** `resize` of whatever is at a pointer. */
  method ResizeAt(h: Heap, rz: nat, was: Memory, size: nat, preserve: nat, alignment: nat) returns (m: Memory)
    requires h.Valid() && was.Memory? && size > 0 && IsPow2(alignment) && alignment > 0
    modifies Footprint(h.regions)
    ensures h.Valid() && h.regions == old(h.regions)
    ensures m.NullMemory? <==> old(ResizeFails(h, rz, was, size, alignment))
    ensures m.NullMemory? ==> h.Live() == old(h.Live()) && AllIntact(h.regions, old(h.Live()), old(h.Mems()), h.Mems())
    ensures var len := LenOf(Find(h.regions, old(h.Live()), was.ptr));
            len == 0 || len < rz ==>
                m.NullMemory? && h.Mems() == old(h.Mems())
                && forall k: nat :: h.Cans(k) == old(h.Cans(k))
    ensures m.Memory? ==>
              Resized(h.regions, old(h.Live()), h.Live(), old(h.Mems()), h.Mems(), was, m, rz, size, preserve,
                  alignment)
              && EndsUp(h, rz, m, was.ptr, old(LenInPlace(h, was.ptr, size + rz, alignment)), size, alignment)
  {
    hide Heap.Valid, Heap.Live, Heap.Mems, Heap.Cans, AllIntact, Find, Resized, IsPow2, LenInPlace, Suited, EndsUp,
         NoneServes;
    AllSame(h.regions, h.Live(), h.Mems());
    var i, l := h.Locate(was.ptr);
    if LenOf(l) == 0 || LenOf(l) < rz {
      return NullMemory;
    }
    m := ResizeLive(h, rz, was, size, preserve, alignment, i, l);
  }

  /** `resize` to nothing gives up a live block. */
  ghost predicate Releases(h: Heap, rz: nat, was: Memory, size: nat, alignment: nat)
    reads h, Footprint(h.regions)
  {
    && IsPow2(alignment) && alignment > 0 && size == 0 && was.Memory? && was.ptr != 0
    && LenOf(Find(h.regions, h.Live(), was.ptr)) > 0 && LenOf(Find(h.regions, h.Live(), was.ptr)) >= rz
  }

  /** What `resize` refuses outright: bad alignments, and pointers that are not the start of a live block with
      a red zone. */
  ghost predicate Refuses(h: Heap, rz: nat, was: Memory, size: nat, alignment: nat)
    reads h, Footprint(h.regions)
  {
    || !IsPow2(alignment) || alignment == 0
    || (was.Memory? && (LenOf(Find(h.regions, h.Live(), was.ptr)) == 0
       || LenOf(Find(h.regions, h.Live(), was.ptr)) < rz))
  }

  /** A block resized where it is. */
  lemma InPlace(rs: seq<Region>, l0: seq<Loans>, l1: seq<Loans>, kept: seq<Loans>, m0: seq<seq<Granule>>,
      m1: seq<seq<Granule>>,
                was: Memory, m: Memory, at: Located, rz: nat, size: nat, preserve: nat, alignment: nat)
    requires WellPlaced(rs, kept) && (kept == l0 || kept == l1) && AllIntact(rs, kept, m0, m1)
    requires was.Memory? && m.Memory? && m.ptr == was.ptr && alignment > 0 && m.ptr % alignment == 0
    requires Moved(rs, l0, l1, was.ptr, at) && LenOf(at) == m.len + rz && size <= m.len
             && rz <= LenOf(Find(rs, l0, was.ptr)) && Find(rs, l0, was.ptr) != Nowhere
    ensures Resized(rs, l0, l1, m0, m1, was, m, rz, size, preserve, alignment)
  {
    hide WellPlaced, Find, ReadByte, AllIntact;
    LengthsSame(rs, kept, m0, m1);
    IntactBytes(rs, kept, m0, m1);
    var have := LenOf(Find(rs, l0, was.ptr)) - rz;
    forall a: nat | was.ptr <= a && a - was.ptr < have && a - was.ptr < m.len
      ensures ReadByte(rs, m1, a) == ReadByte(rs, m0, a)
    {
      assert InBlock(rs, kept, was.ptr, a);
    }
    forall q: nat, a: nat | q != was.ptr && InBlock(rs, l0, q, a) ensures ReadByte(rs, m1, a) == ReadByte(rs, m0, a) {
      assert InBlock(rs, kept, q, a);
    }
  }

  lemma LengthsSame(rs: seq<Region>, live: seq<Loans>, m0: seq<seq<Granule>>, m1: seq<seq<Granule>>)
    requires AllIntact(rs, live, m0, m1)
    ensures |live| == |m0| == |m1| == |rs|
  {
    hide Intact;
  }

  /** The new block is another than the old one, which is still where it was. */
  lemma GainedApart(rs: seq<Region>, l0: seq<Loans>, l1: seq<Loans>, m: Memory, p: nat, rz: nat, size: nat)
    requires |l0| == |rs| && m.Memory? && UserOutcome(rs, l0, l1, m, size, rz) && Find(rs, l0, p) != Nowhere
    ensures |l1| == |rs| && m.ptr != p && Find(rs, l1, p) == Find(rs, l0, p) && LenOf(Find(rs, l1, m.ptr)) == m.len + rz
            && size <= m.len
  {
    hide Find;
  }

  /** A block resized by moving. */
  lemma MovedAway(rs: seq<Region>, l0: seq<Loans>, l1: seq<Loans>, l2: seq<Loans>,
                  m0: seq<seq<Granule>>, m1: seq<seq<Granule>>, m2: seq<seq<Granule>>, m3: seq<seq<Granule>>,
                  was: Memory, m: Memory, rz: nat, size: nat, preserve: nat, alignment: nat, n: nat)
    requires WellPlaced(rs, l0) && WellPlaced(rs, l1) && WellPlaced(rs, l2)
    requires AllIntact(rs, l0, m0, m1) && AllIntact(rs, l2, m2, m3)
    requires was.Memory? && m.Memory? && alignment > 0 && m.ptr % alignment == 0
    requires UserOutcome(rs, l0, l1, m, size, rz) && Moved(rs, l1, l2, was.ptr, Nowhere)
    requires rz <= LenOf(Find(rs, l0, was.ptr)) && Find(rs, l0, was.ptr) != Nowhere
    requires n == Least(Least(preserve, was.len), Least(LenOf(Find(rs, l0, was.ptr)) - rz, m.len))
    requires Copied(rs, m1, m2, m.ptr, was.ptr, n)
    ensures Resized(rs, l0, l2, m0, m3, was, m, rz, size, preserve, alignment)
  {
    hide WellPlaced, Find, ReadByte, AllIntact;
    var p, q := was.ptr, m.ptr;
    LengthsSame(rs, l0, m0, m1);
    LengthsSame(rs, l2, m2, m3);
    IntactBytes(rs, l0, m0, m1);
    IntactBytes(rs, l2, m2, m3);
    GainedApart(rs, l0, l1, m, p, rz, size);
    forall a: nat | q <= a < q + n ensures ReadByte(rs, m3, a) == ReadByte(rs, m0, p + (a - q)) {
      assert InBlock(rs, l2, q, a) && InBlock(rs, l0, p, p + (a - q));
    }
    forall x: nat, a: nat | x != p && InBlock(rs, l0, x, a) ensures ReadByte(rs, m3, a) == ReadByte(rs, m0, a) {
      assert InBlock(rs, l1, x, a) && InBlock(rs, l2, x, a);
      OtherBlock(rs, l1, x, q, n, a);
    }
  }

  /** A byte of one block is not among the bytes of another. */
  lemma OtherBlock(rs: seq<Region>, live: seq<Loans>, x: nat, q: nat, n: nat, a: nat)
    requires WellPlaced(rs, live) && InBlock(rs, live, x, a) && x != q && n <= LenOf(Find(rs, live, q))
    ensures !(q <= a < q + n)
  {
    hide WellPlaced, Find;
    if q <= a < q + n {
      BlocksApart(rs, live, x, q, a);
      assert false;
    }
  }
}
