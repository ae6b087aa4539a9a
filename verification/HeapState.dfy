/** The abstract state of a heap: where pointers lead, given what each region has lent. */
module HeapState {
  import opened Bits
  import opened Granules
  import opened Tiling
  import opened Mapping
  import opened BuddyTier
  import opened RegionState
  import opened RegionTier

  const NATIVE_ALIGNMENT: nat := 16

  /** A granted piece of memory. */
  datatype Memory = NullMemory | Memory(ptr: nat, len: nat)

  predicate Contains(r: Region, p: nat) { r.base <= p < r.base + 16 * r.buddy.geo.total }

  /** The first region at or after `i` that contains `p`. */
  function RegionOf(rs: seq<Region>, p: nat, i: nat): (r: nat)
    requires i <= |rs|
    ensures i <= r <= |rs| && (r < |rs| ==> Contains(rs[r], p))
    ensures forall j :: i <= j < r ==> !Contains(rs[j], p)
    decreases |rs| - i
  {
    if i == |rs| then i else if Contains(rs[i], p) then i else RegionOf(rs, p, i + 1)
  }

  /** Where a pointer leads. */
  function Find(rs: seq<Region>, live: seq<Loans>, p: nat): Located
    requires |live| == |rs|
  {
    var i := RegionOf(rs, p, 0);
    if i == |rs| then Nowhere else Whose(rs[i].buddy.geo, live[i], p - rs[i].base)
  }

  /** Usable bytes of what a pointer leads to. */
  function LenOf(l: Located): nat { if l.Nowhere? then 0 else l.len }

  ghost function Footprint(rs: seq<Region>): set<object> { set r, o | r in rs && o in r.Repr() :: o }

  ghost function LiveOf(rs: seq<Region>): (l: seq<Loans>)
    reads Footprint(rs)
    ensures |l| == |rs| && forall i :: 0 <= i < |rs| ==> l[i] == rs[i].Lends()
  {
    if rs == [] then [] else LiveOf(rs[..|rs| - 1]) + [rs[|rs| - 1].Lends()]
  }

  ghost function MemsOf(rs: seq<Region>): (l: seq<seq<Granule>>)
    reads Footprint(rs)
    ensures |l| == |rs| && forall i :: 0 <= i < |rs| ==> l[i] == rs[i].Memory()
  {
    if rs == [] then [] else MemsOf(rs[..|rs| - 1]) + [rs[|rs| - 1].Memory()]
  }

  /** Which regions could serve a small request of `n` bytes from their sheets, or one more. */
  ghost function CansOf(rs: seq<Region>, n: nat): (l: seq<bool>)
    reads Footprint(rs)
    ensures |l| == |rs| && forall i :: 0 <= i < |rs| ==> l[i] == rs[i].CanSmall(n)
  {
    if rs == [] then [] else CansOf(rs[..|rs| - 1], n) + [rs[|rs| - 1].CanSmall(n)]
  }

  /** No region from `from` on has room for a large block of `n` bytes. */
  ghost predicate NoneLarge(rs: seq<Region>, cfg: Config, live: seq<Loans>, n: nat, from: nat)
    requires |live| == |rs|
  {
    forall i :: from <= i < |rs| ==> !LargeFits(rs[i].buddy.geo, cfg, live[i], n)
  }

  ghost predicate NoneAligned(rs: seq<Region>, cfg: Config, live: seq<Loans>, n: nat, alignment: nat)
    requires |live| == |rs|
  {
    forall i :: 0 <= i < |rs| ==> !AlignedFits(rs[i].buddy.geo, cfg, live[i], rs[i].buddy.baseAlign, n, alignment)
  }

  /** No region can serve `n` bytes at an alignment. */
  ghost predicate NoneServes(rs: seq<Region>, cfg: Config, live: seq<Loans>, cans: seq<bool>, n: nat, alignment: nat)
    requires |live| == |rs|
  {
    n == 0 || (if alignment <= NATIVE_ALIGNMENT then (n <= cfg.smallMax ==> NoneSmall(cans, 0))
        && NoneLarge(rs, cfg, live, n, 0)
               else NoneAligned(rs, cfg, live, n, alignment))
  }

  ghost predicate NoneSmall(cans: seq<bool>, from: nat) { forall i :: from <= i < |cans| ==> !cans[i] }

  lemma NoneSmallSplit(c0: seq<bool>, c1: seq<bool>)
    requires |c0| == |c1| > 0 && c1 == c0[0 := c1[0]]
    ensures NoneSmall(c0, 0) <==> !c0[0] && NoneSmall(c1, 1)
  {
    assert forall i :: 1 <= i < |c0| ==> c0[i] == c1[i];
  }

  /** Nothing can be served from nowhere, nor can nothing be asked for. */
  lemma NoneTrivially(rs: seq<Region>, cfg: Config, live: seq<Loans>, cans: seq<bool>, n: nat)
    requires |live| == |rs| == |cans| && (n == 0 || rs == [])
    ensures NoneLarge(rs, cfg, live, n, 0) && (rs == [] ==> NoneSmall(cans, 0))
  {
  }

  predicate InRange(r: Region) { r.raw <= r.base && r.base + 16 * r.buddy.geo.total <= r.raw + r.rawLen }

  /** Regions share nothing: neither objects nor addresses. */
  ghost predicate Separate(rs: seq<Region>) {
    && (forall i, j :: 0 <= i < j < |rs| ==> rs[i].Repr() !! rs[j].Repr())
    && (forall i, j :: 0 <= i < j < |rs| ==>
       rs[i].raw + rs[i].rawLen <= rs[j].raw
       || rs[j].raw + rs[j].rawLen <= rs[i].raw)
    && (forall i :: 0 <= i < |rs| ==> InRange(rs[i]))
  }

  lemma Others(rs: seq<Region>, i: nat)
    requires Separate(rs) && i < |rs|
    ensures forall j :: 0 <= j < |rs| && j != i ==> rs[j].Repr() !! rs[i].Repr()
  {
    hide Region.Repr, InRange;
    forall j | 0 <= j < |rs| && j != i ensures rs[j].Repr() !! rs[i].Repr() {
      assert if j < i then rs[j].Repr() !! rs[i].Repr() else rs[i].Repr() !! rs[j].Repr();
    }
  }

  /** The memory of all loans is the same. */
  ghost predicate AllIntact(rs: seq<Region>, live: seq<Loans>, ms: seq<seq<Granule>>, ms': seq<seq<Granule>>) {
    && |live| == |ms| == |ms'| == |rs|
    && forall i :: 0 <= i < |rs| ==> Intact(rs[i].buddy.geo, live[i], ms[i], ms'[i])
  }

  lemma IntactAt(rs: seq<Region>, live: seq<Loans>, ms: seq<seq<Granule>>, i: nat, m: seq<Granule>)
    requires |live| == |ms| == |rs| && i < |rs| && Intact(rs[i].buddy.geo, live[i], ms[i], m)
    ensures AllIntact(rs, live, ms, ms[i := m])
  {
    hide Intact;
    forall j | 0 <= j < |rs| ensures Intact(rs[j].buddy.geo, live[j], ms[j], ms[i := m][j]) {
      if j != i { IntactSelf(rs[j].buddy.geo, live[j], ms[j]); }
    }
  }

  /** The same, of loans of which one region has fewer or smaller. */
  lemma NarrowAt(rs: seq<Region>, live: seq<Loans>, i: nat, l: Loans, ms: seq<seq<Granule>>, m: seq<Granule>)
    requires |live| == |ms| == |rs| && i < |rs| && Intact(rs[i].buddy.geo, l, ms[i], m)
    ensures AllIntact(rs, live[i := l], ms, ms[i := m])
  {
    hide Intact;
    IntactAt(rs, live[i := l], ms, i, m);
  }

  lemma AllSame(rs: seq<Region>, live: seq<Loans>, ms: seq<seq<Granule>>)
    requires |live| == |ms| == |rs|
    ensures AllIntact(rs, live, ms, ms)
  {
    hide Intact;
    forall j | 0 <= j < |rs| ensures Intact(rs[j].buddy.geo, live[j], ms[j], ms[j]) {
      IntactSelf(rs[j].buddy.geo, live[j], ms[j]);
    }
  }

  lemma AllTrans(rs: seq<Region>, live: seq<Loans>, m0: seq<seq<Granule>>, m1: seq<seq<Granule>>, m2: seq<seq<Granule>>)
    requires AllIntact(rs, live, m0, m1) && AllIntact(rs, live, m1, m2)
    ensures AllIntact(rs, live, m0, m2)
  {
    hide Intact;
    forall j | 0 <= j < |rs| ensures Intact(rs[j].buddy.geo, live[j], m0[j], m2[j]) {
      IntactTrans(rs[j].buddy.geo, live[j], m0[j], m1[j], m2[j]);
    }
  }

  /** Only one region contains a pointer. */
  lemma RegionUnique(rs: seq<Region>, p: nat, i: nat)
    requires Separate(rs) && i < |rs| && Contains(rs[i], p)
    ensures RegionOf(rs, p, 0) == i
  {
    hide RegionOf;
    var r := RegionOf(rs, p, 0);
    assert r <= i;
    assert InRange(rs[i]) && InRange(rs[r]);
  }

  /** `overlaps`: the attached range of a region meets [lo, lo + len). */
  predicate Overlaps(r: Region, lo: nat, len: nat) { lo < r.raw + r.rawLen && r.raw < lo + len }

  /** Address `a` lies in the attached range of a region. */
  predicate Attached(r: Region, a: nat) { r.raw <= a < r.raw + r.rawLen }

  /** No address of [lo, lo + len) lies in an attached range. */
  ghost predicate ClearOf(rs: seq<Region>, lo: nat, len: nat) {
    forall j, a: nat :: 0 <= j < |rs| && lo <= a < lo + len ==> !Attached(rs[j], a)
  }

  lemma OverlapsIff(r: Region, lo: nat, len: nat)
    requires len > 0 && r.rawLen > 0
    ensures Overlaps(r, lo, len) <==> exists a: nat :: lo <= a < lo + len && Attached(r, a)
  {
    if Overlaps(r, lo, len) {
      assert Attached(r, if lo < r.raw then r.raw else lo);
    }
  }

  lemma SeparateMore(rs: seq<Region>, r: Region)
    requires Separate(rs) && r.Repr() !! Footprint(rs) && InRange(r) && ClearOf(rs, r.raw, r.rawLen)
    requires r.rawLen > 0 && forall i :: 0 <= i < |rs| ==> rs[i].rawLen > 0
    ensures Separate(rs + [r])
  {
    hide Region.Repr, Attached;
    var t := rs + [r];
    forall i | 0 <= i < |rs| ensures !Overlaps(rs[i], r.raw, r.rawLen) {
      OverlapsIff(rs[i], r.raw, r.rawLen);
    }
    forall i, j | 0 <= i < j < |t| ensures t[i].Repr() !! t[j].Repr() {
      if j == |rs| {
        assert rs[i] in rs;
        assert t[i].Repr() <= Footprint(rs);
      }
    }
  }

  lemma FootprintMore(rs: seq<Region>, r: Region)
    ensures Footprint(rs + [r]) == Footprint(rs) + r.Repr()
    ensures rs == (rs + [r])[..|rs|]
  {
    hide Region.Repr;
    assert forall q :: q in rs + [r] <==> q in rs || q == r;
  }

  // ---- what operations do to the abstract state ------------------------------------------------------------------

  /** `c` is a new block of at least `n` bytes; every other pointer leads where it led. */
  ghost predicate Gained(rs: seq<Region>, l0: seq<Loans>, l1: seq<Loans>, c: Memory, n: nat) {
    && |l0| == |l1| == |rs| && c.Memory? && 0 < n <= c.len
    && Find(rs, l0, c.ptr) == Nowhere && Find(rs, l1, c.ptr) != Nowhere && LenOf(Find(rs, l1, c.ptr)) == c.len
    && SameBut(rs, l0, l1, c.ptr)
  }

  /** Either nothing, and nothing has changed, or a gain. */
  ghost predicate Outcome(rs: seq<Region>, l0: seq<Loans>, l1: seq<Loans>, m: Memory, n: nat) {
    if m.NullMemory? then l1 == l0 else Gained(rs, l0, l1, m, n)
  }

  /** A small grant comes from the first region, from `from` on, that could serve it. */
  ghost predicate RouteSmall(rs: seq<Region>, cans: seq<bool>, live: seq<Loans>, p: nat, from: nat)
    requires |live| == |rs|
  {
    var i := RegionOf(rs, p, 0);
    Find(rs, live, p).InTlsf? && from <= i < |cans| && cans[i] && forall j :: from <= j < i ==> !cans[j]
  }

  /** A whole block comes from the first region, from `from` on, with room for it. */
  ghost predicate RouteLarge(rs: seq<Region>, cfg: Config, l0: seq<Loans>, live: seq<Loans>, p: nat, n: nat, from: nat)
    requires |live| == |rs| == |l0|
  {
    var i := RegionOf(rs, p, 0);
    && Find(rs, live, p).InBuddy? && from <= i < |rs| && LargeFits(rs[i].buddy.geo, cfg, l0[i], n)
    && forall j :: from <= j < i ==> !LargeFits(rs[j].buddy.geo, cfg, l0[j], n)
  }

  /** An aligned block comes from the first region with room for it. */
  ghost predicate RouteAligned(rs: seq<Region>, cfg: Config, l0: seq<Loans>, live: seq<Loans>, p: nat, n: nat,
      alignment: nat)
    requires |live| == |rs| == |l0|
  {
    var i := RegionOf(rs, p, 0);
    && Find(rs, live, p).InBuddy? && i < |rs|
    && AlignedFits(rs[i].buddy.geo, cfg, l0[i], rs[i].buddy.baseAlign, n, alignment)
    && forall j :: 0 <= j < i ==> !AlignedFits(rs[j].buddy.geo, cfg, l0[j], rs[j].buddy.baseAlign, n, alignment)
  }

  /** Small tiers come before whole blocks, and regions in their order. */
  ghost predicate Routed(rs: seq<Region>, cfg: Config, l0: seq<Loans>, cans: seq<bool>, live: seq<Loans>, p: nat,
      n: nat)
    requires |live| == |rs| == |l0| == |cans|
  {
    if 1 <= n <= cfg.smallMax && !NoneSmall(cans, 0) then RouteSmall(rs, cans, live, p, 0)
    else RouteLarge(rs, cfg, l0, live, p, n, 0)
  }

  /** A small grant of at most 31 bytes more than asked opens a sheet: it is the first block there. */
  ghost predicate OpensSheet(rs: seq<Region>, cfg: Config, live: seq<Loans>, p: nat, n: nat)
    requires |live| == |rs|
  {
    var i, at := RegionOf(rs, p, 0), Find(rs, live, p);
    i < |rs| && at.InTlsf? && n <= at.len < n + 32 && (p - rs[i].base) % 16 == 0
        && FirstPayload(cfg, (p - rs[i].base) / 16)
  }

  lemma OpensAt(rs: seq<Region>, cfg: Config, l0: seq<Loans>, live: seq<Loans>, l: Loans, m: Memory, c: Chunk, n: nat,
      i: nat)
    requires |live| == |rs| && i < |rs| && m.Memory? && c.Chunk? && FirstPayload(cfg, c.pos)
             && SmallResult(l, live[i], c, n)
    requires m == Memory(rs[i].base + 16 * c.pos, c.len) && RegionOf(rs, m.ptr, 0) == i && Find(rs, live, m.ptr).InTlsf?
    requires Outcome(rs, l0, live, m, n)
    ensures OpensSheet(rs, cfg, live, m.ptr, n)
  {
    hide RegionOf, Find, SameBut, FirstPayload;
  }

  /** No region from `from` up to `to` has room for a large block. */
  ghost predicate PassedLarge(rs: seq<Region>, cfg: Config, live: seq<Loans>, n: nat, from: nat, to: nat)
    requires |live| == |rs|
  {
    forall j :: from <= j < to && j < |rs| ==> !LargeFits(rs[j].buddy.geo, cfg, live[j], n)
  }

  lemma PassLarge(rs: seq<Region>, cfg: Config, live: seq<Loans>, n: nat, from: nat, i: nat)
    requires |live| == |rs|
    ensures i <= from ==> PassedLarge(rs, cfg, live, n, from, i)
    ensures i < |rs| && PassedLarge(rs, cfg, live, n, from, i) && !LargeFits(rs[i].buddy.geo, cfg, live[i], n) ==>
              PassedLarge(rs, cfg, live, n, from, i + 1)
    ensures i >= |rs| && PassedLarge(rs, cfg, live, n, from, i) ==> NoneLarge(rs, cfg, live, n, from)
  {
    hide LargeFits;
  }

  lemma RouteLargeAt(rs: seq<Region>, cfg: Config, l0: seq<Loans>, live: seq<Loans>, p: nat, n: nat, from: nat, i: nat)
    requires |live| == |rs| == |l0| && from <= i < |rs| && RegionOf(rs, p, 0) == i && Find(rs, live, p).InBuddy?
    requires LargeFits(rs[i].buddy.geo, cfg, l0[i], n) && PassedLarge(rs, cfg, l0, n, from, i)
    ensures RouteLarge(rs, cfg, l0, live, p, n, from) && !NoneLarge(rs, cfg, l0, n, from)
  {
    hide RegionOf, Find, LargeFits;
  }

  /** No region up to `to` has room for an aligned block. */
  ghost predicate PassedAligned(rs: seq<Region>, cfg: Config, live: seq<Loans>, n: nat, alignment: nat, to: nat)
    requires |live| == |rs|
  {
    forall j :: 0 <= j < to && j < |rs|
        ==> !AlignedFits(rs[j].buddy.geo, cfg, live[j], rs[j].buddy.baseAlign, n, alignment)
  }

  lemma PassAligned(rs: seq<Region>, cfg: Config, live: seq<Loans>, n: nat, alignment: nat, i: nat)
    requires |live| == |rs|
    ensures PassedAligned(rs, cfg, live, n, alignment, 0)
    ensures i < |rs| && PassedAligned(rs, cfg, live, n, alignment, i)
            && !AlignedFits(rs[i].buddy.geo, cfg, live[i], rs[i].buddy.baseAlign, n, alignment) ==>
              PassedAligned(rs, cfg, live, n, alignment, i + 1)
    ensures i >= |rs| && PassedAligned(rs, cfg, live, n, alignment, i) ==> NoneAligned(rs, cfg, live, n, alignment)
  {
    hide AlignedFits;
  }

  lemma RouteAlignedAt(rs: seq<Region>, cfg: Config, l0: seq<Loans>, live: seq<Loans>, p: nat, n: nat, alignment: nat,
      i: nat)
    requires |live| == |rs| == |l0| && i < |rs| && RegionOf(rs, p, 0) == i && Find(rs, live, p).InBuddy?
    requires AlignedFits(rs[i].buddy.geo, cfg, l0[i], rs[i].buddy.baseAlign, n, alignment)
             && PassedAligned(rs, cfg, l0, n, alignment, i)
    ensures RouteAligned(rs, cfg, l0, live, p, n, alignment) && !NoneAligned(rs, cfg, l0, n, alignment)
  {
    hide RegionOf, Find, AlignedFits;
  }

  lemma RouteSmallDown(rs: seq<Region>, c0: seq<bool>, c1: seq<bool>, live: seq<Loans>, p: nat)
    requires |live| == |rs| == |c0| == |c1| > 0 && c1 == c0[0 := c1[0]] && !c0[0] && RouteSmall(rs, c1, live, p, 1)
    ensures RouteSmall(rs, c0, live, p, 0)
  {
    hide RegionOf, Find;
    var i := RegionOf(rs, p, 0);
    assert c0[i] == c1[i];
    assert forall j :: 1 <= j < i ==> c0[j] == c1[j];
  }

  lemma RouteLargeDown(rs: seq<Region>, cfg: Config, l0: seq<Loans>, live: seq<Loans>, p: nat, n: nat)
    requires |live| == |rs| == |l0| && |rs| > 0
    requires !LargeFits(rs[0].buddy.geo, cfg, l0[0], n) && RouteLarge(rs, cfg, l0, live, p, n, 1)
    ensures RouteLarge(rs, cfg, l0, live, p, n, 0)
  {
    hide RegionOf, Find, LargeFits;
  }

  /** Where the chunk a region granted is found. */
  lemma GrantedAt(rs: seq<Region>, l0: seq<Loans>, i: nat, l: Loans, c: Chunk, n: nat, o: nat)
    requires Separate(rs) && |l0| == |rs| && i < |rs| && c.Chunk? && c.pos < rs[i].buddy.geo.total
    ensures RegionOf(rs, rs[i].base + 16 * c.pos, 0) == i
    ensures SmallResult(l0[i], l, c, n) ==> Find(rs, l0[i := l], rs[i].base + 16 * c.pos).InTlsf?
    ensures LargeResult(rs[i].buddy.geo, l0[i], l, c, n, o) ==> Find(rs, l0[i := l], rs[i].base + 16 * c.pos).InBuddy?
  {
    hide Whose, RegionOf, Separate, Find, SmallResult, LargeResult, OrderSize, Holds;
    RegionUnique(rs, rs[i].base + 16 * c.pos, i);
    FoundIn(rs, l0[i := l], i, 16 * c.pos);
    if SmallResult(l0[i], l, c, n) { WhoseLent(rs[i].buddy.geo, l0[i], l, c, n); }
    if LargeResult(rs[i].buddy.geo, l0[i], l, c, n, o) { WhoseLentLarge(rs[i].buddy.geo, l0[i], l, c, n, o); }
  }

  lemma GainedAt(rs: seq<Region>, l0: seq<Loans>, l1: seq<Loans>, m: Memory, n: nat)
    requires Gained(rs, l0, l1, m, n)
    ensures |l1| == |rs| && m.Memory? && Find(rs, l1, m.ptr) != Nowhere && 0 < n <= m.len
    ensures LenOf(Find(rs, l1, m.ptr)) == m.len
  {
    hide Find, SameBut;
  }

  /** Every pointer but `p` leads where it led. */
  ghost predicate SameBut(rs: seq<Region>, l0: seq<Loans>, l1: seq<Loans>, p: nat)
    requires |l0| == |l1| == |rs|
  {
    forall q: nat :: q != p ==> Find(rs, l1, q) == Find(rs, l0, q)
  }

  /** Changing the loans of region `i` at one place changes one pointer. */
  lemma OneChanged(rs: seq<Region>, l0: seq<Loans>, i: nat, l: Loans, up: nat)
    requires |l0| == |rs| && i < |rs|
    requires forall u: nat :: u != up ==> Whose(rs[i].buddy.geo, l, u) == Whose(rs[i].buddy.geo, l0[i], u)
    ensures SameBut(rs, l0, l0[i := l], rs[i].base + up)
  {
    hide Whose, RegionOf;
  }

  lemma FoundIn(rs: seq<Region>, live: seq<Loans>, i: nat, up: nat)
    requires Separate(rs) && |live| == |rs| && i < |rs| && up < 16 * rs[i].buddy.geo.total
    ensures Find(rs, live, rs[i].base + up) == Whose(rs[i].buddy.geo, live[i], up)
  {
    hide Whose, RegionOf, Separate;
    RegionUnique(rs, rs[i].base + up, i);
  }

  lemma WhoseLent(geo: Geometry, l: Loans, l': Loans, c: Chunk, n: nat)
    requires c.Chunk? && SmallResult(l, l', c, n)
    ensures Whose(geo, l, 16 * c.pos) == Nowhere && Whose(geo, l', 16 * c.pos) == InTlsf(c.pos - 1, c.len)
    ensures forall u: nat :: u != 16 * c.pos ==> Whose(geo, l', u) == Whose(geo, l, u)
    ensures Holds(geo, l', c.pos, c.pos)
  {
    hide OrderSize, Size;
    assert 16 * c.pos / 16 == c.pos && 16 * c.pos % 16 == 0;
  }

  lemma WhoseLentLarge(geo: Geometry, l: Loans, l': Loans, c: Chunk, n: nat, o: nat)
    requires c.Chunk? && LargeResult(geo, l, l', c, n, o)
    ensures Whose(geo, l, 16 * c.pos) == Nowhere && Whose(geo, l', 16 * c.pos) == InBuddy(o, c.len)
    ensures forall u: nat :: u != 16 * c.pos ==> Whose(geo, l', u) == Whose(geo, l, u)
    ensures Holds(geo, l', c.pos, c.pos)
  {
    hide OrderSize, Size;
    assert 16 * c.pos / 16 == c.pos && 16 * c.pos % 16 == 0;
  }

  /** A grant by one region is a gain for the heap. */
  lemma GainedBy(rs: seq<Region>, l0: seq<Loans>, i: nat, l: Loans, c: Chunk, n: nat, o: nat)
    requires Separate(rs) && |l0| == |rs| && i < |rs| && c.Chunk? && c.pos < rs[i].buddy.geo.total && n > 0
    requires SmallResult(l0[i], l, c, n) || LargeResult(rs[i].buddy.geo, l0[i], l, c, n, o)
    ensures Gained(rs, l0, l0[i := l], Memory(rs[i].base + 16 * c.pos, c.len), n)
  {
    hide Whose, RegionOf, Separate, Find, SmallResult, LargeResult, SameBut, OrderSize, Holds;
    if SmallResult(l0[i], l, c, n) {
      WhoseLent(rs[i].buddy.geo, l0[i], l, c, n);
      ResultLen(rs[i].buddy.geo, l0[i], l, c, n, o);
    } else {
      WhoseLentLarge(rs[i].buddy.geo, l0[i], l, c, n, o);
      ResultLen(rs[i].buddy.geo, l0[i], l, c, n, o);
    }
    FoundIn(rs, l0, i, 16 * c.pos);
    FoundIn(rs, l0[i := l], i, 16 * c.pos);
    OneChanged(rs, l0, i, l, 16 * c.pos);
  }

  lemma ResultLen(geo: Geometry, l: Loans, l': Loans, c: Chunk, n: nat, o: nat)
    requires c.Chunk? && (SmallResult(l, l', c, n) || LargeResult(geo, l, l', c, n, o))
    ensures 0 < n <= c.len
  {
    hide OrderSize;
  }

  /** Giving up the loan at a pointer. */
  lemma WhoseReturned(geo: Geometry, l: Loans, up: nat)
    requires Whose(geo, l, up) != Nowhere
    ensures up % 16 == 0
    ensures var at := Whose(geo, l, up);
            var l' := if at.InTlsf? then ReturnSmall(l, at.hdr) else ReturnLarge(l, up / 16);
            && (at.InTlsf? ==> at.hdr in l.smalls && up / 16 == at.hdr + 1)
            && (at.InBuddy? ==> up / 16 in l.larges && l.larges[up / 16] == at.order)
            && (at.InTlsf? ==> up / 16 !in l.larges ==> Whose(geo, l', up) == Nowhere)
            && (at.InBuddy? ==> Whose(geo, l', up) == Nowhere)
            && (forall u: nat :: u != up ==> Whose(geo, l', u) == Whose(geo, l, u))
  {
    hide OrderSize;
  }

  /** Resizing the loan at a pointer. */
  lemma WhoseResized(geo: Geometry, l: Loans, up: nat, nb: nat, o: nat)
    requires Whose(geo, l, up) != Nowhere
    ensures var at := Whose(geo, l, up);
            && (at.InTlsf? ==> nb % 16 == 0 ==> var l' := LendSmall(l, at.hdr, nb / 16 + 1);
                  Whose(geo, l', up) == InTlsf(at.hdr, nb)
                  && forall u: nat :: u != up ==> Whose(geo, l', u) == Whose(geo, l, u))
            && (at.InBuddy? ==> var l' := LendLarge(l, up / 16, o);
                  Whose(geo, l', up) == InBuddy(o, OrderSize(geo, o))
                  && forall u: nat :: u != up ==> Whose(geo, l', u) == Whose(geo, l, u))
  {
    hide OrderSize;
  }

  /** Pointer `p` now leads to `at`; every other pointer leads where it led. */
  ghost predicate Moved(rs: seq<Region>, l0: seq<Loans>, l1: seq<Loans>, p: nat, at: Located) {
    |l0| == |l1| == |rs| && Find(rs, l1, p) == at && SameBut(rs, l0, l1, p)
  }

  lemma MovedBy(rs: seq<Region>, l0: seq<Loans>, i: nat, l: Loans, up: nat)
    requires Separate(rs) && |l0| == |rs| && i < |rs| && up < 16 * rs[i].buddy.geo.total
    requires forall u: nat :: u != up ==> Whose(rs[i].buddy.geo, l, u) == Whose(rs[i].buddy.geo, l0[i], u)
    ensures Moved(rs, l0, l0[i := l], rs[i].base + up, Whose(rs[i].buddy.geo, l, up))
  {
    hide Whose, RegionOf, Separate, Find, SameBut;
    FoundIn(rs, l0[i := l], i, up);
    OneChanged(rs, l0, i, l, up);
  }

  lemma Unmoved(rs: seq<Region>, l0: seq<Loans>, p: nat)
    requires |l0| == |rs|
    ensures Moved(rs, l0, l0, p, Find(rs, l0, p))
  {
    hide Find;
  }

  lemma SizeOf(geo: Geometry, l: Loans, up: nat)
    ensures LenOf(Whose(geo, l, up)) % 16 == 0
    ensures Whose(geo, l, up).InBuddy? ==> LenOf(Whose(geo, l, up)) == 16 * Pow2(geo.lm + Whose(geo, l, up).order)
  {
    hide Pow2;
  }

  /** Where a block is, what its loan is. */
  lemma LoanAt(geo: Geometry, l: Loans, up: nat)
    ensures IsLoan(geo, l, Whose(geo, l, up))
  {
    hide OrderSize;
  }

  // ---- accounting over regions ----------------------------------------------------------------------------------

  /** Bytes in use in the first `k` regions. */
  function UsageBelow(rs: seq<Region>, cfg: Config, live: seq<Loans>, k: nat): int
    requires k <= |rs| == |live|
  {
    if k == 0 then 0 else UsageBelow(rs, cfg, live, k - 1) + Usage(rs[k - 1].buddy.geo, cfg, live[k - 1])
  }

  /** Bytes of the first `k` regions. */
  function TotalBelow(rs: seq<Region>, k: nat): nat
    requires k <= |rs|
  {
    if k == 0 then 0 else TotalBelow(rs, k - 1) + 16 * rs[k - 1].buddy.geo.total
  }

  /** One of the first `k` regions could serve a request of `n` bytes. */
  ghost predicate AbleBelow(rs: seq<Region>, cfg: Config, live: seq<Loans>, cans: seq<bool>, n: nat, k: nat)
    requires |live| == |rs| == |cans| && k <= |rs|
  {
    || (1 <= n <= cfg.smallMax && exists j :: 0 <= j < k && cans[j])
    || (exists j :: 0 <= j < k && LargeFits(rs[j].buddy.geo, cfg, live[j], n))
  }

  lemma NoneAble(rs: seq<Region>, cfg: Config, live: seq<Loans>, cans: seq<bool>, n: nat)
    requires |live| == |rs| == |cans|
    ensures !AbleBelow(rs, cfg, live, cans, n, 0)
  {
  }

  lemma AbleNext(rs: seq<Region>, cfg: Config, live: seq<Loans>, c0: seq<bool>, c1: seq<bool>, n: nat, i: nat)
    requires |live| == |rs| == |c0| == |c1| && i < |rs| && c1 == c0[i := c1[i]]
    ensures AbleBelow(rs, cfg, live, c1, n, i + 1)
            <==>
                AbleBelow(rs, cfg, live, c0, n, i) || (1 <= n <= cfg.smallMax && c1[i])
                || LargeFits(rs[i].buddy.geo, cfg, live[i], n)
  {
    hide LargeFits;
    assert forall j :: 0 <= j < i ==> c1[j] == c0[j];
  }

  lemma ServesIs(rs: seq<Region>, cfg: Config, live: seq<Loans>, cans: seq<bool>, n: nat)
    requires |live| == |rs|
    ensures NoneServes(rs, cfg, live, cans, n, 1)
            <==> n == 0 || ((1 <= n <= cfg.smallMax ==> NoneSmall(cans, 0)) && NoneLarge(rs, cfg, live, n, 0))
  {
  }

  lemma AbleIsNotNone(rs: seq<Region>, cfg: Config, live: seq<Loans>, cans: seq<bool>, n: nat)
    requires |live| == |rs| == |cans|
    ensures AbleBelow(rs, cfg, live, cans, n, |rs|) <==>
              !((1 <= n <= cfg.smallMax ==> NoneSmall(cans, 0)) && NoneLarge(rs, cfg, live, n, 0))
  {
    hide LargeFits;
    assert (exists j :: 0 <= j < |rs| && cans[j]) <==> !NoneSmall(cans, 0);
    assert (exists j :: 0 <= j < |rs| && LargeFits(rs[j].buddy.geo, cfg, live[j], n))
        <==> !NoneLarge(rs, cfg, live, n, 0);
  }
}
