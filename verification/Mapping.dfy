/** Size classes of the TLSF tier: the two-level mapping, its rounded-up search form, and the
    precomputed search table. */
module Mapping {
  import opened Bits

  /** `sheetLog`: log2 of the sheet in granules; `slLog`: `SlLog2`; the rest are the template
      parameters `MaxSheets` and `SmallMax`. */
  datatype Config = Config(sheetLog: nat, slLog: nat, maxSheets: nat, smallMax: nat)

  /** Sheet length in granules. */
  function Span(cfg: Config): nat { Pow2(cfg.sheetLog) }

  /** Granules of the block-start bitmap: one bit per granule of the sheet, in whole granules. */
  function BitmapGranules(cfg: Config): nat { (Span(cfg) / 8 + 15) / 16 }

  /** Where the data of a sheet begins (`__data_off`). */
  function DataOff(cfg: Config): nat { 1 + BitmapGranules(cfg) }

  /** Data granules between the two sentinels (`__data_bytes`). */
  function DataSpan(cfg: Config): int { Span(cfg) - DataOff(cfg) - 1 }

  function FlCount(cfg: Config): nat
    requires DataSpan(cfg) >= 2
  {
    FlsMono(32, 16 * DataSpan(cfg));
    Fls(16 * DataSpan(cfg)) - 4
  }

  function ListCount(cfg: Config): nat
    requires DataSpan(cfg) >= 2
  {
    FlCount(cfg) * Pow2(cfg.slLog)
  }

  /** Largest size answered by the table, in granules. */
  function TableMax(cfg: Config): nat { cfg.smallMax / 16 + 2 }

  /** The class invariants the source asserts at compile time. */
  ghost predicate Sound(cfg: Config) {
    && 6 <= cfg.sheetLog <= 27
    && 1 <= cfg.slLog <= 5
    && 1 <= cfg.maxSheets <= 64
    && cfg.smallMax % 16 == 0
    && TableMax(cfg) * 2 <= DataSpan(cfg)
    && FlCount(cfg) <= 27
  }

  // ---- the mapping ---------------------------------------------------------------------------

  /** First-level index of `mapping_insert`. */
  function Fl(size: nat): (r: int)
    requires size >= 32
    ensures r >= 0
  {
    FlsMono(32, size);
    Fls(size) - 5
  }

  /** `size >> (fl + 5 - SlLog2)`, the leading bits of the size. */
  function Lead(slLog: nat, size: nat): nat
    requires size >= 32 && slLog <= 5
  {
    Shr(size, Fl(size) + 5 - slLog)
  }

  /** Second-level index of `mapping_insert`. */
  function Sl(slLog: nat, size: nat): nat
    requires size >= 32 && slLog <= 5
  {
    Lead(slLog, size) % Pow2(slLog)
  }

  /** Position of second-level list `sl` of first level `fl`. */
  function At(k: nat, fl: nat, sl: nat): nat { fl * k + sl }

  /** The list that holds free blocks of `size` bytes. */
  function Index(slLog: nat, size: nat): nat
    requires size >= 32 && slLog <= 5
  {
    At(Pow2(slLog), Fl(size), Sl(slLog, size))
  }

  /** `size + (1 << (f - SlLog2)) - 1`: the size rounded up to where the next class begins. */
  function RoundUp(slLog: nat, size: nat): (r: nat)
    requires size >= 32 && slLog <= 5
    ensures r >= size
  {
    size + Pow2(Fl(size) + 5 - slLog) - 1
  }

  /** `mapping_search`, as the code computes it. */
  function SearchFl(slLog: nat, size: nat): nat
    requires size >= 32 && slLog <= 5
  {
    Fl(size) + Shr(RoundUp(slLog, size), Fl(size) + 6)
  }

  function SearchSl(slLog: nat, size: nat): nat
    requires size >= 32 && slLog <= 5
  {
    Shr(RoundUp(slLog, size), SearchFl(slLog, size) + 5 - slLog) % Pow2(slLog)
  }

  function SearchIndex(slLog: nat, size: nat): nat
    requires size >= 32 && slLog <= 5
  {
    At(Pow2(slLog), SearchFl(slLog, size), SearchSl(slLog, size))
  }

  // ---- what the indices mean --------------------------------------------------------------------

  /** The bucket of a size: `Lead` steps of width `w` within the power of two below it. */
  lemma Bucket(slLog: nat, size: nat)
    requires size >= 32 && slLog <= 5
    ensures var f, k := Fl(size) + 5, Pow2(slLog);
            var w, q := Pow2(f - slLog), Lead(slLog, size);
            && k * w == Pow2(f) <= size < 2 * Pow2(f)
            && q * w <= size < (q + 1) * w
            && k <= q < 2 * k && Sl(slLog, size) == q - k
  {
    hide Pow2, Shr, Fls;
    var f, k := Fl(size) + 5, Pow2(slLog);
    var w, q := Pow2(f - slLog), Lead(slLog, size);
    FlsBounds(size);
    Pow2Add(slLog, f - slLog);
    ShrIsDiv(size, f - slLog);
    assert 2 * Pow2(f) == (2 * k) * w;
    MulBelow(k, q, w);
    MulBelow(q + 1, 2 * k, w) by { assert q * w < 2 * k * w; MulStep(q, 2 * k, w); }
    LeadSl(q, k);
  }

  lemma MulStep(a: nat, b: nat, w: nat)
    requires w > 0 && a * w < b * w
    ensures (a + 1) * w < (b + 1) * w
  {
    assert (a + 1) * w == a * w + w && (b + 1) * w == b * w + w;
  }

  lemma LeadSl(q: nat, k: nat)
    requires k <= q < 2 * k
    ensures q % k == q - k
  {
    assert q == 1 * k + (q - k);
    DivUnique(q, k, 1);
  }

  /** Indices are ordered by first level, then by second level. */
  lemma LevelOrder(f1: nat, s1: nat, f2: nat, s2: nat, k: nat)
    requires s1 < k && s2 < k
    ensures f1 * k + s1 <= f2 * k + s2 <==> f1 < f2 || (f1 == f2 && s1 <= s2)
    ensures f1 * k + s1 == f2 * k + s2 <==> f1 == f2 && s1 == s2
  {
    if f1 < f2 {
      MulMono(f1 + 1, f2, k);
    } else if f2 < f1 {
      MulMono(f2 + 1, f1, k);
    }
  }

  /** The mapping is monotone, so the lists partition the sizes in increasing order. */
  lemma IndexMono(slLog: nat, a: nat, b: nat)
    requires 32 <= a <= b && slLog <= 5
    ensures Index(slLog, a) <= Index(slLog, b)
  {
    hide Pow2, Fls, Lead, Sl;
    Bucket(slLog, a);
    Bucket(slLog, b);
    FlsMono(a, b);
    LevelOrder(Fl(a), Sl(slLog, a), Fl(b), Sl(slLog, b), Pow2(slLog));
    if Fl(a) == Fl(b) {
      var w := Pow2(Fl(a) + 5 - slLog);
      MulBelow(Lead(slLog, a), Lead(slLog, b), w);
    }
  }

  /** A larger index means a larger size. */
  lemma IndexStrict(slLog: nat, a: nat, b: nat)
    requires 32 <= a && 32 <= b && slLog <= 5 && Index(slLog, a) < Index(slLog, b)
    ensures a < b
  {
    hide Index;
    if b <= a {
      IndexMono(slLog, b, a);
    }
  }

  /** How the rounded size relates to the size: either it stays below the next power of two and
      its leading bits grow by at most one, or the size was in the last class of its power of two
      and the rounded size is in the first class of the next. */
  lemma RoundedBucket(slLog: nat, size: nat)
    requires size >= 32 && slLog <= 5
    ensures var r, p, k := RoundUp(slLog, size), Pow2(Fl(size) + 5), Pow2(slLog);
            && (r < 2 * p ==> (
                 && Fl(r) == Fl(size) && Shr(r, Fl(size) + 6) == 0
                 && size <= Lead(slLog, r) * Pow2(Fl(size) + 5 - slLog) && Lead(slLog, r) <= Lead(slLog, size) + 1))
            && (r >= 2 * p ==> (
                 && Fl(r) == Fl(size) + 1 && Shr(r, Fl(size) + 6) == 1
                 && Lead(slLog, r) == k && Lead(slLog, size) == 2 * k - 1 && size < 2 * p))
  {
    hide Pow2, Fls, Lead, Sl, Shr;
    var r, k, f := RoundUp(slLog, size), Pow2(slLog), Fl(size) + 5;
    var w, q := Pow2(f - slLog), Lead(slLog, size);
    Bucket(slLog, size);
    Pow2Mono(f - slLog, f);
    Pow2Twice(f);
    Pow2Twice(f - slLog);
    Pow2Twice(f + 1);
    if r < 2 * Pow2(f) {
      FlsUnique(r, f);
      Bucket(slLog, r);
      ShrOf(r, f + 1, 0);
      RoundedLow(r, Lead(slLog, r), w, q, size);
    } else {
      FlsUnique(r, f + 1);
      Bucket(slLog, r);
      ShrOf(r, f + 1, 1);
      RoundedTop(r, Lead(slLog, r), k, w, q, size);
    }
  }

  lemma RoundedLow(r: nat, p: nat, w: nat, q: nat, size: nat)
    requires w > 0 && r == size + w - 1 && p * w <= r < (p + 1) * w && size < (q + 1) * w
    ensures size <= p * w && p <= q + 1
  {
    assert (p + 1) * w == p * w + w;
    assert (q + 2) * w == (q + 1) * w + w;
    MulBelow(p, q + 1, w);
  }

  lemma ShrOf(r: nat, k: nat, v: nat)
    requires v * Pow2(k) <= r < (v + 1) * Pow2(k)
    ensures Shr(r, k) == v
  {
    hide Shr, Pow2;
    ShrIsDiv(r, k);
    DivUnique(r, Pow2(k), v);
  }

  lemma RoundedTop(r: nat, p: nat, k: nat, w: nat, q: nat, size: nat)
    requires w > 0 && k > 0 && r == size + w - 1 && r >= 2 * (k * w) > size
    requires p * (2 * w) <= r && p >= k && q < 2 * k && size < (q + 1) * w
    ensures p == k && q == 2 * k - 1
  {
    assert (k + 1) * (2 * w) == 2 * (k * w) + 2 * w;
    MulBelow(p, k, 2 * w);
    assert (2 * k - 1) * w == 2 * (k * w) - w;
    MulBelow(2 * k - 1, q, w);
  }

  /** The code's search form is the class of the rounded-up size. */
  lemma SearchIsRounded(slLog: nat, size: nat)
    requires size >= 32 && slLog <= 5
    ensures SearchFl(slLog, size) == Fl(RoundUp(slLog, size))
    ensures SearchSl(slLog, size) == Sl(slLog, RoundUp(slLog, size))
    ensures SearchIndex(slLog, size) == Index(slLog, RoundUp(slLog, size))
  {
    hide Pow2, Fls, Shr;
    RoundedBucket(slLog, size);
  }

  /** Good fit: a block from the search class or above is never smaller than asked. */
  lemma GoodFit(slLog: nat, size: nat, block: nat)
    requires size >= 32 && block >= 32 && slLog <= 5
    requires SearchIndex(slLog, size) <= Index(slLog, block)
    ensures size <= block
  {
    hide Pow2, Fls, Shr, Lead, Sl, SearchIndex, RoundUp;
    var r, k := RoundUp(slLog, size), Pow2(slLog);
    SearchIsRounded(slLog, size);
    if Index(slLog, r) < Index(slLog, block) {
      IndexStrict(slLog, r, block);
    } else {
      Bucket(slLog, r);
      Bucket(slLog, block);
      Bucket(slLog, size);
      LevelOrder(Fl(r), Sl(slLog, r), Fl(block), Sl(slLog, block), k);
      Pow2Twice(Fl(size) + 5);
    }
    RoundedBucket(slLog, size);
  }

  /** The search class is at most one list above the size's own. */
  lemma SearchAtMostNext(slLog: nat, size: nat)
    requires size >= 32 && slLog <= 5
    ensures Index(slLog, size) <= SearchIndex(slLog, size) <= Index(slLog, size) + 1
  {
    hide Pow2, Fls, Shr, Lead, Sl, SearchIndex, RoundUp;
    var r, k := RoundUp(slLog, size), Pow2(slLog);
    SearchIsRounded(slLog, size);
    RoundedBucket(slLog, size);
    IndexMono(slLog, size, r);
    Bucket(slLog, r);
    Bucket(slLog, size);
    if Fl(r) != Fl(size) {
      assert (Fl(size) + 1) * k == Fl(size) * k + k;
    }
  }

  /** Bound on what a failed search leaves unused: a block in a list below the search class
      exceeds the size asked by less than one part in `2^SlLog2`. */
  lemma BelowSearchIsTight(slLog: nat, size: nat, block: nat)
    requires size >= 32 && block >= 32 && slLog <= 5
    requires Index(slLog, block) < SearchIndex(slLog, size)
    ensures block < size + Pow2(Fl(size) + 5 - slLog)
    ensures Pow2(slLog) * Pow2(Fl(size) + 5 - slLog) <= size
  {
    hide Pow2, Fls, Shr, Lead, Sl, SearchIndex;
    SearchAtMostNext(slLog, size);
    Bucket(slLog, size);
    Bucket(slLog, block);
    if Index(slLog, block) < Index(slLog, size) {
      IndexStrict(slLog, block, size);
    } else {
      LevelOrder(Fl(block), Sl(slLog, block), Fl(size), Sl(slLog, size), Pow2(slLog));
      var w, q := Pow2(Fl(size) + 5 - slLog), Lead(slLog, size);
      assert (q + 1) * w == q * w + w;
    }
  }

  // ---- bounds ----------------------------------------------------------------------------------

  /** Every block that can exist has a list, and the largest one is in the last level. */
  lemma IndexInRange(cfg: Config, size: nat)
    requires Sound(cfg) && 32 <= size <= 16 * DataSpan(cfg)
    ensures Fl(size) < FlCount(cfg) && Index(cfg.slLog, size) < ListCount(cfg)
    ensures Sl(cfg.slLog, size) < Pow2(cfg.slLog)
    ensures size == 16 * DataSpan(cfg) ==> Fl(size) == FlCount(cfg) - 1
  {
    hide Pow2, Lead, DataSpan;
    Bucket(cfg.slLog, size);
    FlsMono(size, 16 * DataSpan(cfg));
    MulMono(Fl(size) + 1, FlCount(cfg), Pow2(cfg.slLog));
    assert (Fl(size) + 1) * Pow2(cfg.slLog) == Fl(size) * Pow2(cfg.slLog) + Pow2(cfg.slLog);
  }

  /** In the range of the table the search class exists. */
  lemma SearchInRange(cfg: Config, size: nat)
    requires Sound(cfg) && 32 <= size <= 16 * TableMax(cfg)
    ensures RoundUp(cfg.slLog, size) <= 16 * DataSpan(cfg)
    ensures SearchFl(cfg.slLog, size) < FlCount(cfg) && SearchIndex(cfg.slLog, size) < ListCount(cfg)
  {
    hide Pow2, Lead, Shr, Fls, DataSpan, TableMax, SearchIndex;
    var f := Fl(size) + 5;
    Bucket(cfg.slLog, size);
    MulMono(1, Pow2(cfg.slLog), Pow2(f - cfg.slLog));
    SearchIsRounded(cfg.slLog, size);
    IndexInRange(cfg, RoundUp(cfg.slLog, size));
  }
}
