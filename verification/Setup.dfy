/** Where the data of a region begins, how it is aligned and how many units it has, for any memory
    range a caller may attach (`__setup`).  Addresses and sizes are bytes of a 64-bit machine. */
module Setup {
  import opened Bits

  const WORD: nat := 0x1_0000_0000_0000_0000
  const MAX_TOTAL: nat := 0xFFFF_FFF0

  /** `raw`, `len`: the range attached.  `ext`: whether the tags live elsewhere, in `extCap` bytes. */
  datatype Range = Range(raw: nat, len: nat, ext: bool, extCap: nat)

  /** `base`: where the data begins; `align`: the recorded `base_align`. */
  datatype Plan = NoPlan | Plan(base: nat, align: nat, units: nat)

  /** Bytes set aside for internal tags: one for every unit that could fit behind them. */
  function TagArea(r: Range, min: nat): nat { if r.ext then 0 else (r.len + min) / (min + 1) }

  function DataAt(r: Range, min: nat): nat { r.raw + TagArea(r, min) }

  /** `__align_up_ptr`, which may wrap around. */
  function AlignUp(v: nat, a: nat): nat
    requires a > 0
  {
    var x := (v + a - 1) % WORD;
    x - x % a
  }

  /** The data fits behind the tags at alignment `a`. */
  predicate FitsAt(r: Range, min: nat, a: nat)
    requires a > 0
  {
    var b, end := AlignUp(DataAt(r, min), a), r.raw + r.len;
    DataAt(r, min) <= b <= end && end - b >= (if a > 2 * min then a else 2 * min)
  }

  /** The first alignment tried. */
  function FirstAlign(want: nat, min: nat): nat
    requires min > 0
  {
    var a := if want < min then min else want;
    var p := if IsPow2(a) then a else Pow2(Fls(a));
    if p < min then min else p
  }

  /** The first alignment tried is the largest power of two that is no larger. */
  lemma FirstAlignIs(want: nat, min: nat)
    requires IsPow2(min) && min > 0
    ensures IsPow2(FirstAlign(want, min)) && FirstAlign(want, min) >= min
    ensures FirstAlign(want, min) <= want || FirstAlign(want, min) == min
    ensures want < 2 * FirstAlign(want, min)
  {
    hide Pow2, Fls, IsPow2;
    var a := if want < min then min else want;
    IsPow2Of(Fls(a));
    FlsBounds(a);
    IsPow2Iff(min);
    FlsMono(min, a);
    Pow2Mono(Fls(min), Fls(a));
  }

  /** The data may begin at `b`: it is aligned, behind the tags, and leaves room for one alignment and two units. */
  predicate RoomAt(r: Range, min: nat, a: nat, b: nat)
    requires a > 0
  {
    b % a == 0 && DataAt(r, min) <= b && b + a <= r.raw + r.len && b + 2 * min <= r.raw + r.len
  }

  /** The test of the loop is exact, although the rounding may wrap around. */
  lemma FitsIff(r: Range, min: nat, a: nat)
    requires a > 0 && r.raw > 0 && r.raw + r.len < WORD
    ensures FitsAt(r, min, a) <==> exists b: nat :: RoomAt(r, min, a, b)
    ensures FitsAt(r, min, a) ==>
              RoomAt(r, min, a, AlignUp(DataAt(r, min), a)) && AlignUp(DataAt(r, min), a) < DataAt(r, min) + a
  {
    hide DataAt;
    var v, u := DataAt(r, min), AlignUp(DataAt(r, min), a);
    FloorMultiple((v + a - 1) % WORD, a);
    if FitsAt(r, min, a) {
      assert RoomAt(r, min, a, u);
      assert v + a <= u + a <= r.raw + r.len;
      RoundUpIs(v, a);
    }
    forall b: nat | RoomAt(r, min, a, b) ensures FitsAt(r, min, a) {
      assert v + a <= b + a < WORD;
      RoundUpIs(v, a);
      SameGrid(u, b, a);
    }
  }

  /** Multiples less than one step apart are in order. */
  lemma SameGrid(u: nat, b: nat, a: nat)
    requires a > 0 && u % a == 0 && b % a == 0 && u < b + a
    ensures u <= b
  {
    var p, q := u / a, b / a;
    assert u == p * a && b == q * a;
    MulBelow(p, q, a);
  }

  /** Bytes that the orders below `mx` can describe. */
  function OrderCap(mx: nat, min: nat): nat { (Pow2(mx) - 1) * min }

  function UnitsIn(bytes: nat, min: nat): nat
    requires min > 0
  {
    bytes / min
  }

  /** Bytes of `units` units. */
  function UnitBytes(units: nat, min: nat): nat { units * min }

  /** What a plan promises: the base is the first place behind the tags that is aligned as recorded; no larger
      alignment up to the one wanted has a place at all; data and internal tags lie in the range and do not meet;
      the block orders fit `Mx`; and no more units could be had. */
  ghost predicate Sane(r: Range, min: nat, want: nat, mx: nat, p: Plan)
    requires min > 0
  {
    && p.Plan? && p.units > 0 && IsPow2(p.align) && min <= p.align && (p.align <= want || p.align == min)
    && RoomAt(r, min, p.align, p.base) && p.base < DataAt(r, min) + p.align
    && (forall k: nat, b: nat :: p.align < Pow2(k) <= want ==> !RoomAt(r, min, Pow2(k), b))
    && r.raw <= p.base && p.base + UnitBytes(p.units, min) <= r.raw + r.len
    && (if r.ext then p.units <= r.extCap else r.raw + p.units <= p.base)
    && Fls(p.units) < mx && UnitBytes(p.units, min) <= MAX_TOTAL
    && ((r.ext && p.units == r.extCap) || p.units == Pow2(mx) - 1 || UnitBytes(p.units + 1, min) > MAX_TOTAL
        || p.base + UnitBytes(p.units + 1, min) > r.raw + r.len)
  }

  /** Set-up succeeds exactly when there is memory for four units and room for a tag. */
  method SetUp(r: Range, min: nat, want: nat, mx: nat) returns (p: Plan)
    requires IsPow2(min) && 16 <= min <= 0x4000_0000 && 0 < mx <= 63 && r.raw + r.len < WORD
    ensures p.NoPlan? <==> r.raw == 0 || r.len < 4 * min || (r.ext && r.extCap == 0)
    ensures p.Plan? ==> Sane(r, min, want, mx, p)
  {
    hide FitsAt, FirstAlign, AlignUp, IsPow2, Pow2, Fls, DataAt, TagArea, OrderCap, UnitsIn, UnitBytes, RoomAt;
    if r.raw == 0 || r.len < 4 * min {
      return NoPlan;
    }
    FirstAlignIs(want, min);
    var align: nat := FirstAlign(want, min);
    SmallestFits(r, min);
    while !FitsAt(r, min, align)
      invariant IsPow2(align) && min <= align <= FirstAlign(want, min)
      invariant forall k: nat :: align < Pow2(k) <= FirstAlign(want, min) ==> !FitsAt(r, min, Pow2(k))
      decreases align
    {
      HalfAlign(r, min, align, FirstAlign(want, min));
      align := align / 2;
    }
    var b := AlignUp(DataAt(r, min), align);
    BaseIs(r, min, align);
    LargestRoom(r, min, want, align);
    var t := r.raw + r.len - b;
    var cap := OrderCap(mx, min);
    if t > cap {
      t := cap;
    }
    if t > MAX_TOTAL {
      t := MAX_TOTAL;
    }
    UnitsIs(r, min, mx, b, t);
    var units := UnitsIn(t, min);
    if r.ext && units > r.extCap {
      FewerUnits(r.extCap, units, min, mx);
      units := r.extCap;
    }
    if units == 0 {
      return NoPlan;
    }
    return Plan(b, align, units);
  }

  /** The alignment the loop ends with is the largest that has room. */
  lemma LargestRoom(r: Range, min: nat, want: nat, align: nat)
    requires IsPow2(min) && min > 0 && r.raw > 0 && r.raw + r.len < WORD && align > 0 && FitsAt(r, min, align)
    requires forall k: nat :: align < Pow2(k) <= FirstAlign(want, min) ==> !FitsAt(r, min, Pow2(k))
    ensures RoomAt(r, min, align, AlignUp(DataAt(r, min), align))
    ensures AlignUp(DataAt(r, min), align) < DataAt(r, min) + align
    ensures forall k: nat, b: nat :: align < Pow2(k) <= want ==> !RoomAt(r, min, Pow2(k), b)
  {
    hide FitsAt, FirstAlign, AlignUp, IsPow2, Pow2, Fls, DataAt, RoomAt;
    FitsIff(r, min, align);
    FirstAlignIs(want, min);
    IsPow2Iff(FirstAlign(want, min));
    forall k: nat, b: nat | align < Pow2(k) <= want ensures !RoomAt(r, min, Pow2(k), b) {
      var f := Fls(FirstAlign(want, min));
      Pow2Twice(f);
      if k > f { Pow2Mono(f + 1, k); }
      Pow2Mono(k, if k > f then k else f);
      FitsIff(r, min, Pow2(k));
    }
  }

  /** The tag area is the least number of bytes that, with as many units, takes up the whole range: every unit that
      fits behind it has its tag. */
  lemma TagAreaIsLeast(r: Range, min: nat)
    requires !r.ext && min > 0
    ensures UnitBytes(TagArea(r, min), min) + TagArea(r, min) >= r.len
    ensures forall t: nat :: UnitBytes(t, min) + t >= r.len ==> TagArea(r, min) <= t
  {
    var q, m := TagArea(r, min), min + 1;
    assert q * m <= r.len + min < (q + 1) * m;
    assert (q + 1) * m == q * m + m && q * m == q * min + q;
    forall t: nat | UnitBytes(t, min) + t >= r.len ensures q <= t {
      assert t * m == t * min + t;
      assert (t + 1) * m == t * m + m;
      MulBelow(q, t, m);
    }
  }

  /** At the smallest alignment four units always leave room for two. */
  lemma SmallestFits(r: Range, min: nat)
    requires IsPow2(min) && min >= 16 && r.raw + r.len < WORD && r.len >= 4 * min
    ensures FitsAt(r, min, min)
  {
    hide IsPow2;
    TagAreaSmall(r.len, min);
    RoundUpIs(DataAt(r, min), min);
  }

  lemma TagAreaSmall(len: nat, min: nat)
    requires min >= 16 && len >= 4 * min
    ensures (len + min) / (min + 1) + 3 * min - 1 <= len
  {
    var q := (len + min) / (min + 1);
    assert q * (min + 1) <= len + min;
    TimesApart(q, min);
  }

  lemma TimesApart(q: nat, min: nat)
    requires min >= 16
    ensures q >= 5 ==> q * (min + 1) >= q + 5 * min
    ensures q >= 1 ==> q * (min + 1) >= q + min
  {
    assert q * (min + 1) == q * min + q;
    if q >= 5 {
      assert q * min == 5 * min + (q - 5) * min;
    }
  }

  lemma RoundUpIs(v: nat, a: nat)
    requires a > 0 && v + a - 1 < WORD
    ensures v <= AlignUp(v, a) < v + a && AlignUp(v, a) % a == 0
  {
    var x := v + a - 1;
    FloorMultiple(x, a);
    var f := x - x % a;
    assert AlignUp(v, a) == f by {
      assert x % WORD == x;
    }
  }

  lemma FloorMultiple(x: nat, a: nat)
    requires a > 0
    ensures (x - x % a) % a == 0 && x - x % a <= x < x - x % a + a
  {
    var q := x / a;
    assert x - x % a == q * a;
    DivUnique(q * a, a, q);
  }

  /** One turn of the halving loop. */
  lemma HalfAlign(r: Range, min: nat, align: nat, first: nat)
    requires IsPow2(align) && IsPow2(min) && 0 < min <= align <= first && !FitsAt(r, min, align) && FitsAt(r, min, min)
    requires forall k: nat :: align < Pow2(k) <= first ==> !FitsAt(r, min, Pow2(k))
    ensures align > min && IsPow2(align / 2) && min <= align / 2 < align
    ensures forall k: nat :: align / 2 < Pow2(k) <= first ==> !FitsAt(r, min, Pow2(k))
  {
    hide FitsAt, IsPow2, Fls, Pow2;
    IsPow2Iff(align);
    IsPow2Iff(min);
    var a, m := Fls(align), Fls(min);
    if a <= m { Pow2Mono(a, m); }
    Pow2Mono(m, a - 1);
    Pow2Twice(a - 1);
    IsPow2Of(a - 1);
    forall k: nat | align / 2 < Pow2(k) <= first ensures !FitsAt(r, min, Pow2(k)) {
      if k <= a - 1 { Pow2Mono(k, a - 1); }
      if k >= a + 1 { Pow2Mono(a + 1, k); Pow2Twice(a); }
    }
  }

  lemma BaseIs(r: Range, min: nat, align: nat)
    requires align > 0 && FitsAt(r, min, align)
    ensures var b := AlignUp(DataAt(r, min), align);
            b % align == 0 && r.raw <= DataAt(r, min) <= b && b + 2 * min <= r.raw + r.len
  {
    FloorMultiple((DataAt(r, min) + align - 1) % WORD, align);
  }

  /** The largest unit count within `room` bytes, `k` units and `MAX_TOTAL` bytes. */
  lemma CountWithin(room: nat, k: nat, min: nat, cap: nat, t: nat)
    requires 0 < min <= MAX_TOTAL && min <= room && k > 0 && cap == k * min
    requires t <= room && t <= cap && t <= MAX_TOTAL && (t == room || t == cap || t == MAX_TOTAL)
    ensures var u := UnitsIn(t, min);
            0 < u <= k && UnitBytes(u, min) <= t
                && (u == k || UnitBytes(u + 1, min) > MAX_TOTAL || UnitBytes(u + 1, min) > room)
  {
    MulMono(1, k, min);
    UnitBounds(t, min);
    var u := UnitsIn(t, min);
    CountBelow(u, k, min);
    CountBelow(1, u, min);
    if t == cap { CountBelow(k, u, min); }
  }

  lemma UnitBounds(t: nat, min: nat)
    requires min > 0
    ensures UnitBytes(UnitsIn(t, min), min) <= t < UnitBytes(UnitsIn(t, min) + 1, min)
  {
  }

  lemma CountBelow(a: nat, b: nat, min: nat)
    requires min > 0 && a * min < UnitBytes(b + 1, min)
    ensures a <= b
  {
    MulBelow(a, b, min);
  }

  /** The unit count fits the orders, the offsets and the tags. */
  lemma UnitsIs(r: Range, min: nat, mx: nat, b: nat, t: nat)
    requires 16 <= min <= 0x4000_0000 && mx > 0 && DataAt(r, min) <= b && b + 2 * min <= r.raw + r.len
    requires var room, cap := r.raw + r.len - b, OrderCap(mx, min);
             t <= room && t <= cap && t <= MAX_TOTAL && (t == room || t == cap || t == MAX_TOTAL)
    ensures var u := UnitsIn(t, min);
            && u > 0 && UnitBytes(u, min) <= t && Fls(u) < mx && (!r.ext ==> r.raw + u <= b)
            && (u == Pow2(mx) - 1 || UnitBytes(u + 1, min) > MAX_TOTAL || b + UnitBytes(u + 1, min) > r.raw + r.len)
  {
    hide Pow2, Fls, UnitBytes, UnitsIn;
    Pow2Mono(1, mx);
    TwoIs();
    var u := UnitsIn(t, min);
    CountWithin(r.raw + r.len - b, Pow2(mx) - 1, min, OrderCap(mx, min), t);
    FlsBounds(u);
    if Fls(u) >= mx { Pow2Mono(mx, Fls(u)); }
    if !r.ext { TagsFit(r.len, min, u); }
  }

  lemma TwoIs()
    ensures Pow2(1) == 2
  {
  }

  lemma TagsFit(len: nat, min: nat, u: nat)
    requires min > 0 && UnitBytes(u, min) + (len + min) / (min + 1) <= len
    ensures u <= (len + min) / (min + 1)
  {
    var q := (len + min) / (min + 1);
    assert (q + 1) * (min + 1) > len + min;
    assert (q + 1) * (min + 1) == q * min + q + min + 1;
    assert (q + 1) * min == q * min + min;
    MulBelow(u, q + 1, min);
  }

  lemma FewerUnits(u: nat, v: nat, min: nat, mx: nat)
    requires u < v && Fls(v) < mx
    ensures UnitBytes(u, min) <= UnitBytes(v, min) && (u > 0 ==> Fls(u) < mx)
  {
    MulMono(u, v, min);
    if u > 0 { FlsMono(u, v); }
  }
}
