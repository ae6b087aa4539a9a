/** Bit arithmetic on unsigned words, written as arithmetic on naturals.

    A word is a `nat`; bit `i` is the parity after `i` halvings.  Every operation the
    allocator performs on offsets and on its masks (`x ^ sz`, `x | sz`, `x & ~sz`, `m >> k`,
    `m & (~0 << k)`, count-trailing-zeros, find-last-set) is defined by recursion on the
    bit position, and the lemmas below give its arithmetic meaning. */
module Bits {

  function Pow2(k: nat): (r: nat)
    ensures r >= 1
  {
    if k == 0 then 1 else 2 * Pow2(k - 1)
  }

  predicate Bit(m: nat, i: nat) {
    if i == 0 then m % 2 == 1 else Bit(m / 2, i - 1)
  }

  /** `m | (1 << i)` */
  function SetBit(m: nat, i: nat): nat {
    if i == 0 then m / 2 * 2 + 1 else 2 * SetBit(m / 2, i - 1) + m % 2
  }

  /** `m & ~(1 << i)` */
  function ClearBit(m: nat, i: nat): nat {
    if i == 0 then m / 2 * 2 else 2 * ClearBit(m / 2, i - 1) + m % 2
  }

  /** `m ^ (1 << i)` */
  function FlipBit(m: nat, i: nat): nat {
    if i == 0 then m / 2 * 2 + 1 - m % 2 else 2 * FlipBit(m / 2, i - 1) + m % 2
  }

  /** `m | ((1 << hi) - 1 & ~((1 << lo) - 1))`: sets the bits lo, ..., hi - 1 */
  function SetRange(m: nat, lo: nat, hi: nat): nat
    requires lo <= hi
  {
    if lo == hi then m else SetBit(SetRange(m, lo, hi - 1), hi - 1)
  }

  /** `m >> k` */
  function Shr(m: nat, k: nat): nat {
    if k == 0 then m else Shr(m / 2, k - 1)
  }

  /** `m << k` */
  function Shl(m: nat, k: nat): nat {
    if k == 0 then m else 2 * Shl(m, k - 1)
  }

  /** `m & (~0 << k)`, and `m & ~(sz - 1)` for `sz = 1 << k` */
  function Keep(m: nat, k: nat): nat {
    if k == 0 then m else 2 * Keep(m / 2, k - 1)
  }

  /** Index of the lowest set bit (`__builtin_ctz`). */
  function Ctz(m: nat): nat
    requires m > 0
  {
    if m % 2 == 1 then 0 else 1 + Ctz(m / 2)
  }

  /** Index of the highest set bit (`__fls`, `__fls32`, `__log2`). */
  function Fls(m: nat): nat
    requires m > 0
  {
    if m == 1 then 0 else 1 + Fls(m / 2)
  }

  /** `(g & ((1 << k) - 1)) == 0` */
  predicate Aligned(g: nat, k: nat) {
    k == 0 || (g % 2 == 0 && Aligned(g / 2, k - 1))
  }

  /** `v != 0 && (v & (v - 1)) == 0`: clearing the lowest set bit leaves nothing. */
  predicate IsPow2(v: nat) {
    v != 0 && ClearBit(v, Ctz(v)) == 0
  }

  // ---- powers of two -------------------------------------------------------------

  lemma {:induction false} Pow2Add(a: nat, b: nat)
    ensures Pow2(a + b) == Pow2(a) * Pow2(b)
  {
    if a > 0 {
      Pow2Add(a - 1, b);
      assert Pow2(a + b) == 2 * Pow2(a - 1 + b);
    }
  }

  lemma Pow2Twice(k: nat)
    ensures Pow2(k + 1) == 2 * Pow2(k)
  {
  }

  lemma {:induction false} Pow2Mono(a: nat, b: nat)
    requires a <= b
    ensures Pow2(a) <= Pow2(b)
    ensures a < b ==> 2 * Pow2(a) <= Pow2(b)
    decreases b
  {
    if a < b {
      Pow2Mono(a, b - 1);
    }
  }

  lemma {:induction false} ShlIsMul(m: nat, k: nat)
    ensures Shl(m, k) == m * Pow2(k)
  {
    if k > 0 {
      ShlIsMul(m, k - 1);
    }
  }

  lemma {:induction false} ShrIsDiv(m: nat, k: nat)
    ensures Shr(m, k) * Pow2(k) <= m < (Shr(m, k) + 1) * Pow2(k)
    ensures Shr(m, k) == m / Pow2(k)
  {
    if k > 0 {
      ShrIsDiv(m / 2, k - 1);
      DoubleBounds(m, Shr(m, k), Pow2(k - 1));
    }
    DivUnique(m, Pow2(k), Shr(m, k));
  }

  lemma DoubleBounds(m: nat, q: nat, p: nat)
    requires q * p <= m / 2 < (q + 1) * p
    ensures q * (2 * p) <= m < (q + 1) * (2 * p)
  {
    assert q * (2 * p) == 2 * (q * p);
    assert (q + 1) * (2 * p) == 2 * ((q + 1) * p);
  }

  lemma DivUnique(m: nat, p: nat, q: nat)
    requires p > 0 && q * p <= m < (q + 1) * p
    ensures m / p == q
  {
    var d := m / p;
    assert d * p <= m < (d + 1) * p;
    MulBelow(d, q, p);
    MulBelow(q, d, p);
  }

  lemma MulBelow(a: nat, b: nat, p: nat)
    requires p > 0 && a * p < (b + 1) * p
    ensures a <= b
  {
    if a > b {
      MulMono(b + 1, a, p);
    }
  }

  lemma MulMono(a: int, b: int, p: nat)
    requires a <= b
    ensures a * p <= b * p
  {
    var c := b - a;
    assert b * p == a * p + c * p;
  }

  // ---- single bits ---------------------------------------------------------------

  lemma {:induction false} BitOfSetBit(m: nat, i: nat, j: nat)
    ensures Bit(SetBit(m, i), j) == (i == j || Bit(m, j))
    decreases i
  {
    SetBitParts(m, i);
    if i > 0 && j > 0 {
      BitOfSetBit(m / 2, i - 1, j - 1);
    }
  }

  lemma SetBitParts(m: nat, i: nat)
    ensures SetBit(m, i) % 2 == if i == 0 then 1 else m % 2
    ensures SetBit(m, i) / 2 == if i == 0 then m / 2 else SetBit(m / 2, i - 1)
  {
  }

  lemma ClearBitParts(m: nat, i: nat)
    ensures ClearBit(m, i) % 2 == if i == 0 then 0 else m % 2
    ensures ClearBit(m, i) / 2 == if i == 0 then m / 2 else ClearBit(m / 2, i - 1)
  {
  }

  lemma {:induction false} BitOfClearBit(m: nat, i: nat, j: nat)
    ensures Bit(ClearBit(m, i), j) == (i != j && Bit(m, j))
    decreases i
  {
    ClearBitParts(m, i);
    if i > 0 && j > 0 {
      BitOfClearBit(m / 2, i - 1, j - 1);
    }
  }

  lemma {:induction false} BitSetRange(m: nat, lo: nat, hi: nat, j: nat)
    requires lo <= hi
    ensures Bit(SetRange(m, lo, hi), j) == (lo <= j < hi || Bit(m, j))
    decreases hi
  {
    if lo < hi {
      BitSetRange(m, lo, hi - 1, j);
      BitOfSetBit(SetRange(m, lo, hi - 1), hi - 1, j);
    }
  }

  lemma {:induction false} BitShr(m: nat, k: nat, j: nat)
    ensures Bit(Shr(m, k), j) == Bit(m, k + j)
  {
    if k > 0 {
      BitShr(m / 2, k - 1, j);
    }
  }

  lemma {:induction false} BitKeep(m: nat, k: nat, j: nat)
    ensures Bit(Keep(m, k), j) == (j >= k && Bit(m, j))
  {
    if k > 0 && j > 0 {
      BitKeep(m / 2, k - 1, j - 1);
    }
  }

  lemma {:induction false} CtzIsLowest(m: nat)
    requires m > 0
    ensures Bit(m, Ctz(m))
    ensures forall j: nat :: j < Ctz(m) ==> !Bit(m, j)
  {
    if m % 2 == 0 {
      CtzIsLowest(m / 2);
      forall j: nat | j < Ctz(m) ensures !Bit(m, j) {
        if j > 0 {
          assert !Bit(m / 2, j - 1);
        }
      }
    }
  }

  lemma {:induction false} FlsIsHighest(m: nat)
    requires m > 0
    ensures Bit(m, Fls(m))
    ensures forall j: nat :: j > Fls(m) ==> !Bit(m, j)
  {
    if m > 1 {
      FlsIsHighest(m / 2);
      forall j: nat | j > Fls(m) ensures !Bit(m, j) {
        assert !Bit(m / 2, j - 1);
      }
    } else {
      forall j: nat | j > 0 ensures !Bit(m, j) {
        ZeroHasNoBits(j - 1);
      }
    }
  }

  lemma {:induction false} ZeroHasNoBits(j: nat)
    ensures !Bit(0, j)
  {
    if j > 0 {
      ZeroHasNoBits(j - 1);
    }
  }

  /** A word is zero exactly when no bit is set. */
  lemma ZeroIff(m: nat)
    ensures m == 0 ==> forall j: nat :: !Bit(m, j)
    ensures m > 0 ==> exists j: nat :: Bit(m, j)
  {
    if m == 0 {
      forall j: nat ensures !Bit(0, j) { ZeroHasNoBits(j); }
    } else {
      CtzIsLowest(m);
      assert Bit(m, Ctz(m));
    }
  }

  lemma {:induction false} FlsBounds(m: nat)
    requires m > 0
    ensures Pow2(Fls(m)) <= m < 2 * Pow2(Fls(m))
  {
    if m > 1 {
      FlsBounds(m / 2);
    }
  }

  /** `__log2`: the position of the highest bit, by shifting. */
  method Log2(v: nat) returns (r: nat)
    ensures v > 0 ==> r == Fls(v)
    ensures v == 0 ==> r == 0
  {
    var w := v;
    r := 0;
    while w > 1
      invariant v > 0 ==> w > 0 && Fls(v) == Fls(w) + r
      invariant v == 0 ==> w == 0 && r == 0
    {
      w := w / 2;
      r := r + 1;
    }
  }

  lemma FlsUnique(m: nat, k: nat)
    requires Pow2(k) <= m < 2 * Pow2(k)
    ensures m > 0 && Fls(m) == k
  {
    FlsBounds(m);
    if k < Fls(m) {
      Pow2Mono(k, Fls(m));
    } else if Fls(m) < k {
      Pow2Mono(Fls(m), k);
    }
  }

  lemma FlsMono(a: nat, b: nat)
    requires 0 < a <= b
    ensures Fls(a) <= Fls(b)
  {
    FlsBounds(a);
    FlsBounds(b);
    if Fls(b) < Fls(a) {
      Pow2Mono(Fls(b), Fls(a));
    }
  }

  // ---- alignment -----------------------------------------------------------------

  lemma {:induction false} AlignedIffMod(g: nat, k: nat)
    ensures Aligned(g, k) <==> g % Pow2(k) == 0
  {
    if k > 0 {
      AlignedIffMod(g / 2, k - 1);
      ModDouble(g, Pow2(k - 1));
    }
  }

  lemma ModDouble(g: nat, p: nat)
    requires p > 0
    ensures g % (2 * p) == 0 <==> g % 2 == 0 && g / 2 % p == 0
  {
    var q, r := g / 2 / p, g / 2 % p;
    assert g / 2 == q * p + r;
    assert g == q * (2 * p) + (2 * r + g % 2);
    DivUnique(g, 2 * p, q);
  }

  lemma {:induction false} AlignedZero(k: nat)
    ensures Aligned(0, k)
  {
    if k > 0 {
      AlignedZero(k - 1);
    }
  }

  lemma {:induction false} AlignedWeaken(g: nat, j: nat, k: nat)
    requires j <= k && Aligned(g, k)
    ensures Aligned(g, j)
  {
    if j > 0 {
      AlignedWeaken(g / 2, j - 1, k - 1);
    }
  }

  lemma {:induction false} AlignedSum(a: nat, b: nat, k: nat)
    requires Aligned(a, k) && Aligned(b, k)
    ensures Aligned(a + b, k)
    ensures a >= b ==> Aligned(a - b, k)
  {
    if k > 0 {
      AlignedSum(a / 2, b / 2, k - 1);
      assert (a + b) / 2 == a / 2 + b / 2;
      if a >= b {
        assert (a - b) / 2 == a / 2 - b / 2;
      }
    }
  }

  lemma {:induction false} AlignedPow2(j: nat, k: nat)
    requires k <= j
    ensures Aligned(Pow2(j), k)
  {
    if k > 0 {
      AlignedPow2(j - 1, k - 1);
      assert Pow2(j) == 2 * Pow2(j - 1) && Pow2(j) / 2 == Pow2(j - 1);
    }
  }

  lemma {:induction false} AlignedShl(m: nat, k: nat)
    ensures Aligned(Shl(m, k), k) && Shr(Shl(m, k), k) == m
  {
    if k > 0 {
      AlignedShl(m, k - 1);
    }
  }

  /** On aligned offsets the shift is exact, hence injective and monotone. */
  lemma {:induction false} ShrAligned(g: nat, h: nat, k: nat)
    requires Aligned(g, k) && Aligned(h, k)
    ensures Shl(Shr(g, k), k) == g
    ensures g < h ==> Shr(g, k) < Shr(h, k)
  {
    if k > 0 {
      ShrAligned(g / 2, h / 2, k - 1);
    }
  }

  /** Two aligned power-of-two blocks that meet are nested. */
  lemma {:induction false} AlignedNested(a: nat, i: nat, b: nat, j: nat, x: nat)
    requires Aligned(a, i) && Aligned(b, j) && i <= j
    requires a <= x < a + Pow2(i) && b <= x < b + Pow2(j)
    ensures b <= a && a + Pow2(i) <= b + Pow2(j)
    decreases i
  {
    if i > 0 {
      AlignedNested(a / 2, i - 1, b / 2, j - 1, x / 2);
    }
  }

  /** What `off ^ sz`, `off | sz` and `off & ~sz` compute on an offset that is a multiple of
      `sz = 1 << k`: the buddy, the upper and the lower of the pair; the lower is the
      parent, aligned to `2 * sz`. */
  lemma {:induction false} BuddyBits(g: nat, k: nat)
    requires Aligned(g, k)
    ensures Aligned(g, k + 1) == !Bit(g, k)
    ensures Aligned(g, k + 1) ==> FlipBit(g, k) == SetBit(g, k) == g + Pow2(k) && ClearBit(g, k) == g
    ensures !Aligned(g, k + 1) ==>
              g >= Pow2(k) && FlipBit(g, k) == ClearBit(g, k) == g - Pow2(k) && SetBit(g, k) == g
    ensures Aligned(FlipBit(g, k), k) && Aligned(ClearBit(g, k), k + 1) && FlipBit(FlipBit(g, k), k) == g
  {
    if k > 0 {
      var h := g / 2;
      BuddyBits(h, k - 1);
      Doubled(h, FlipBit(h, k - 1), g, FlipBit(g, k), k);
      Doubled(h, ClearBit(h, k - 1), g, ClearBit(g, k), k);
    }
  }

  /** Alignment and the bit flipped, one place up. */
  lemma Doubled(h: nat, f: nat, g: nat, e: nat, k: nat)
    requires k > 0 && g == 2 * h && e == 2 * f
    ensures Aligned(e, k) == Aligned(f, k - 1) && Aligned(e, k + 1) == Aligned(f, k)
    ensures FlipBit(e, k) == 2 * FlipBit(f, k - 1) && e - g == 2 * (f - h)
  {
    assert e / 2 == f && e % 2 == 0;
  }

  /** Rounding down to a multiple of `1 << k`. */
  lemma {:induction false} KeepFloor(g: nat, k: nat)
    ensures Aligned(Keep(g, k), k) && Keep(g, k) <= g < Keep(g, k) + Pow2(k)
  {
    if k > 0 {
      KeepFloor(g / 2, k - 1);
    }
  }

  lemma {:induction false} KeepUnique(g: nat, s: nat, k: nat)
    requires Aligned(s, k) && s <= g < s + Pow2(k)
    ensures Keep(g, k) == s
  {
    if k > 0 {
      KeepUnique(g / 2, s / 2, k - 1);
    }
  }

  lemma {:induction false} IsPow2Iff(v: nat)
    ensures IsPow2(v) <==> v > 0 && v == Pow2(Fls(v))
  {
    if v > 1 && v % 2 == 0 {
      IsPow2Iff(v / 2);
    }
  }

  lemma IsPow2Of(k: nat)
    ensures IsPow2(Pow2(k)) && Fls(Pow2(k)) == k
  {
    FlsUnique(Pow2(k), k);
    IsPow2Iff(Pow2(k));
  }

  /** Sixteen-byte granules: aligning and shifting a byte offset by four more bits. */
  lemma Granular(x: nat, k: nat)
    ensures Aligned(x, k + 4) <==> x % 16 == 0 && Aligned(x / 16, k)
    ensures Shr(x, k + 4) == Shr(x / 16, k)
    ensures Pow2(k + 4) == 16 * Pow2(k)
  {
    HalfStep(x, k + 3);
    HalfStep(x / 2, k + 2);
    HalfStep(x / 4, k + 1);
    HalfStep(x / 8, k);
  }

  lemma HalfStep(x: nat, k: nat)
    ensures Aligned(x, k + 1) <==> x % 2 == 0 && Aligned(x / 2, k)
    ensures Shr(x, k + 1) == Shr(x / 2, k)
    ensures Pow2(k + 1) == 2 * Pow2(k)
  {
  }
}
