/** Sums of weights placed at positions: the byte counters of both tiers are such sums. */
module Sums {

  /** The sum of the weights at positions below `n`. */
  function Sum(w: map<nat, nat>, n: nat): nat {
    if n == 0 then 0 else Sum(w, n - 1) + if n - 1 in w then w[n - 1] else 0
  }

  lemma {:induction false} SumAgree(w: map<nat, nat>, v: map<nat, nat>, n: nat)
    requires forall x: nat :: x < n ==> (x in w <==> x in v) && (x in w ==> w[x] == v[x])
    ensures Sum(w, n) == Sum(v, n)
  {
    if n > 0 {
      SumAgree(w, v, n - 1);
    }
  }

  lemma {:induction false} SumUpdate(w: map<nat, nat>, g: nat, v: nat, n: nat)
    requires g < n
    ensures Sum(w[g := v], n) == Sum(w, n) + v - if g in w then w[g] else 0
  {
    if g == n - 1 {
      SumAgree(w, w[g := v], n - 1);
    } else {
      SumUpdate(w, g, v, n - 1);
    }
  }

  lemma {:induction false} SumRemove(w: map<nat, nat>, g: nat, n: nat)
    requires g < n && g in w
    ensures Sum(w - {g}, n) == Sum(w, n) - w[g]
  {
    if g == n - 1 {
      SumAgree(w, w - {g}, n - 1);
    } else {
      SumRemove(w, g, n - 1);
    }
  }

  lemma {:induction false} SumUnion(w: map<nat, nat>, v: map<nat, nat>, n: nat)
    requires forall x :: x in w ==> x !in v
    ensures Sum(w + v, n) == Sum(w, n) + Sum(v, n)
  {
    if n > 0 {
      SumUnion(w, v, n - 1);
    }
  }

  lemma {:induction false} SumConstant(w: map<nat, nat>, c: nat, v: map<nat, nat>, n: nat)
    requires w.Keys == v.Keys && forall x :: x in w ==> w[x] == c && v[x] == 1
    ensures Sum(w, n) == c * Sum(v, n)
  {
    if n > 0 {
      SumConstant(w, c, v, n - 1);
      var s := Sum(v, n - 1);
      assert c * (s + 1) == c * s + c;
    }
  }

  lemma {:induction false} SumZero(n: nat)
    ensures Sum(map[], n) == 0
  {
    if n > 0 {
      SumZero(n - 1);
    }
  }

  /** Weights that are the lengths of disjoint intervals below `end` add up to at most `end`. */
  lemma {:induction false} SumBound(w: map<nat, nat>, n: nat, end: nat)
    requires forall g, h :: g in w && h in w && g < h ==> g + w[g] <= h
    requires forall g :: g in w && g < n ==> g + w[g] <= end
    ensures Sum(w, n) <= end
    decreases n
  {
    if n > 0 {
      if n - 1 in w {
        SumBound(w, n - 1, n - 1);
      } else {
        SumBound(w, n - 1, end);
      }
    }
  }
}
