/** Products and quotients of reals, one fact at a time. `Times` gives a product a name, so that equal
    factors are seen to give equal products. */
module Reals {

  function Times(p: real, q: real): real {
    p * q
  }

  lemma {:induction false} Positive(p: real, q: real)
    requires p > 0.0 && q > 0.0
    ensures Times(p, q) > 0.0
  {
  }

  lemma {:induction false} BothNegative(p: real, q: real)
    requires p < 0.0 && q < 0.0
    ensures Times(p, q) > 0.0
  {
  }

  lemma {:induction false} Zero(p: real)
    ensures Times(p, 0.0) == 0.0 && Times(0.0, p) == 0.0
  {
  }

  lemma {:induction false} One(p: real)
    ensures Times(p, 1.0) == p && Times(1.0, p) == p
  {
  }

  lemma {:induction false} Sign(p: real, q: real)
    requires p > 0.0 && q >= 0.0
    ensures Times(p, q) >= 0.0 && (Times(p, q) == 0.0 <==> q == 0.0)
  {
    if q > 0.0 {
      Positive(p, q);
    } else {
      Zero(p);
    }
  }

  lemma {:induction false} Square(z: real)
    ensures Times(z, z) >= 0.0 && (Times(z, z) == 0.0 <==> z == 0.0)
  {
    if z > 0.0 {
      Positive(z, z);
    } else if z < 0.0 {
      BothNegative(z, z);
    } else {
      Zero(z);
    }
  }

  lemma {:induction false} ZeroProduct(p: real, q: real)
    requires Times(p, q) == 0.0 && q != 0.0
    ensures p == 0.0
  {
  }

  lemma {:induction false} Quotient(p: real, q: real)
    requires q != 0.0
    ensures Times(p / q, q) == p
  {
  }

  lemma {:induction false} Cancel(p: real, q: real)
    requires q != 0.0
    ensures Times(p, q) / q == p
  {
  }

  lemma {:induction false} Distribute(u: real, p: real, q: real)
    ensures Times(u, p + q) == Times(u, p) + Times(u, q)
    ensures Times(u, p - q) == Times(u, p) - Times(u, q)
  {
  }

  lemma {:induction false} Commute(p: real, q: real)
    ensures Times(p, q) == Times(q, p)
  {
  }

  lemma {:induction false} Associate(p: real, q: real, r: real)
    ensures Times(Times(p, q), r) == Times(p, Times(q, r))
  {
  }

  lemma {:induction false} Negate(p: real, q: real)
    ensures Times(-p, q) == -Times(p, q)
  {
  }

  lemma {:induction false} RatioInUnit(part: real, total: real)
    requires 0.0 <= part <= total && total > 0.0
    ensures 0.0 <= 1.0 - part / total <= 1.0
    ensures 1.0 - part / total == 1.0 <==> part == 0.0
  {
  }

  /** Two decimals, halves away from zero, as every reported number is rounded. */
  function Round2(x: real): real {
    if x >= 0.0 then (x * 100.0 + 0.5).Floor as real / 100.0 else -((-x * 100.0 + 0.5).Floor as real / 100.0)
  }

  /** Rounding gives a whole number of hundredths at most half a hundredth away, and treats both signs alike. */
  lemma {:induction false} RoundMeaning(x: real)
    ensures Round2(x) * 100.0 == (Round2(x) * 100.0).Floor as real
    ensures -0.005 <= Round2(x) - x <= 0.005
    ensures Round2(-x) == -Round2(x)
    ensures x - Round2(x) == 0.005 ==> x < 0.0
    ensures Round2(x) - x == 0.005 ==> x > 0.0
  {
    if x >= 0.0 {
      var n := (x * 100.0 + 0.5).Floor;
      assert Round2(x) == n as real / 100.0;
    } else {
      var n := (-x * 100.0 + 0.5).Floor;
      assert Round2(x) == (-n) as real / 100.0;
    }
  }
}
