/** The tolerance of the clock synchronisation, which starts at 2 and is raised to the power 1.5 on every rejection. */
module ClockTolerance {
  import opened VprTypes

  function Pow(b: nat, e: nat): (p: nat)
    ensures b > 0 ==> p > 0
  {
    if e == 0 then 1 else b * Pow(b, e - 1)
  }

  // After n rejections the tolerance is 2 to the power (3/2)^n; error is below it exactly when this holds.
  predicate Below(error: nat, n: nat) {
    Pow(error, Pow(2, n)) < Pow(2, Pow(3, n))
  }

  lemma MulAssoc(a: int, b: int, c: int)
    ensures a * (b * c) == (a * b) * c
  {}

  lemma {:induction false} PowSum(b: nat, m: nat, n: nat)
    ensures Pow(b, m + n) == Pow(b, m) * Pow(b, n)
  {
    if m > 0 {
      assert Pow(b, m) == b * Pow(b, m - 1) && Pow(b, m + n) == b * Pow(b, m - 1 + n);
      hide Pow;
      PowSum(b, m - 1, n);
      MulAssoc(b, Pow(b, m - 1), Pow(b, n));
    }
  }

  lemma {:induction false} PowPow(b: nat, m: nat, n: nat)
    ensures Pow(Pow(b, m), n) == Pow(b, m * n)
  {
    if n > 0 {
      PowPow(b, m, n - 1);
      PowSum(b, m, m * (n - 1));
      assert m + m * (n - 1) == m * n;
    }
  }

  lemma MulGrows(a: nat, b: nat, x: nat, y: nat)
    requires a <= b && x <= y
    ensures a * x <= b * y
    ensures a < b && x < y ==> a * x < b * y
  {
    var d, e := b - a, y - x;
    assert (a + d) * y == a * y + d * y;
    assert a * (x + e) == a * x + a * e;
    assert a * e >= 0 && d * y >= 0 && (d > 0 && y > 0 ==> d * y > 0);
  }

  lemma {:induction false} PowGrowsInBase(a: nat, b: nat, e: nat)
    requires a <= b
    ensures Pow(a, e) <= Pow(b, e)
    ensures a < b && e > 0 ==> Pow(a, e) < Pow(b, e)
  {
    if e > 0 {
      PowGrowsInBase(a, b, e - 1);
      MulGrows(a, b, Pow(a, e - 1), Pow(b, e - 1));
    }
  }

  lemma {:induction false} PowGrowsInExponent(b: nat, m: nat, n: nat)
    requires b > 0 && m <= n
    ensures Pow(b, m) <= Pow(b, n)
  {
    if m < n {
      PowGrowsInExponent(b, m, n - 1);
      assert Pow(b, n - 1) <= b * Pow(b, n - 1);
    }
  }

  // The more rejections, the more is tolerated.
  lemma BelowStays(error: nat, n: nat)
    requires Below(error, n)
    ensures Below(error, n + 1)
  {
    var p, q := Pow(2, n), Pow(3, n);
    PowSum(error, p, p);
    PowSum(2, q, q);
    PowGrowsInExponent(2, q + q, q + q + q);
    assert Pow(2, n + 1) == p + p && Pow(3, n + 1) == q + q + q;
    MulGrows(Pow(error, p), Pow(2, q), Pow(error, p), Pow(2, q));
  }

  // An error of at most k bits is accepted as soon as k * 2^n is no more than 3^n.
  lemma BoundedErrorAccepted(error: nat, k: nat, n: nat)
    requires error < Pow(2, k) && k * Pow(2, n) <= Pow(3, n)
    ensures Below(error, n)
  {
    hide Pow;
    PowGrowsInBase(error, Pow(2, k), Pow(2, n));
    PowPow(2, k, Pow(2, n));
    PowGrowsInExponent(2, k * Pow(2, n), Pow(3, n));
  }

  const MOST_REJECTIONS := 11

  // No 64-bit error is rejected twelve times.
  lemma AnyErrorAccepted(error: Uint64)
    ensures Below(error, MOST_REJECTIONS)
  {
    assert Pow(2, 4) == 16 && Pow(3, 4) == 81;
    PowSum(2, 4, 4);
    PowSum(3, 4, 4);
    PowSum(2, 8, 3);
    PowSum(3, 8, 3);
    assert Pow(2, 3) == 8 && Pow(3, 3) == 27;
    assert Pow(2, 11) == 2048 && Pow(3, 11) == 177147;
    PowSum(2, 8, 8);
    PowSum(2, 16, 16);
    PowSum(2, 32, 32);
    assert Pow(2, 64) == UINT64;
    BoundedErrorAccepted(error, 64, MOST_REJECTIONS);
  }

  // The bound is exact: large errors are rejected eleven times.
  lemma LargeErrorRejected(error: nat)
    requires error >= Pow(2, 58)
    ensures !Below(error, MOST_REJECTIONS - 1)
  {
    assert Pow(2, 5) == 32 && Pow(3, 5) == 243;
    PowSum(2, 5, 5);
    PowSum(3, 5, 5);
    assert Pow(2, 10) == 1024 && Pow(3, 10) == 59049;
    PowGrowsInBase(Pow(2, 58), error, Pow(2, 10));
    PowPow(2, 58, Pow(2, 10));
    PowGrowsInExponent(2, Pow(3, 10), 58 * Pow(2, 10));
  }

  lemma {:induction false} PowOrder(m: nat, n: nat)
    ensures Pow(2, m) < Pow(2, n) <==> m < n
  {
    if m < n {
      PowGrowsInExponent(2, m + 1, n);
      assert Pow(2, m + 1) == 2 * Pow(2, m);
    } else {
      PowGrowsInExponent(2, n, m);
    }
  }

  // Exactly the errors of 2^k with k below 1.5^n are tolerated after n rejections, and with an error all smaller ones.
  lemma {:induction false} ToleratedIff(k: nat, n: nat)
    ensures Below(Pow(2, k), n) <==> k * Pow(2, n) < Pow(3, n)
  {
    hide Pow;
    PowPow(2, k, Pow(2, n));
    PowOrder(k * Pow(2, n), Pow(3, n));
  }

  lemma SmallerTolerated(error: nat, larger: nat, n: nat)
    requires error <= larger && Below(larger, n)
    ensures Below(error, n)
  {
    PowGrowsInBase(error, larger, Pow(2, n));
  }
}
