/** The delay before a reconnect attempt, as the two SDKs compute it. */
module Backoff {

  function Pow2(k: nat): (p: nat)
    ensures p >= 1
  {
    if k == 0 then 1 else 2 * Pow2(k - 1)
  }

  function Min(a: int, b: int): int {
    if a < b then a else b
  }

  /** C++ caps the shift at 30. */
  function CppDelay(base: nat, max: nat, attempt: nat): int {
    Min(base * Pow2(Min(attempt, 30)), max)
  }

  function JsDelay(base: nat, max: nat, attempt: nat): int {
    Min(base * Pow2(attempt), max)
  }

  lemma {:induction false} Pow2Grows(j: nat, k: nat)
    requires j <= k
    ensures Pow2(j) <= Pow2(k)
    ensures j < k ==> 2 * Pow2(j) <= Pow2(k)
    decreases k
  {
    if j < k {
      Pow2Grows(j, k - 1);
    }
  }

  lemma Scale(base: nat, p: nat, q: nat)
    requires p <= q
    ensures base * p <= base * q
  {
  }

  lemma TwoTo30()
    ensures Pow2(30) == 0x4000_0000
  {
    assert Pow2(10) == 1024;
    assert Pow2(20) == 1024 * Pow2(10);
    assert Pow2(30) == 1024 * Pow2(20);
  }

  /** The SDKs wait alike before every attempt exactly when the cap is reached by attempt 30. */
  lemma DelaysAgree(base: nat, max: nat)
    requires base >= 1
    ensures (forall k: nat :: CppDelay(base, max, k) == JsDelay(base, max, k)) <==> max <= base * Pow2(30)
  {
    if max <= base * Pow2(30) {
      forall k: nat ensures CppDelay(base, max, k) == JsDelay(base, max, k) {
        if k > 30 {
          Pow2Grows(30, k);
          Scale(base, Pow2(30), Pow2(k));
        }
      }
    } else {
      assert Pow2(31) == 2 * Pow2(30);
      assert base * Pow2(31) == base * Pow2(30) + base * Pow2(30);
      assert base * Pow2(30) >= Pow2(30) by { Scale(Pow2(30), 1, base); }
      assert CppDelay(base, max, 31) != JsDelay(base, max, 31);
    }
  }

  /** The C++ product stays within 63 bits for every attempt exactly when the base is below 2^33. */
  lemma NoOverflow(base: nat)
    ensures (forall k: nat :: base * Pow2(Min(k, 30)) < 0x8000_0000_0000_0000) <==> base < 0x2_0000_0000
  {
    TwoTo30();
    if base < 0x2_0000_0000 {
      forall k: nat ensures base * Pow2(Min(k, 30)) < 0x8000_0000_0000_0000 {
        Pow2Grows(Min(k, 30), 30);
        Scale(base, Pow2(Min(k, 30)), Pow2(30));
      }
    } else {
      assert Min(30, 30) == 30;
      assert base * Pow2(Min(30, 30)) >= 0x8000_0000_0000_0000;
    }
  }

  lemma DelaysGrow(base: nat, max: nat, j: nat, k: nat)
    requires j <= k
    ensures CppDelay(base, max, j) <= CppDelay(base, max, k) <= max
    ensures JsDelay(base, max, j) <= JsDelay(base, max, k) <= max
  {
    Pow2Grows(j, k);
    Scale(base, Pow2(j), Pow2(k));
    Pow2Grows(Min(j, 30), Min(k, 30));
    Scale(base, Pow2(Min(j, 30)), Pow2(Min(k, 30)));
  }

  /** The time the TypeScript client spends asleep in the first `n` attempts. */
  function TotalDelay(base: nat, max: nat, n: nat): int {
    if n == 0 then 0 else TotalDelay(base, max, n - 1) + JsDelay(base, max, n - 1)
  }

  /** The first `m` of `n` delays are below the cap, and the others are not. */
  predicate CapReachedAt(base: nat, max: nat, n: nat, m: nat) {
    && m <= n
    && (m > 0 ==> base * Pow2(m - 1) < max)
    && (m < n ==> max <= base * Pow2(m))
  }

  /** There is such an `m`, and only one. */
  lemma {:induction false} CapReached(base: nat, max: nat, n: nat) returns (m: nat)
    ensures CapReachedAt(base, max, n, m)
    decreases n
  {
    if n == 0 {
      m := 0;
    } else {
      m := CapReached(base, max, n - 1);
      if m == n - 1 && base * Pow2(n - 1) < max {
        m := n;
      }
    }
  }

  lemma CapReachedOnce(base: nat, max: nat, n: nat, m: nat, k: nat)
    requires CapReachedAt(base, max, n, m) && CapReachedAt(base, max, n, k)
    ensures m == k
  {
    if m < k {
      Pow2Grows(m, k - 1);
      Scale(base, Pow2(m), Pow2(k - 1));
    } else if k < m {
      Pow2Grows(k, m - 1);
      Scale(base, Pow2(k), Pow2(m - 1));
    }
  }

  /** The total is a geometric sum up to the cap and linear after it. */
  lemma {:induction false} TotalClosedForm(base: nat, max: nat, n: nat, m: nat)
    requires CapReachedAt(base, max, n, m)
    ensures TotalDelay(base, max, n) == base * (Pow2(m) - 1) + (n - m) * max
    ensures TotalDelay(base, max, n) <= n * max
    decreases n
  {
    if n > 0 {
      Pow2Grows(m, n);
      if m == n {
        if n > 1 {
          Pow2Grows(n - 2, n - 1);
          Scale(base, Pow2(n - 2), Pow2(n - 1));
        }
        TotalClosedForm(base, max, n - 1, n - 1);
        GeometricStep(base, n);
      } else {
        Pow2Grows(m, n - 1);
        Scale(base, Pow2(m), Pow2(n - 1));
        TotalClosedForm(base, max, n - 1, m);
        assert (n - m) * max == (n - 1 - m) * max + max;
      }
      assert n * max == (n - 1) * max + max;
    }
  }

  lemma GeometricStep(base: nat, n: nat)
    requires n > 0
    ensures base * (Pow2(n) - 1) == base * (Pow2(n - 1) - 1) + base * Pow2(n - 1)
  {
  }

  /** The time the C++ client spends asleep in the first `n` attempts. */
  function CppTotalDelay(base: nat, max: nat, n: nat): int {
    if n == 0 then 0 else CppTotalDelay(base, max, n - 1) + CppDelay(base, max, n - 1)
  }

  /** What bounds the C++ delays: the cap, or the largest shift. */
  function CppCap(base: nat, max: nat): nat {
    if base * Pow2(30) < max then base * Pow2(30) else max
  }

  /** The C++ delays are the TypeScript delays under that bound. */
  lemma CppIsCapped(base: nat, max: nat, k: nat)
    ensures CppDelay(base, max, k) == JsDelay(base, CppCap(base, max), k)
  {
    if k < 30 {
      Pow2Grows(k, 30);
      Scale(base, Pow2(k), Pow2(30));
    } else {
      Pow2Grows(30, k);
      Scale(base, Pow2(30), Pow2(k));
    }
  }

  /** So the C++ total has the same closed form, for every base and cap. */
  lemma CppTotalClosedForm(base: nat, max: nat, n: nat, m: nat)
    requires CapReachedAt(base, CppCap(base, max), n, m)
    ensures CppTotalDelay(base, max, n) == base * (Pow2(m) - 1) + (n - m) * CppCap(base, max)
    ensures CppTotalDelay(base, max, n) <= n * max
  {
    CppTotalIs(base, max, n);
    TotalClosedForm(base, CppCap(base, max), n, m);
    Scale(n, CppCap(base, max), max);
  }

  lemma {:induction false} CppTotalIs(base: nat, max: nat, n: nat)
    ensures CppTotalDelay(base, max, n) == TotalDelay(base, CppCap(base, max), n)
    decreases n
  {
    if n > 0 {
      CppIsCapped(base, max, n - 1);
      CppTotalIs(base, max, n - 1);
    }
  }
}
