/**
 Numbers in the relay's JSON.  The enclave prints nonces as integers, and JSON.parse reads them as
 IEEE 754 binary64 values: exact up to 2^53, rounded to the nearest representable integer (ties to
 an even significand) above.  Nonces are below 2^64, so the largest exponent is out of reach.
 */
module JsonNumber {
  import opened Prelude

  const POW53: int := 0x20_0000_0000_0000

  /** The spacing of binary64 values around n, once n needs 53 significant bits or more. */
  function Spacing(n: nat): (u: nat)
    ensures u > 0
  {
    if n < POW53 then 1 else 2 * Spacing(n / 2)
  }

  function Remainder(n: nat, u: nat): (r: nat)
    requires u > 0
    ensures r < u && r <= n
  {
    RemainderAtMost(n, u);
    n % u
  }

  lemma RemainderAtMost(n: nat, u: nat)
    requires u > 0
    ensures n % u <= n
  {
    if n < u {
    } else {
    }
  }

  /** JSON.parse followed by BigInt, on a printed natural number. */
  function ToDouble(n: nat): nat {
    var u := Spacing(n);
    var r := Remainder(n, u);
    if 2 * r < u || (2 * r == u && (n / u) % 2 == 0) then n - r else n - r + u
  }

  // ---- that this is binary64 rounding ----

  /** An integer that binary64 holds: a significand of at most 53 bits, shifted. */
  predicate IsBinary64(m: nat, q: nat, k: nat) {
    q < POW53 && m == q * Pow2(k)
  }

  ghost predicate Representable(m: nat) {
    exists q: nat, k: nat :: IsBinary64(m, q, k)
  }

  function Exponent(n: nat): nat {
    if n < POW53 then 0 else Exponent(n / 2) + 1
  }

  /** The spacing is the power of two that makes n a 53-bit number, or 1 for smaller n. */
  lemma {:induction false} SpacingIs(n: nat)
    ensures Spacing(n) == Pow2(Exponent(n))
    ensures n >= POW53 ==> POW53 / 2 * Spacing(n) <= n < POW53 * Spacing(n)
  {
    if n >= POW53 {
      SpacingIs(n / 2);
      Doubled(n, Spacing(n / 2));
    }
  }

  lemma Doubled(n: nat, u: nat)
    requires n >= POW53
    requires if n / 2 >= POW53 then POW53 / 2 * u <= n / 2 < POW53 * u else u == 1
    ensures POW53 / 2 * (2 * u) <= n < POW53 * (2 * u)
  {
  }

  lemma {:induction false} PowersDivide(i: nat, j: nat)
    requires i <= j
    ensures exists d: nat :: d * Pow2(i) == Pow2(j)
    decreases j
  {
    if i == j {
      assert 1 * Pow2(i) == Pow2(j);
    } else {
      PowersDivide(i, j - 1);
      var d: nat :| d * Pow2(i) == Pow2(j - 1);
      assert (2 * d) * Pow2(i) == 2 * (d * Pow2(i));
    }
  }

  /** Representable numbers are multiples of the spacing, or lie below all 53-bit multiples of it. */
  lemma RepresentableSpaced(m: nat, e: nat)
    requires Representable(m)
    ensures (exists d: nat :: m == d * Pow2(e)) || m < POW53 / 2 * Pow2(e)
  {
    var q: nat, k: nat :| IsBinary64(m, q, k);
    if e <= k {
      PowersDivide(e, k);
      var d: nat :| d * Pow2(e) == Pow2(k);
      Regroup(q, d, Pow2(e));
    } else {
      PowersDivide(k + 1, e);
      var d: nat :| d * Pow2(k + 1) == Pow2(e);
      SmallerExponent(q, Pow2(k), d);
    }
  }

  lemma Regroup(a: nat, b: nat, c: nat)
    ensures a * (b * c) == (a * b) * c
  {
  }

  lemma SmallerExponent(q: nat, p: nat, d: nat)
    requires q < POW53 && d * (2 * p) > 0
    ensures q * p < POW53 / 2 * (d * (2 * p))
  {
    assert d >= 1 && p >= 1;
    assert d * (2 * p) >= 2 * p by { MulGrows(d, 2 * p); }
    assert q * p < POW53 * p by { LessTimes(q, POW53, p); }
  }

  lemma MulGrows(d: nat, x: nat)
    requires d >= 1
    ensures d * x >= x
  {
    assert d * x == x + (d - 1) * x;
  }

  lemma LessTimes(a: nat, b: nat, p: nat)
    requires a < b && p > 0
    ensures a * p < b * p
  {
    assert (b - a) * p == b * p - a * p;
  }

  function Distance(a: nat, b: nat): nat {
    if a < b then b - a else a - b
  }

  /** The significand rounding picks, between q and q + 1. */
  function Picked(u: nat, q: nat, r: nat): nat {
    if 2 * r < u || (2 * r == u && q % 2 == 0) then q else q + 1
  }

  /** The quotient, remainder and spacing that ToDouble works with. */
  lemma Rounding(n: nat) returns (u: nat, q: nat, r: nat)
    ensures u == Spacing(n) == Pow2(Exponent(n))
    ensures n == q * u + r && r < u && q < POW53 && (n >= POW53 ==> q >= POW53 / 2)
    ensures ToDouble(n) == Picked(u, q, r) * u
    ensures n < POW53 ==> u == 1
  {
    u := Spacing(n);
    q, r := n / u, n % u;
    SpacingIs(n);
    ToDoublePicks(n, u, q, r);
    QuotientBounded(n, u, q, r);
  }

  lemma ToDoublePicks(n: nat, u: nat, q: nat, r: nat)
    requires u == Spacing(n) && q == n / u && r == n % u
    ensures n == q * u + r && ToDouble(n) == Picked(u, q, r) * u
  {
    Divided(n, u, q, r);
    assert ToDouble(n) == if Picked(u, q, r) == q then n - r else n - r + u;
    NextMultiple(u, q);
  }

  lemma Divided(n: nat, u: nat, q: nat, r: nat)
    requires u > 0 && q == n / u && r == n % u
    ensures n == q * u + r
  {
  }

  lemma NextMultiple(u: nat, q: nat)
    ensures (q + 1) * u == q * u + u
  {
  }

  lemma QuotientBounded(n: nat, u: nat, q: nat, r: nat)
    requires n == q * u + r && r < u
    requires n >= POW53 ==> POW53 / 2 * u <= n < POW53 * u
    requires n < POW53 ==> u == 1
    ensures q < POW53 && (n >= POW53 ==> q >= POW53 / 2)
  {
    assert (q + 1) * u == q * u + u;
    if q >= POW53 {
      TimesMonotonic(POW53, q, u);
    } else if q + 1 <= POW53 / 2 {
      TimesMonotonic(q + 1, POW53 / 2, u);
    }
  }

  lemma TimesMonotonic(a: nat, b: nat, u: nat)
    requires a <= b
    ensures a * u <= b * u
  {
    assert (b - a) * u == b * u - a * u;
  }

  /** Rounding up may carry into a 54th bit; then the significand is 2^52 under the next exponent. */
  lemma CarryRepresentable(p: nat, e: nat)
    requires p <= POW53
    ensures Representable(p * Pow2(e))
  {
    if p < POW53 {
      assert IsBinary64(p * Pow2(e), p, e);
    } else {
      assert Pow2(e + 1) == 2 * Pow2(e);
      assert IsBinary64(p * Pow2(e), POW53 / 2, e + 1);
    }
  }

  /** What JSON.parse returns is a binary64 number. */
  lemma ToDoubleRepresentable(n: nat)
    ensures Representable(ToDouble(n))
  {
    var u, q, r := Rounding(n);
    CarryRepresentable(Picked(u, q, r), Exponent(n));
  }

  /** A multiple of u other than the nearest lies at least as far away, and as far only in a tie. */
  lemma OtherMultiple(n: nat, u: nat, q: nat, r: nat, d: nat)
    requires u > 0 && n == q * u + r && r < u
    ensures d <= q ==> Distance(n, d * u) >= r && (d < q ==> Distance(n, d * u) > r)
    ensures d > q ==> Distance(n, d * u) >= u - r && (d > q + 1 ==> Distance(n, d * u) > u - r)
  {
    assert (q + 1) * u == q * u + u;
    if d <= q {
      TimesMonotonic(d, q, u);
      if d < q {
        LessTimes(d, q, u);
      }
    } else {
      TimesMonotonic(q + 1, d, u);
      if d > q + 1 {
        LessTimes(q + 1, d, u);
      }
    }
  }

  /** Among the multiples of u the picked one is nearest, and even when another is as near. */
  lemma PickedNearest(n: nat, u: nat, q: nat, r: nat, p: nat, d: nat)
    requires u > 0 && n == q * u + r && r < u && p == Picked(u, q, r)
    ensures Distance(n, p * u) <= Distance(n, d * u) && Distance(n, p * u) <= r
    ensures d != p && Distance(n, d * u) == Distance(n, p * u) ==> p % 2 == 0
  {
    assert (q + 1) * u == q * u + u;
    assert Distance(n, p * u) == if p == q then r else u - r;
    OtherMultiple(n, u, q, r, d);
  }

  /** What is representable and no multiple of the spacing lies farther below n. */
  lemma FurtherBelow(n: nat, u: nat, q: nat, r: nat, m: nat)
    requires n == q * u + r && m < POW53 / 2 * u && q >= POW53 / 2
    ensures Distance(n, m) > r
  {
    TimesMonotonic(POW53 / 2, q, u);
  }

  /**
   JSON.parse rounds to nearest: no binary64 number lies nearer to n, and where another lies as near,
   the one returned has an even significand.
   */
  lemma ToDoubleNearest(n: nat, m: nat)
    requires Representable(m)
    ensures Distance(n, ToDouble(n)) <= Distance(n, m)
    ensures m != ToDouble(n) && Distance(n, m) == Distance(n, ToDouble(n)) ==>
      exists p: nat :: ToDouble(n) == p * Spacing(n) && p % 2 == 0
  {
    var u, q, r := Rounding(n);
    if n < POW53 {
      PickedNearest(n, u, q, r, Picked(u, q, r), q);
    } else {
      RepresentableSpaced(m, Exponent(n));
      NearestOf(n, u, q, r, m);
    }
  }

  lemma NearestOf(n: nat, u: nat, q: nat, r: nat, m: nat)
    requires u > 0 && n == q * u + r && r < u && q >= POW53 / 2
    requires (exists d: nat :: m == d * u) || m < POW53 / 2 * u
    ensures var D := Picked(u, q, r) * u;
      && Distance(n, D) <= Distance(n, m)
      && (m != D && Distance(n, m) == Distance(n, D) ==> exists p: nat :: D == p * u && p % 2 == 0)
  {
    var p := Picked(u, q, r);
    if d: nat :| m == d * u {
      PickedNearest(n, u, q, r, p, d);
    } else {
      PickedNearest(n, u, q, r, p, q);
      FurtherBelow(n, u, q, r, m);
    }
  }

  /** A natural number survives the trip exactly when binary64 holds it. */
  lemma SurvivesIffRepresentable(n: nat)
    ensures ToDouble(n) == n <==> Representable(n)
  {
    ToDoubleRepresentable(n);
    if Representable(n) {
      ToDoubleNearest(n, n);
    }
  }

  /** That is when it is a multiple of the spacing at its size. */
  lemma SurvivesIffMultiple(n: nat)
    ensures ToDouble(n) == n <==> n % Spacing(n) == 0
  {
  }

  /** Everything below 2^53 survives. */
  lemma SmallSurvive(n: nat)
    requires n < POW53
    ensures ToDouble(n) == n
  {
  }

  /** 2^53 + 1 is the first number that does not. */
  lemma FirstLost()
    ensures ToDouble(9007199254740993) == 9007199254740992
    ensures forall n: nat | n <= 9007199254740992 :: ToDouble(n) == n
  {
    assert Spacing(POW53) == 2;
  }
}
