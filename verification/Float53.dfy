/** What an integer becomes when a JSON number is decoded into a float64: the nearest
    multiple of its unit in the last place, ties to the even multiple. */
module Float53 {

  const EXACT := 0x20_0000_0000_0000 // 2^53

  /** The unit in the last place of a 53-bit significand at magnitude n. */
  function Ulp(n: nat): (u: nat)
    ensures u >= 1
  {
    if n < EXACT then 1 else 2 * Ulp(n / 2)
  }

  function RoundNat(n: nat): nat {
    var u := Ulp(n);
    var q, r := n / u, n % u;
    if 2 * r < u || (2 * r == u && q % 2 == 0) then q * u else (q + 1) * u
  }

  function Float64(n: int): int {
    if n < 0 then (-1) * RoundNat(-n) else RoundNat(n)
  }

  /** Dividing by its unit leaves a significand of at most 53 bits, and of exactly 53 bits
      unless the unit is one. */
  lemma {:induction false} SignificandFits(n: nat)
    ensures n / Ulp(n) < 9_007_199_254_740_992 && (Ulp(n) > 1 ==> n / Ulp(n) >= 4_503_599_627_370_496)
  {
    if n >= EXACT {
      SignificandFits(n / 2);
      DivideTwice(n, Ulp(n / 2));
      if Ulp(n / 2) == 1 { UlpOfSmall(n / 2); }
    }
  }

  lemma DivideTwice(n: nat, u: nat)
    requires u >= 1
    ensures n / (2 * u) == n / 2 / u
  {
    var q := n / 2 / u;
    var r := n / 2 - q * u;
    assert n == q * (2 * u) + (2 * r + n % 2);
    QuotientIs(n, 2 * u, q, 2 * r + n % 2);
  }

  lemma QuotientIs(n: nat, u: nat, q: nat, r: nat)
    requires u >= 1 && n == q * u + r && r < u
    ensures n / u == q
  {
    var d := n / u;
    assert n == d * u + n % u;
    assert (q - d) * u == q * u - d * u && (d - q) * u == d * u - q * u;
    if q > d { AtLeastOnce(q - d, u); }
    if q < d { AtLeastOnce(d - q, u); }
  }

  lemma AtLeastOnce(k: nat, u: nat)
    requires k >= 1
    ensures k * u >= u
  {}

  lemma NextMultiple(q: nat, u: nat)
    ensures (q + 1) * u == q * u + u
  {}

  lemma UlpOfSmall(n: nat)
    requires Ulp(n) == 1
    ensures n < EXACT
  {}

  /** The multiplier rounding picks. */
  function Nearest(q: nat, r: nat, u: nat): nat {
    if 2 * r < u || (2 * r == u && q % 2 == 0) then q else q + 1
  }

  /** With below the multiple of the unit below n, the multiple picked is near, and even
      when both are equally near. */
  lemma NearestIsNear(n: nat, u: nat, q: nat, r: nat, below: nat)
    requires u >= 1 && n == below + r && r < u
    ensures var m := if Nearest(q, r, u) == q then below else below + u;
      && 2 * (m - n) <= u && 2 * (n - m) <= u
      && (2 * (m - n) == u || 2 * (n - m) == u ==> Nearest(q, r, u) % 2 == 0)
  {}

  lemma MultipleIsNear(n: nat, u: nat, q: nat, r: nat, k: nat, m: nat)
    requires u >= 1 && n == q * u + r && r < u && k == Nearest(q, r, u) && m == k * u
    ensures 2 * (m - n) <= u && 2 * (n - m) <= u && (2 * (m - n) == u || 2 * (n - m) == u ==> k % 2 == 0)
  {
    NextMultiple(q, u);
    NearestIsNear(n, u, q, r, q * u);
  }

  lemma NatToNearestEven(n: nat) returns (k: nat)
    ensures var u, m := Ulp(n), RoundNat(n);
      && m == k * u && 2 * (m - n) <= u && 2 * (n - m) <= u
      && (2 * (m - n) == u || 2 * (n - m) == u ==> k % 2 == 0)
  {
    var u := Ulp(n);
    var q, r := n / u, n % u;
    k := Nearest(q, r, u);
    MultipleIsNear(n, u, q, r, k, RoundNat(n));
  }

  lemma NegatedMultiple(k: int, u: int)
    ensures (-k) * u == -(k * u)
  {}

  /** Rounding an integer, negative or not, yields the nearest multiple of its magnitude's
      unit, and the even one of two equally near. */
  lemma RoundsToNearestEven(n: int) returns (k: int)
    ensures var u, m := Ulp(if n < 0 then -n else n), Float64(n);
      && m == k * u && 2 * (m - n) <= u && 2 * (n - m) <= u
      && (2 * (m - n) == u || 2 * (n - m) == u ==> k % 2 == 0)
  {
    k := NatToNearestEven(if n < 0 then -n else n);
    if n < 0 {
      NegatedMultiple(k, Ulp(-n));
      k := -k;
    }
  }

  predicate Exact(n: int) { -EXACT <= n <= EXACT }

  lemma ExactIsUnchanged(n: int)
    requires Exact(n)
    ensures Float64(n) == n
  {
    var m := if n < 0 then -n else n;
    if m == EXACT { assert Ulp(m) == 2 * Ulp(EXACT / 2) == 2; }
  }

  /** 2^53 is the largest magnitude below which distinct integers stay distinct: the next
      integer is rounded onto it. */
  lemma ExactRangeIsLargest(bound: int)
    ensures (forall a: int, b: int ::
               -bound <= a <= bound && -bound <= b <= bound && Float64(a) == Float64(b) ==> a == b)
            <==> bound <= 9_007_199_254_740_992
  {
    if bound <= EXACT {
      forall a: int, b: int | -bound <= a <= bound && -bound <= b <= bound && Float64(a) == Float64(b)
        ensures a == b
      {
        ExactIsUnchanged(a);
        ExactIsUnchanged(b);
      }
    } else {
      ExactIsUnchanged(EXACT);
      assert Ulp(EXACT + 1) == 2 * Ulp((EXACT + 1) / 2) == 2;
      assert Float64(EXACT + 1) == EXACT == Float64(EXACT);
    }
  }
}
