/** The capped exponential back-off between failed ingestion attempts. */
module RetryDelay {
  import opened Basics

  function Pow2(n: nat): (p: nat)
    ensures p >= 1
  {
    if n == 0 then 1 else 2 * Pow2(n - 1)
  }

  function BitLength(n: nat): nat {
    if n == 0 then 0 else 1 + BitLength(n / 2)
  }

  function Max(a: int, b: int): int {
    if a > b then a else b
  }

  /** What the division of the two durations is relied on to return: rounding is
      monotone and exact on powers of two, so it never drops below a power of two that
      the exact quotient reaches. Truncated floating-point division satisfies this. */
  ghost predicate Quotient(quotient: nat, base: nat, limit: nat) {
    forall k: nat :: base * Pow2(k) <= limit ==> Pow2(k) <= quotient
  }

  /** The delay before the next attempt; `quotient` is `limit` divided by `base`. */
  function Delay(base: nat, limit: nat, quotient: nat, attempt: int): nat {
    var exponent := Min(Max(attempt - 1, 0), BitLength(Max(quotient, 1)));
    Min(base * Pow2(exponent), limit)
  }

  /** The same back-off without a cap on the exponent. */
  function Uncapped(base: nat, limit: nat, attempt: int): nat {
    Min(base * Pow2(Max(attempt - 1, 0)), limit)
  }

  lemma {:induction false} BitLengthBound(n: nat)
    ensures n < Pow2(BitLength(n))
    ensures n > 0 ==> Pow2(BitLength(n) - 1) <= n
  {
    if n > 0 {
      BitLengthBound(n / 2);
    }
  }

  lemma {:induction false} Pow2Monotone(a: nat, b: nat)
    requires a <= b
    ensures Pow2(a) <= Pow2(b)
    decreases b - a
  {
    if a < b {
      Pow2Monotone(a, b - 1);
    }
  }

  lemma ScaledMonotone(base: nat, a: nat, b: nat)
    requires a <= b
    ensures base * Pow2(a) <= base * Pow2(b)
  {
    Pow2Monotone(a, b);
    assert base * (Pow2(b) - Pow2(a)) >= 0;
  }

  /** Capping the exponent by the bit length changes nothing. */
  lemma CapIsInvisible(base: nat, limit: nat, quotient: nat, attempt: int)
    requires 0 < base <= limit && Quotient(quotient, base, limit)
    ensures Delay(base, limit, quotient, attempt) == Uncapped(base, limit, attempt)
  {
    var cap := BitLength(Max(quotient, 1));
    BitLengthBound(Max(quotient, 1));
    assert base * Pow2(cap) > limit;
    if Max(attempt - 1, 0) > cap {
      ScaledMonotone(base, cap, Max(attempt - 1, 0));
    }
  }

  /** The back-off never shrinks, starts at `base` and stays within the two bounds. */
  lemma DelayIsMonotone(base: nat, limit: nat, quotient: nat, attempt: int, later: int)
    requires 0 < base <= limit && Quotient(quotient, base, limit) && attempt <= later
    ensures base <= Delay(base, limit, quotient, attempt)
         <= Delay(base, limit, quotient, later) <= limit
    ensures attempt <= 1 ==> Delay(base, limit, quotient, attempt) == base
  {
    CapIsInvisible(base, limit, quotient, attempt);
    CapIsInvisible(base, limit, quotient, later);
    ScaledMonotone(base, 0, Max(attempt - 1, 0));
    ScaledMonotone(base, Max(attempt - 1, 0), Max(later - 1, 0));
  }

  /** The first delay is the base, and each further attempt doubles it up to the maximum. */
  lemma DelayDoubles(base: nat, limit: nat, quotient: nat, attempt: int)
    requires 0 < base <= limit && Quotient(quotient, base, limit)
    ensures attempt <= 1 ==> Delay(base, limit, quotient, attempt) == base
    ensures attempt >= 1 ==> var delay := Delay(base, limit, quotient, attempt);
              Delay(base, limit, quotient, attempt + 1) == if 2 * delay < limit then 2 * delay else limit
  {
    CapIsInvisible(base, limit, quotient, attempt);
    CapIsInvisible(base, limit, quotient, attempt + 1);
    if attempt >= 1 {
      TwiceProduct(base, Pow2(attempt - 1));
    }
  }

  lemma FloorBounds(base: nat, limit: nat, factor: nat)
    requires 0 < base
    ensures base * factor <= limit <==> factor <= limit / base
  {
    var quotient := limit / base;
    assert limit == base * quotient + limit % base;
    if factor <= quotient {
      MultiplyBoth(base, factor, quotient);
    } else {
      MultiplyBoth(base, quotient + 1, factor);
      assert base * (quotient + 1) == base * quotient + base;
    }
  }

  lemma FloorIsAdmissible(base: nat, limit: nat)
    requires 0 < base <= limit
    ensures Quotient(limit / base, base, limit)
  {
    forall k: nat | base * Pow2(k) <= limit ensures Pow2(k) <= limit / base {
      FloorBounds(base, limit, Pow2(k));
    }
  }

  lemma ProductIsBounded(base: nat, limit: nat, quotient: nat)
    requires 0 < base <= limit && quotient == limit / base
    ensures base * Pow2(BitLength(quotient)) <= 2 * limit
  {
    FloorBounds(base, limit, 1);
    BitLengthBound(quotient);
    var half := Pow2(BitLength(quotient) - 1);
    FloorBounds(base, limit, half);
    TwiceProduct(base, half);
  }

  /** The exact integer quotient is one of the admissible ones, and with it the
      product computed before the final minimum is at most twice the limit. */
  lemma FloorIsAQuotient(base: nat, limit: nat, attempt: int)
    requires 0 < base <= limit
    ensures Quotient(limit / base, base, limit)
    ensures base * Pow2(Min(Max(attempt - 1, 0), BitLength(limit / base))) <= 2 * limit
  {
    var quotient := limit / base;
    FloorIsAdmissible(base, limit);
    ProductIsBounded(base, limit, quotient);
    ScaledMonotone(base, Min(Max(attempt - 1, 0), BitLength(quotient)), BitLength(quotient));
  }

  lemma TwiceProduct(base: nat, p: nat)
    ensures base * (2 * p) == 2 * (base * p)
  {
  }

  lemma MultiplyBoth(base: nat, a: nat, b: nat)
    requires a <= b
    ensures base * a <= base * b
  {
    assert base * (b - a) >= 0;
  }
}
