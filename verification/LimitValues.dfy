/** Runtime limits on the wire: whole numbers sent as binary64 patterns. */
module LimitValues {
  import opened Wrappers
  import opened StructuredValues

  function Pow2(k: nat): (p: nat)
    ensures p > 0
  {
    if k == 0 then 1 else 2 * Pow2(k - 1)
  }

  const FRACTION: nat := 0x10_0000_0000_0000
  const USIZE_LIMIT: nat := 0x1_0000_0000_0000_0000
  /** One more than the largest number all of whose predecessors are exact as floats. */
  const EXACT_LIMIT: nat := 0x20_0000_0000_0000

  /** `read_limit_value`: the whole number a pattern stands for, if it is one from 0 to 2^64; the
      top of that range is 2^64 itself, which the final cast brings down to 2^64 - 1. */
  function LimitValue(bits: F64): Option<nat> {
    if bits == 0 || bits == SIGN_BIT then Some(0)
    else if bits >= POSITIVE_INFINITY then None
    else
      var exponent, significand := bits / FRACTION, FRACTION + bits % FRACTION;
      if exponent < 1023 then None
      else if exponent < 1075 then
        if significand % Pow2(1075 - exponent) != 0 then None else Some(significand / Pow2(1075 - exponent))
      else
        var n := significand * Pow2(exponent - 1075);
        if n > USIZE_LIMIT then None else Some(if n == USIZE_LIMIT then USIZE_LIMIT - 1 else n)
  }

  /** Every accepted limit fits the reader's integers; 2^64, which does not, is accepted as 2^64 - 1. */
  lemma LimitsFit(bits: F64)
    ensures LimitValue(bits).Some? ==> LimitValue(bits).value < USIZE_LIMIT
    ensures LimitValue(0x43F0_0000_0000_0000) == Some(USIZE_LIMIT - 1)
  {
    var top: F64 := 0x43F0_0000_0000_0000;
    assert top / FRACTION == 1087 && top % FRACTION == 0;
    assert Pow2(6) == 64;
    assert Pow2(12) == 4096;
    if bits < POSITIVE_INFINITY && 1023 <= bits / FRACTION < 1075 {
      Quotient(FRACTION + bits % FRACTION, Pow2(1075 - bits / FRACTION));
    }
  }

  lemma Quotient(n: nat, unit: nat)
    requires unit > 0
    ensures n / unit <= n
  {
    if n < n / unit {
      ProductGrows(1, unit, n / unit);
    }
  }

  /** The position of the highest set bit. */
  function Log2(n: nat): (k: nat)
    requires n > 0
    ensures Pow2(k) <= n < Pow2(k + 1)
  {
    if n == 1 then 0 else 1 + Log2(n / 2)
  }

  lemma {:induction false} Pow2Sum(a: nat, b: nat)
    ensures Pow2(a) * Pow2(b) == Pow2(a + b)
  {
    if a > 0 {
      Pow2Sum(a - 1, b);
      assert 2 * Pow2(a - 1) * Pow2(b) == 2 * (Pow2(a - 1) * Pow2(b));
    }
  }

  lemma {:induction false} Pow2Monotone(a: nat, b: nat)
    requires a <= b
    ensures Pow2(a) <= Pow2(b)
  {
    if a < b {
      Pow2Monotone(a, b - 1);
    }
  }

  lemma Pow2Of52()
    ensures Pow2(52) == FRACTION && Pow2(53) == EXACT_LIMIT
  {
    assert Pow2(13) == 0x2000;
    Pow2Sum(13, 13);
    Pow2Sum(26, 26);
  }

  lemma Log2Of(n: nat, k: nat)
    requires Pow2(k) <= n < Pow2(k + 1)
    ensures Log2(n) == k
  {
    if Log2(n) < k {
      Pow2Monotone(Log2(n) + 1, k);
    } else if Log2(n) > k {
      Pow2Monotone(k + 1, Log2(n));
    }
  }

  /** The pattern `writeDoubleLE` stores for a safe integer. */
  function FloatOf(n: nat): (bits: F64)
    requires n < EXACT_LIMIT
  {
    if n == 0 then 0
    else
      FloatOfIsInRange(n);
      (1023 + Log2(n)) * FRACTION + (n - Pow2(Log2(n))) * Pow2(52 - Log2(n))
  }

  lemma FloatOfIsInRange(n: nat)
    requires 0 < n < EXACT_LIMIT
    ensures Log2(n) <= 52 && 0 <= (n - Pow2(Log2(n))) * Pow2(52 - Log2(n)) < FRACTION
    ensures FRACTION + (n - Pow2(Log2(n))) * Pow2(52 - Log2(n)) == n * Pow2(52 - Log2(n))
  {
    var k := Log2(n);
    Pow2Of52();
    if k > 52 {
      Pow2Monotone(53, k);
    }
    Pow2Sum(k, 52 - k);
    Scaled(n, Pow2(k), Pow2(52 - k));
  }

  lemma Scaled(n: nat, low: nat, unit: nat)
    requires low <= n < 2 * low && unit > 0
    ensures 0 <= (n - low) * unit < low * unit
    ensures low * unit + (n - low) * unit == n * unit
  {
    Distribute(n, low, unit);
    Distribute(low, n - low, unit);
    ProductGrows(1, low - (n - low), unit);
    ProductGrows(0, n - low, unit);
  }

  lemma Distribute(a: int, b: int, c: int)
    ensures (a - b) * c == a * c - b * c
  {
  }

  lemma ProductGrows(a: int, b: int, c: nat)
    requires a <= b
    ensures a * c <= b * c
  {
  }

  lemma DivideBack(n: int, unit: nat)
    requires unit > 0
    ensures n * unit % unit == 0 && n * unit / unit == n
  {
    var whole := n * unit;
    var quotient := whole / unit;
    Distribute(n, quotient, unit);
    if n > quotient {
      ProductGrows(1, n - quotient, unit);
    } else if n < quotient {
      ProductGrows(n - quotient, -1, unit);
    }
  }

  /** A written limit is read back: a pattern stands for a safe integer exactly when it is the one
      the host writes for it, or is negative zero. */
  lemma LimitValueOfFloat(n: nat, bits: F64)
    requires n < EXACT_LIMIT
    ensures LimitValue(bits) == Some(n) <==> bits == FloatOf(n) || (n == 0 && bits == SIGN_BIT)
  {
    if n > 0 {
      WrittenLimitIsRead(n);
    }
    if bits != 0 && bits != SIGN_BIT && LimitValue(bits) == Some(n) {
      ReadLimitIsWritten(n, bits);
    }
  }

  lemma WrittenLimitIsRead(n: nat)
    requires 0 < n < EXACT_LIMIT
    ensures LimitValue(FloatOf(n)) == Some(n) && FloatOf(n) < POSITIVE_INFINITY && FloatOf(n) != 0
  {
    hide Pow2, Log2;
    FloatOfIsInRange(n);
    var k := Log2(n);
    FieldsOf(1023 + k, (n - Pow2(k)) * Pow2(52 - k));
    DivideBack(n, Pow2(52 - k));
    assert Pow2(0) == 1 by { PowerOfZero(); }
  }

  lemma PowerOfZero()
    ensures Pow2(0) == 1
  {
  }

  /** Exponent and fraction, put together and taken apart. */
  lemma FieldsOf(exponent: nat, fraction: nat)
    requires fraction < FRACTION
    ensures (exponent * FRACTION + fraction) / FRACTION == exponent
    ensures (exponent * FRACTION + fraction) % FRACTION == fraction
  {
  }

  lemma ReadLimitIsWritten(n: nat, bits: F64)
    requires n < EXACT_LIMIT && bits != 0 && bits != SIGN_BIT && LimitValue(bits) == Some(n)
    ensures n > 0 && bits == FloatOf(n)
  {
    var exponent, significand := bits / FRACTION, FRACTION + bits % FRACTION;
    Pow2Of52();
    if exponent > 1075 {
      Pow2Monotone(1, exponent - 1075);
    }
    var k := exponent - 1023;
    Pow2Sum(k, 52 - k);
    Between(n, Pow2(k), Pow2(52 - k), significand);
    Log2Of(n, k);
    FloatOfIsInRange(n);
  }

  lemma Between(n: nat, low: nat, unit: nat, product: nat)
    requires n * unit == product && low * unit <= product < 2 * (low * unit)
    ensures low <= n < 2 * low
  {
    if n < low {
      ProductGrows(n + 1, low, unit);
    }
    if n >= 2 * low {
      ProductGrows(2 * low, n, unit);
    }
  }
}
