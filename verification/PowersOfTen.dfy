/** Powers of ten, exact over the reals, for decimal numbers with any exponent. */
module PowersOfTen {
  function Pow10(n: nat): (p: nat)
    ensures p >= 1
  {
    if n == 0 then 1 else 10 * Pow10(n - 1)
  }

  /** 10^e for any integer e. */
  function Scale(e: int): real
    decreases if e >= 0 then e else -e
  {
    if e == 0 then 1.0 else if e > 0 then 10.0 * Scale(e - 1) else Scale(e + 1) / 10.0
  }

  lemma ScaleStep(e: int)
    ensures Scale(e + 1) == 10.0 * Scale(e)
  {
  }

  lemma {:induction false} ScalePositive(e: int)
    ensures Scale(e) > 0.0
    decreases if e >= 0 then e else -e
  {
    if e != 0 {
      ScalePositive(if e > 0 then e - 1 else e + 1);
    }
  }

  lemma {:induction false} ScaleOfNat(n: nat)
    ensures Scale(n) == Pow10(n) as real
  {
    if n > 0 {
      ScaleOfNat(n - 1);
    }
  }

  lemma ScaleZero()
    ensures Scale(0) == 1.0
  {
  }

  lemma {:induction false} ScaleAdd(a: int, b: int)
    ensures Scale(a + b) == Scale(a) * Scale(b)
    decreases if b >= 0 then b else -b
  {
    hide Scale;
    if b == 0 {
      ScaleZero();
    } else if b > 0 {
      ScaleAdd(a, b - 1);
      ScaleStep(a + (b - 1));
      ScaleStep(b - 1);
      TenTimes(Scale(a + (b - 1)), Scale(a + b), Scale(a), Scale(b - 1), Scale(b));
    } else {
      ScaleAdd(a, b + 1);
      ScaleStep(a + b);
      ScaleStep(b);
      TenTimes(Scale(a + b), Scale(a + (b + 1)), Scale(a), Scale(b), Scale(b + 1));
    }
  }

  lemma TenTimes(x: real, x': real, a: real, y: real, y': real)
    requires x' == 10.0 * x && y' == 10.0 * y
    ensures x' == a * y' <==> x == a * y
  {
    assert a * (10.0 * y) == 10.0 * (a * y);
  }

  lemma {:induction false} ScaleMonotone(a: int, b: int)
    requires a <= b
    ensures Scale(a) <= Scale(b)
    decreases b - a
  {
    if a < b {
      ScaleMonotone(a, b - 1);
      ScaleStep(b - 1);
      ScalePositive(b - 1);
    }
  }

  // Small facts about products, so that no proof below multiplies unknowns.

  lemma Associate(x: real, y: real, z: real)
    ensures x * (y * z) == (x * y) * z
  {
  }

  lemma CastProduct(x: nat, y: nat)
    ensures (x * y) as real == x as real * y as real
  {
  }

  lemma TimesMonotone(x: real, y: real, s: real)
    requires s > 0.0
    ensures x < y ==> x * s < y * s
    ensures x == y ==> x * s == y * s
    ensures x > y ==> x * s > y * s
  {
    if x < y {
      Positive(y - x, s);
    }
    if x > y {
      Positive(x - y, s);
    }
  }

  lemma Positive(x: real, s: real)
    requires x > 0.0 && s > 0.0
    ensures x * s > 0.0
  {
  }
}
