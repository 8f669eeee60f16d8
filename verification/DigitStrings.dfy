/** Digit strings and the natural numbers they stand for. */
module DigitStrings {
  import opened PowersOfTen
  import opened Text

  function SignOfDifference(a: nat, b: nat): int {
    if a < b then -1 else if a == b then 0 else 1
  }

  lemma NatOfLast(s: string)
    requires AllDigits(s) && s != ""
    ensures AllDigits(s[..|s| - 1])
    ensures NatOf(s) == 10 * NatOf(s[..|s| - 1]) + DigitValue(s[|s| - 1])
  {
  }

  lemma NatOfDigit(c: char)
    requires IsDigit(c)
    ensures AllDigits([c]) && NatOf([c]) == DigitValue(c)
  {
    NatOfLast([c]);
    assert [c][..0] == "";
  }

  lemma ShiftTen(x: nat, p: nat)
    ensures x * (10 * p) == 10 * (x * p)
  {
  }

  lemma {:induction false} NatOfAppend(a: string, b: string)
    requires AllDigits(a) && AllDigits(b)
    ensures AllDigits(a + b)
    ensures NatOf(a + b) == NatOf(a) * Pow10(|b|) + NatOf(b)
  {
    if b == "" {
      assert a + b == a;
    } else {
      var front := b[..|b| - 1];
      NatOfAppend(a, front);
      NatOfLast(b);
      NatOfLast(a + b);
      assert (a + b)[..|a + b| - 1] == a + front;
      ShiftTen(NatOf(a), Pow10(|front|));
    }
  }

  lemma {:induction false} NatOfBounds(s: string)
    requires AllDigits(s)
    ensures NatOf(s) < Pow10(|s|)
    ensures s != "" && s[0] != '0' ==> NatOf(s) >= Pow10(|s| - 1)
  {
    if s != "" {
      NatOfLast(s);
      NatOfBounds(s[..|s| - 1]);
    }
  }

  lemma {:induction false} NatOfZeros(n: nat)
    ensures AllDigits(Repeat('0', n)) && NatOf(Repeat('0', n)) == 0
  {
    if n > 0 {
      NatOfZeros(n - 1);
      NatOfLast(Repeat('0', n));
      assert Repeat('0', n)[..n - 1] == Repeat('0', n - 1);
    }
  }

  lemma NatOfHead(s: string)
    requires AllDigits(s) && s != ""
    ensures AllDigits(s[1..])
    ensures NatOf(s) == DigitValue(s[0]) * Pow10(|s| - 1) + NatOf(s[1..])
  {
    NatOfDigit(s[0]);
    NatOfAppend([s[0]], s[1..]);
    assert s == [s[0]] + s[1..];
  }

  lemma {:induction false} TrimmedZerosKeepTheNumber(s: string)
    requires AllDigits(s)
    ensures AllDigits(TrimLeftChar(s, '0')) && NatOf(TrimLeftChar(s, '0')) == NatOf(s)
  {
    if s != "" && s[0] == '0' {
      NatOfHead(s);
      TrimmedZerosKeepTheNumber(s[1..]);
    }
  }

  /** Padding on the right multiplies by a power of ten. */
  lemma PaddedValue(s: string, n: nat)
    requires AllDigits(s)
    ensures AllDigits(s + Repeat('0', n))
    ensures NatOf(s + Repeat('0', n)) == NatOf(s) * Pow10(n)
  {
    NatOfZeros(n);
    NatOfAppend(s, Repeat('0', n));
  }

  lemma LeadingDigitDecides(d: nat, e: nat, p: nat, x: nat, y: nat)
    requires d < e && x < p
    ensures d * p + x < e * p + y
  {
    var k := e - d - 1;
    assert e * p == (d + 1 + k) * p == d * p + p + k * p;
  }

  /** On digit strings of one length, text order is number order. */
  lemma {:induction false} CompareIsNumeric(a: string, b: string)
    requires AllDigits(a) && AllDigits(b) && |a| == |b|
    ensures CompareStrings(a, b) == SignOfDifference(NatOf(a), NatOf(b))
  {
    if a != "" {
      NatOfHead(a);
      NatOfHead(b);
      NatOfBounds(a[1..]);
      NatOfBounds(b[1..]);
      if a[0] < b[0] {
        LeadingDigitDecides(DigitValue(a[0]), DigitValue(b[0]), Pow10(|a| - 1), NatOf(a[1..]), NatOf(b[1..]));
      } else if b[0] < a[0] {
        LeadingDigitDecides(DigitValue(b[0]), DigitValue(a[0]), Pow10(|a| - 1), NatOf(b[1..]), NatOf(a[1..]));
      } else {
        CompareIsNumeric(a[1..], b[1..]);
      }
    }
  }
}
