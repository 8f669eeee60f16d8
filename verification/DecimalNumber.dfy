/** Exact comparison of JSON numbers without expanding their exponents. */
module DecimalNumber {
  import opened PowersOfTen
  import opened DigitStrings
  import opened Text

  // ---------------------------------------------------------------------
  // The reference: section 6 of RFC 8259.
  // ---------------------------------------------------------------------

  datatype ExponentSign = Unsigned | Plus | Minus

  datatype ExponentPart =
    | NoExponent
    | Exponent(upper: bool, sign: ExponentSign, digits: string)

  /** One parse of the number grammar; `fraction` is empty when there is no decimal point. */
  datatype JsonNumber = JsonNumber(negative: bool, integer: string, fraction: string, exponent: ExponentPart) {

    predicate Valid() {
      && integer != "" && AllDigits(integer)
      && (|integer| > 1 ==> integer[0] != '0')
      && AllDigits(fraction)
      && (exponent.Exponent? ==> exponent.digits != "" && AllDigits(exponent.digits))
    }

    function Mantissa(): string {
      integer + (if fraction == "" then "" else "." + fraction)
    }

    function Unsigned(): string {
      Mantissa() + ExponentText()
    }

    function ExponentText(): string {
      match exponent
      case NoExponent => ""
      case Exponent(upper, sign, digits) => (if upper then "E" else "e") + ExponentBody()
    }

    /** What follows the exponent marker; the implementation reads "0" when there is none. */
    function ExponentBody(): string {
      match exponent
      case NoExponent => "0"
      case Exponent(_, Unsigned, digits) => digits
      case Exponent(_, Plus, digits) => "+" + digits
      case Exponent(_, Minus, digits) => "-" + digits
    }

    /** The text the number has in a JSON document. */
    function Print(): string {
      (if negative then "-" else "") + Unsigned()
    }

    function ExponentValue(): int
      requires Valid()
    {
      match exponent
      case NoExponent => 0
      case Exponent(_, Minus, digits) => -(NatOf(digits) as int)
      case Exponent(_, _, digits) => NatOf(digits)
    }

    /** (integer + 0.fraction) * 10^exponent, with its sign. */
    ghost function Value(): real
      requires Valid()
    {
      var magnitude := (NatOf(integer) as real + NatOf(fraction) as real * Scale(-|fraction|)) * Scale(ExponentValue());
      if negative then -magnitude else magnitude
    }
  }

  function Sign(x: real): int {
    if x < 0.0 then -1 else if x == 0.0 then 0 else 1
  }

  // ---------------------------------------------------------------------
  // The implementation's own representation.
  // ---------------------------------------------------------------------

  datatype Decimal = Decimal(negative: bool, digits: string, exponent: int)

  datatype ParseError = EmptyNumber | InvalidExponent(text: string)

  /** No superfluous zero at either end; zero has one spelling. */
  predicate Normal(d: Decimal) {
    && d.digits != "" && AllDigits(d.digits)
    && (d.digits == "0" ==> !d.negative && d.exponent == 0)
    && (d.digits != "0" ==> d.digits[0] != '0' && d.digits[|d.digits| - 1] != '0')
  }

  ghost function Magnitude(d: Decimal): real
    requires AllDigits(d.digits)
  {
    NatOf(d.digits) as real * Scale(d.exponent)
  }

  ghost function DecimalValue(d: Decimal): real
    requires AllDigits(d.digits)
  {
    if d.negative then -Magnitude(d) else Magnitude(d)
  }

  // ---------------------------------------------------------------------
  // compareDecimalMagnitude
  // ---------------------------------------------------------------------

  /** A number with leading non-zero digit lies between two neighbouring powers of ten. */
  lemma MagnitudeBounds(d: Decimal)
    requires Normal(d) && d.digits != "0"
    ensures Scale(d.exponent + |d.digits| - 1) <= Magnitude(d) < Scale(d.exponent + |d.digits|)
  {
    hide Scale, Pow10, NatOf;
    var n := |d.digits|;
    NatOfBounds(d.digits);
    ScalePositive(d.exponent);
    ScaleOfNat(n - 1);
    ScaleOfNat(n);
    ScaleAdd(n - 1, d.exponent);
    ScaleAdd(n, d.exponent);
    TimesMonotone(Scale(n - 1), NatOf(d.digits) as real, Scale(d.exponent));
    TimesMonotone(NatOf(d.digits) as real, Scale(n), Scale(d.exponent));
  }

  lemma SmallerMagnitude(l: Decimal, r: Decimal)
    requires Normal(l) && l.digits != "0" && Normal(r) && r.digits != "0"
    requires l.exponent + |l.digits| < r.exponent + |r.digits|
    ensures Magnitude(l) < Magnitude(r)
  {
    MagnitudeBounds(l);
    MagnitudeBounds(r);
    ScaleMonotone(l.exponent + |l.digits|, r.exponent + |r.digits| - 1);
  }

  /** Zero has magnitude 0, yet the comparison places it where the number one would be. */
  lemma ZeroMagnitude(d: Decimal)
    requires Normal(d)
    ensures Magnitude(d) >= 0.0
    ensures Magnitude(d) == 0.0 <==> d.digits == "0"
    ensures d.digits != "0" ==> (Magnitude(d) < 1.0 <==> d.exponent + |d.digits| < 1)
  {
    if d.digits == "0" {
      NatOfDigit('0');
    } else {
      MagnitudeBounds(d);
      if d.exponent + |d.digits| < 1 {
        ScaleMonotone(d.exponent + |d.digits|, 0);
      } else {
        ScaleMonotone(0, d.exponent + |d.digits| - 1);
      }
    }
  }

  /** Padding to any width keeps the number, at the exponent that makes up for it. */
  lemma PaddedMagnitude(d: Decimal, width: nat)
    requires Normal(d) && |d.digits| <= width
    ensures AllDigits(d.digits + Repeat('0', width - |d.digits|))
    ensures Magnitude(d)
         == NatOf(d.digits + Repeat('0', width - |d.digits|)) as real * Scale(d.exponent + |d.digits| - width)
  {
    hide Scale, Pow10, NatOf;
    var k := width - |d.digits|;
    PaddedValue(d.digits, k);
    ScaleOfNat(k);
    ScaleAdd(k, d.exponent - k);
    CastProduct(NatOf(d.digits), Pow10(k));
    Associate(NatOf(d.digits) as real, Scale(k), Scale(d.exponent - k));
  }

  /** At one magnitude, the padded digit strings decide. */
  lemma EqualMagnitude(l: Decimal, r: Decimal, width: nat)
    requires Normal(l) && Normal(r) && |l.digits| <= width && |r.digits| <= width
    requires l.exponent + |l.digits| == r.exponent + |r.digits|
    ensures CompareStrings(l.digits + Repeat('0', width - |l.digits|), r.digits + Repeat('0', width - |r.digits|))
         == Sign(Magnitude(l) - Magnitude(r))
  {
    hide Scale, Pow10, NatOf;
    PaddedMagnitude(l, width);
    PaddedMagnitude(r, width);
    var a, b := l.digits + Repeat('0', width - |l.digits|), r.digits + Repeat('0', width - |r.digits|);
    CompareIsNumeric(a, b);
    ScalePositive(l.exponent + |l.digits| - width);
    TimesMonotone(NatOf(a) as real, NatOf(b) as real, Scale(l.exponent + |l.digits| - width));
  }

  /** One side is zero and the other a positive number below one: the family the implementation misorders. */
  predicate ZeroAgainstFraction(x: real, y: real) {
    (x == 0.0 && 0.0 < y < 1.0) || (y == 0.0 && 0.0 < x < 1.0)
  }

  /** The sign of x - y, inverted on that family. */
  function Compared(x: real, y: real): int {
    if ZeroAgainstFraction(x, y) then -Sign(x - y) else Sign(x - y)
  }

  /** The comparison is the true one exactly outside that family. */
  lemma TrueExceptForZeroAndFractions(x: real, y: real)
    ensures Compared(x, y) == Sign(x - y) <==> !ZeroAgainstFraction(x, y)
  {
  }

  method CompareDecimalMagnitude(left: Decimal, right: Decimal) returns (comparison: int)
    ensures Normal(left) && Normal(right) ==> comparison == Compared(Magnitude(left), Magnitude(right))
  {
    ghost var normal := Normal(left) && Normal(right);
    if normal {
      ZeroMagnitude(left);
      ZeroMagnitude(right);
    }
    var leftMagnitude := left.exponent;
    leftMagnitude := leftMagnitude + |left.digits|;
    var rightMagnitude := right.exponent;
    rightMagnitude := rightMagnitude + |right.digits|;
    if leftMagnitude != rightMagnitude {
      if normal && left.digits != "0" && right.digits != "0" {
        if leftMagnitude < rightMagnitude {
          SmallerMagnitude(left, right);
        } else {
          SmallerMagnitude(right, left);
        }
      }
      return if leftMagnitude < rightMagnitude then -1 else 1;
    }

    var width := |left.digits|;
    if |right.digits| > width {
      width := |right.digits|;
    }
    var leftDigits := left.digits + Repeat('0', width - |left.digits|);
    var rightDigits := right.digits + Repeat('0', width - |right.digits|);
    if normal {
      EqualMagnitude(left, right, width);
    }
    comparison := CompareStrings(leftDigits, rightDigits);
  }

  // ---------------------------------------------------------------------
  // parseDecimalNumber
  // ---------------------------------------------------------------------

  /** The exponent text of a number without its leading minus. */
  function ExponentTextOf(value: string): string {
    var at := IndexAny(value, "eE");
    if at >= 0 then value[at + 1..] else "0"
  }

  predicate Parseable(value: string) {
    value != "" && ParseInteger(ExponentTextOf(if value[0] == '-' then value[1..] else value)).Some?
  }

  /** What precedes the exponent marker. */
  function MantissaOf(unsigned: string): string {
    var at := IndexAny(unsigned, "eE");
    if at >= 0 then unsigned[..at] else unsigned
  }

  function IntegerPartOf(mantissa: string): string {
    var dot := IndexAny(mantissa, ".");
    if dot >= 0 then mantissa[..dot] else mantissa
  }

  function FractionPartOf(mantissa: string): string {
    var dot := IndexAny(mantissa, ".");
    if dot >= 0 then mantissa[dot + 1..] else ""
  }

  // Where the implementation's searches land in the text of a grammatical number.

  lemma PrintedMantissa(n: JsonNumber)
    requires n.Valid()
    ensures IntegerPartOf(n.Mantissa()) == n.integer
    ensures FractionPartOf(n.Mantissa()) == n.fraction
  {
    hide IntegerPartOf, FractionPartOf;
    SplitAtDot(n.integer, n.fraction);
  }

  lemma SplitAtDot(integer: string, fraction: string)
    requires '.' !in integer
    ensures IntegerPartOf(integer + ("." + fraction)) == integer
    ensures FractionPartOf(integer + ("." + fraction)) == fraction
    ensures IntegerPartOf(integer + "") == integer && FractionPartOf(integer + "") == ""
  {
    hide IndexAny;
    DotIsFirst(fraction);
    IndexAnyAfter(integer, "." + fraction, ".");
    IndexAnyAfter(integer, "", ".");
    AroundDot(integer, fraction);
    assert integer + "" == integer;
  }

  lemma DotIsFirst(fraction: string)
    ensures IndexAny("." + fraction, ".") == 0 && IndexAny("", ".") == -1
  {
  }

  lemma AroundDot(integer: string, fraction: string)
    ensures var s := integer + ("." + fraction);
            |s| == |integer| + 1 + |fraction| && s[..|integer|] == integer && s[|integer| + 1..] == fraction
  {
  }

  lemma MantissaHasNoMarker(n: JsonNumber)
    requires n.Valid()
    ensures forall i :: 0 <= i < |n.Mantissa()| ==> n.Mantissa()[i] !in "eE"
  {
    forall i | 0 <= i < |n.Mantissa()| ensures n.Mantissa()[i] !in "eE" {
      assert n.Mantissa()[i] == '.' || IsDigit(n.Mantissa()[i]);
    }
  }

  lemma PrintedExponent(n: JsonNumber)
    requires n.Valid()
    ensures MantissaOf(n.Unsigned()) == n.Mantissa()
    ensures ExponentTextOf(n.Unsigned()) == n.ExponentBody()
  {
    hide JsonNumber.ExponentBody, JsonNumber.Mantissa, JsonNumber.Valid;
    MantissaHasNoMarker(n);
    FindMarker(n.Mantissa(), n.ExponentText());
    match n.exponent
    case NoExponent =>
      assert n.ExponentBody() == "0" by { NoExponentBody(n); }
    case Exponent(upper, _, _) =>
      MarkedText(n.Mantissa(), if upper then "E" else "e", n.ExponentBody());
  }

  lemma NoExponentBody(n: JsonNumber)
    ensures n.exponent.NoExponent? ==> n.ExponentBody() == "0"
  {
  }

  lemma FindMarker(mantissa: string, text: string)
    requires forall i :: 0 <= i < |mantissa| ==> mantissa[i] !in "eE"
    requires text == "" || text[0] in "eE"
    ensures IndexAny(mantissa + text, "eE") == if text == "" then -1 else |mantissa|
  {
    IndexAnyAfter(mantissa, text, "eE");
  }

  lemma MarkedText(mantissa: string, mark: string, body: string)
    requires |mark| == 1
    ensures (mantissa + (mark + body))[..|mantissa|] == mantissa && (mantissa + (mark + body))[|mantissa| + 1..] == body
  {
  }

  lemma ExponentBodyValue(n: JsonNumber)
    requires n.Valid()
    ensures ParseInteger(n.ExponentBody()) == Some(n.ExponentValue())
  {
    hide NatOf;
    match n.exponent
    case NoExponent =>
      NatOfDigit('0');
      assert "0" == ['0'];
    case Exponent(_, sign, digits) =>
      assert sign != Unsigned ==> n.ExponentBody()[1..] == digits;
      assert IsDigit(digits[0]);
  }

  lemma PrintedParts(n: JsonNumber)
    requires n.Valid()
    ensures n.Print() != ""
    ensures (n.Print()[0] == '-') == n.negative
    ensures n.Unsigned() == if n.negative then n.Print()[1..] else n.Print()
    ensures MantissaOf(n.Unsigned()) == n.Mantissa()
    ensures IntegerPartOf(n.Mantissa()) == n.integer
    ensures FractionPartOf(n.Mantissa()) == n.fraction
    ensures ParseInteger(ExponentTextOf(n.Unsigned())) == Some(n.ExponentValue())
  {
    PrintedMantissa(n);
    PrintedExponent(n);
    ExponentBodyValue(n);
    assert IsDigit(n.integer[0]);
    assert n.Unsigned()[0] == n.integer[0];
  }

  /** The value read as one digit string and an exponent shifted by the fraction's length. */
  lemma JoinedValue(n: JsonNumber)
    requires n.Valid()
    ensures AllDigits(n.integer + n.fraction)
    ensures n.Value() == DecimalValue(Decimal(n.negative, n.integer + n.fraction, n.ExponentValue() - |n.fraction|))
  {
    hide Scale, Pow10, NatOf;
    var k, e := |n.fraction|, n.ExponentValue();
    NatOfAppend(n.integer, n.fraction);
    CastProduct(NatOf(n.integer), Pow10(k));
    ScaleOfNat(k);
    ScaleZero();
    ScaleAdd(k, -k);
    ScaleAdd(-k, e);
    JoinArithmetic(NatOf(n.integer) as real, NatOf(n.fraction) as real, Scale(k), Scale(-k), Scale(e));
  }

  lemma JoinArithmetic(i: real, f: real, p: real, q: real, e: real)
    requires p * q == 1.0
    ensures (i + f * q) * e == (i * p + f) * (q * e)
  {
    Associate(i, p, q);
    assert (i * p + f) * q == i + f * q;
    Associate(i * p + f, q, e);
  }

  /** Every grammatical number spelled `value` has this sign, these digits and this exponent. */
  ghost predicate Reads(value: string, negative: bool, digits: string, exponent: int) {
    forall n: JsonNumber {:trigger n.Print()} :: n.Valid() && n.Print() == value ==>
      AllDigits(digits) && n.Value() == DecimalValue(Decimal(negative, digits, exponent))
  }

  lemma SplitReads(value: string, negative: bool, unsigned: string, exponent: int)
    requires value != "" && negative == (value[0] == '-')
    requires unsigned == if negative then value[1..] else value
    requires ParseInteger(ExponentTextOf(unsigned)) == Some(exponent)
    ensures var integerPart, fractionPart := IntegerPartOf(MantissaOf(unsigned)), FractionPartOf(MantissaOf(unsigned));
            Reads(value, negative, integerPart + fractionPart, exponent - |fractionPart|)
  {
    hide NatOf, Scale, IndexAny, ParseInteger, DecimalValue, JsonNumber.Value, JsonNumber.ExponentValue;
    var integerPart, fractionPart := IntegerPartOf(MantissaOf(unsigned)), FractionPartOf(MantissaOf(unsigned));
    var joined := Decimal(negative, integerPart + fractionPart, exponent - |fractionPart|);
    forall n: JsonNumber | n.Valid() && n.Print() == value
      ensures AllDigits(joined.digits) && n.Value() == DecimalValue(joined)
    {
      PrintedParts(n);
      assert joined == Decimal(n.negative, n.integer + n.fraction, n.ExponentValue() - |n.fraction|);
      JoinedValue(n);
    }
  }

  lemma TrimmedReads(value: string, negative: bool, digits: string, exponent: int)
    requires Reads(value, negative, digits, exponent)
    ensures Reads(value, negative, TrimLeftChar(digits, '0'), exponent)
    ensures TrimLeftChar(digits, '0') == "" ==> Reads(value, false, "0", 0)
  {
    hide NatOf, Scale, TrimLeftChar;
    if AllDigits(digits) {
      TrimmedZerosKeepTheNumber(digits);
      NatOfDigit('0');
      assert "0" == ['0'];
      if TrimLeftChar(digits, '0') == "" {
        NatOfEmpty();
        assert DecimalValue(Decimal(negative, digits, exponent)) == 0.0;
      }
    }
  }

  lemma NatOfEmpty()
    ensures NatOf("") == 0
  {
  }

  /** Dropping one trailing zero and raising the exponent keeps the value. */
  lemma DropTrailingZero(value: string, negative: bool, digits: string, exponent: int)
    requires Reads(value, negative, digits, exponent)
    requires |digits| > 1 && digits[|digits| - 1] == '0'
    ensures Reads(value, negative, digits[..|digits| - 1], exponent + 1)
  {
    hide NatOf, Scale;
    var front := digits[..|digits| - 1];
    if AllDigits(digits) {
      NatOfLast(digits);
      ScaleStep(exponent);
      Associate(NatOf(front) as real, 10.0, Scale(exponent));
    }
  }

  lemma GrammaticalParses(value: string)
    ensures (exists n: JsonNumber :: n.Valid() && n.Print() == value) ==> Parseable(value)
  {
    hide NatOf, IndexAny, ParseInteger;
    if n: JsonNumber :| n.Valid() && n.Print() == value {
      PrintedParts(n);
    }
  }

  /** Succeeds on every grammatical number, with a normal form of the same exact value. */
  method ParseDecimalNumber(value: string) returns (r: Result<Decimal, ParseError>)
    ensures r.Ok? <==> Parseable(value)
    ensures r.Err? ==> r.error.EmptyNumber? == (value == "")
    ensures r.Ok? ==> Reads(value, r.value.negative, r.value.digits, r.value.exponent)
    ensures r.Ok? && AllDigits(r.value.digits) ==> Normal(r.value)
  {
    hide NatOf, Scale, ParseInteger, TrimLeftChar, Reads, MantissaOf, IntegerPartOf, FractionPartOf, ExponentTextOf;
    if value == "" {
      return Err(EmptyNumber);
    }
    var negative, rest := false, value;
    if value[0] == '-' {
      negative := true;
      rest := value[1..];
    }

    var parsed := ParseInteger(ExponentTextOf(rest));
    if parsed.None? {
      return Err(InvalidExponent(ExponentTextOf(rest)));
    }
    var exponent := parsed.value;
    var integerPart, fractionPart := IntegerPartOf(MantissaOf(rest)), FractionPartOf(MantissaOf(rest));
    SplitReads(value, negative, rest, exponent);
    var digits := integerPart + fractionPart;
    TrimmedReads(value, negative, digits, exponent - |fractionPart|);
    digits := TrimLeftChar(digits, '0');
    if digits == "" {
      return Ok(Decimal(false, "0", 0));
    }
    exponent := exponent - |fractionPart|;
    while |digits| > 1 && digits[|digits| - 1] == '0'
      invariant digits != "" && digits[0] != '0'
      invariant Reads(value, negative, digits, exponent)
    {
      DropTrailingZero(value, negative, digits, exponent);
      digits := digits[..|digits| - 1];
      exponent := exponent + 1;
    }
    r := Ok(Decimal(negative, digits, exponent));
  }

  // ---------------------------------------------------------------------
  // compareNumberStrings
  // ---------------------------------------------------------------------

  /**
   * The sign of the difference of the exact values, for any two JSON numbers,
   * except that zero and a positive number below one come out the wrong way round.
   */
  method CompareNumberStrings(left: string, right: string) returns (r: Result<int, ParseError>)
    ensures r.Ok? <==> Parseable(left) && Parseable(right)
    ensures forall l: JsonNumber, n: JsonNumber {:trigger l.Print(), n.Print()} ::
              l.Valid() && n.Valid() && l.Print() == left && n.Print() == right ==>
                r == Ok(Compared(l.Value(), n.Value()))
  {
    hide NatOf, Scale, IndexAny, ParseInteger;
    GrammaticalParses(left);
    GrammaticalParses(right);
    var lr := ParseDecimalNumber(left);
    if lr.Err? {
      return Err(lr.error);
    }
    var rr := ParseDecimalNumber(right);
    if rr.Err? {
      return Err(rr.error);
    }
    var l, n := lr.value, rr.value;
    if Normal(l) && Normal(n) {
      ZeroMagnitude(l);
      ZeroMagnitude(n);
    }
    if l.digits == "0" && n.digits == "0" {
      return Ok(0);
    }
    if l.negative != n.negative {
      if l.negative {
        return Ok(-1);
      }
      return Ok(1);
    }
    var comparison := CompareDecimalMagnitude(l, n);
    if l.negative {
      comparison := -comparison;
    }
    r := Ok(comparison);
  }

  const ZERO := JsonNumber(false, "0", "", NoExponent)
  const HALF := JsonNumber(false, "0", "5", NoExponent)

  lemma ZeroAndHalf()
    ensures ZERO.Valid() && ZERO.Print() == "0" && ZERO.Value() == 0.0
    ensures HALF.Valid() && HALF.Print() == "0.5" && HALF.Value() == 0.5
  {
    NatOfDigit('0');
    NatOfDigit('5');
    assert "0" == ['0'] && "5" == ['5'];
    ScaleZero();
    ScaleStep(-1);
  }

  /** A concrete member of the misordered family: zero comes out above one half. */
  method ZeroRanksAboveHalf() returns (comparison: Result<int, ParseError>)
    ensures comparison == Ok(1)
    ensures ZERO.Value() < HALF.Value()
  {
    ZeroAndHalf();
    assert ZERO.Print() == "0" && HALF.Print() == "0.5";
    comparison := CompareNumberStrings("0", "0.5");
  }
}
