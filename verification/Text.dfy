/** Strings as the Go standard library treats them, over Unicode scalar values. */
module Text {

  datatype Option<+T> = None | Some(value: T)

  datatype Result<+T, +E> = Ok(value: T) | Err(error: E)

  predicate IsDigit(c: char) {
    '0' <= c <= '9'
  }

  predicate AllDigits(s: string) {
    forall i :: 0 <= i < |s| ==> IsDigit(s[i])
  }

  function DigitValue(c: char): (d: nat)
    requires IsDigit(c)
    ensures d < 10
  {
    (c - '0') as int
  }

  /** The number a digit string denotes; the empty string denotes zero. */
  function NatOf(s: string): nat
    requires AllDigits(s)
  {
    if s == "" then 0 else NatOf(s[..|s| - 1]) * 10 + DigitValue(s[|s| - 1])
  }

  /** big.Int.SetString in base ten: an optional sign and at least one digit. */
  function ParseInteger(text: string): Option<int> {
    if text != "" && text[0] == '-' then
      if text[1..] != "" && AllDigits(text[1..]) then Some(-(NatOf(text[1..]) as int)) else None
    else
      var body := if text != "" && text[0] == '+' then text[1..] else text;
      if body != "" && AllDigits(body) then Some(NatOf(body)) else None
  }

  function Repeat(c: char, n: nat): (s: string)
    ensures |s| == n && forall i :: 0 <= i < n ==> s[i] == c
  {
    seq(n, _ => c)
  }

  /** strings.IndexAny: the first position holding one of the characters, or -1. */
  function IndexAny(s: string, chars: string): (at: int)
    ensures -1 <= at < |s|
  {
    if s == "" then -1
    else if s[0] in chars then 0
    else
      var rest := IndexAny(s[1..], chars);
      if rest < 0 then -1 else rest + 1
  }

  lemma {:induction false} IndexAnyFirst(s: string, chars: string)
    ensures var at := IndexAny(s, chars);
            && (at >= 0 ==> s[at] in chars)
            && forall i :: 0 <= i < (if at >= 0 then at else |s|) ==> s[i] !in chars
  {
    if s != "" && s[0] !in chars {
      IndexAnyFirst(s[1..], chars);
    }
  }

  /** The first hit of `a + b` is the first of `b` when `a` has none. */
  lemma {:induction false} IndexAnyAfter(a: string, b: string, chars: string)
    requires forall i :: 0 <= i < |a| ==> a[i] !in chars
    ensures IndexAny(a + b, chars) == if IndexAny(b, chars) >= 0 then |a| + IndexAny(b, chars) else -1
  {
    if a == "" {
      assert a + b == b;
    } else {
      IndexAnyAfter(a[1..], b, chars);
      assert (a + b)[1..] == a[1..] + b;
    }
  }

  /** strings.TrimLeft with one cut character. */
  function TrimLeftChar(s: string, c: char): (t: string)
    ensures t == "" || t[0] != c
  {
    if s != "" && s[0] == c then TrimLeftChar(s[1..], c) else s
  }

  /** unicode.IsSpace. */
  predicate IsSpace(c: char) {
    || '\U{9}' <= c <= '\U{D}' || c == ' ' || c == '\U{85}' || c == '\U{A0}' || c == '\U{1680}'
    || '\U{2000}' <= c <= '\U{200A}' || c == '\U{2028}' || c == '\U{2029}' || c == '\U{202F}'
    || c == '\U{205F}' || c == '\U{3000}'
  }

  /** strings.TrimSpace(s) == "". */
  predicate Blank(s: string) {
    forall i :: 0 <= i < |s| ==> IsSpace(s[i])
  }

  /** strings.Compare. */
  function CompareStrings(a: string, b: string): int {
    if a == "" then (if b == "" then 0 else -1)
    else if b == "" then 1
    else if a[0] < b[0] then -1
    else if b[0] < a[0] then 1
    else CompareStrings(a[1..], b[1..])
  }

  lemma {:induction false} CompareStringsOrder(a: string, b: string, c: string)
    ensures CompareStrings(a, b) == 0 <==> a == b
    ensures CompareStrings(a, b) == -CompareStrings(b, a)
    ensures CompareStrings(a, b) < 0 && CompareStrings(b, c) < 0 ==> CompareStrings(a, c) < 0
  {
    if a != "" && b != "" {
      CompareStringsOrder(a[1..], b[1..], if c == "" then "" else c[1..]);
      assert a == [a[0]] + a[1..] && b == [b[0]] + b[1..];
    }
  }

  // ---------------------------------------------------------------------
  // Decimal numerals.
  // ---------------------------------------------------------------------

  function DigitChar(d: nat): (c: char)
    requires d < 10
    ensures IsDigit(c) && DigitValue(c) == d
  {
    '0' + d as char
  }

  /** fmt's %d of a natural number. */
  function Numeral(n: nat): (s: string)
    ensures s != "" && AllDigits(s)
  {
    if n < 10 then [DigitChar(n)] else Numeral(n / 10) + [DigitChar(n % 10)]
  }

  lemma {:induction false} NumeralDenotes(n: nat)
    ensures NatOf(Numeral(n)) == n
  {
    var s := Numeral(n);
    if n >= 10 {
      NumeralDenotes(n / 10);
      assert s[..|s| - 1] == Numeral(n / 10);
    } else {
      assert s[..0] == "";
    }
  }

  /** The digits a text starts with. */
  function LeadingDigits(s: string): (d: string)
    ensures |d| <= |s| && AllDigits(d) && d == s[..|d|]
  {
    if s == "" || !IsDigit(s[0]) then "" else [s[0]] + LeadingDigits(s[1..])
  }

  lemma {:induction false} LeadingDigitsOf(d: string, rest: string)
    requires AllDigits(d) && (rest == "" || !IsDigit(rest[0]))
    ensures LeadingDigits(d + rest) == d
  {
    if d == "" {
      assert d + rest == rest;
    } else {
      LeadingDigitsOf(d[1..], rest);
      assert (d + rest)[1..] == d[1..] + rest;
    }
  }

  lemma {:induction false} NumeralLength(n: nat, digits: nat, bound: nat)
    requires digits >= 1 && bound == TenTo(digits) && n < bound
    ensures |Numeral(n)| <= digits
  {
    if n >= 10 {
      NumeralLength(n / 10, digits - 1, TenTo(digits - 1));
    }
  }

  function TenTo(k: nat): nat {
    if k == 0 then 1 else 10 * TenTo(k - 1)
  }

  // ---------------------------------------------------------------------
  // White space.
  // ---------------------------------------------------------------------

  function TrimLeftSpace(s: string): (t: string)
    ensures t == "" || !IsSpace(t[0])
  {
    if s != "" && IsSpace(s[0]) then TrimLeftSpace(s[1..]) else s
  }

  function TrimRightSpace(s: string): (t: string)
    ensures t == "" || !IsSpace(t[|t| - 1])
    ensures t <= s
  {
    if s != "" && IsSpace(s[|s| - 1]) then TrimRightSpace(s[..|s| - 1]) else s
  }

  /** strings.TrimSpace. */
  function TrimSpace(s: string): string {
    TrimRightSpace(TrimLeftSpace(s))
  }

  lemma BlankIsEmptyTrimmed(s: string)
    ensures Blank(s) <==> TrimSpace(s) == ""
  {
    BlankSides(s);
    BlankSides(TrimLeftSpace(s));
  }

  lemma {:induction false} BlankSides(s: string)
    ensures Blank(s) <==> TrimLeftSpace(s) == ""
    ensures Blank(s) <==> TrimRightSpace(s) == ""
    decreases |s|
  {
    if s != "" {
      BlankSides(s[1..]);
      BlankSides(s[..|s| - 1]);
    }
  }

  predicate Trimmed(s: string) {
    s != "" ==> !IsSpace(s[0]) && !IsSpace(s[|s| - 1])
  }

  lemma TrimSpaceIsTrimmed(s: string)
    ensures Trimmed(TrimSpace(s))
  {
    var t := TrimLeftSpace(s);
    var u := TrimRightSpace(t);
    if u != "" {
      assert u[0] == t[0];
    }
  }

  lemma TrimmedStays(s: string)
    requires Trimmed(s)
    ensures TrimSpace(s) == s
  {
  }

  /** The word a text starts with. */
  function Word(s: string): (w: string)
    ensures w <= s && (s != "" && !IsSpace(s[0]) ==> w != "")
  {
    if s == "" || IsSpace(s[0]) then "" else [s[0]] + Word(s[1..])
  }

  /** strings.Fields. */
  function Fields(s: string): seq<string>
    decreases |s|
  {
    if s == "" then []
    else if IsSpace(s[0]) then Fields(s[1..])
    else [Word(s)] + Fields(s[|Word(s)|..])
  }

  lemma {:induction false} WordOf(w: string, rest: string)
    requires forall i :: 0 <= i < |w| ==> !IsSpace(w[i])
    requires rest == "" || IsSpace(rest[0])
    ensures Word(w + rest) == w
  {
    if w == "" {
      assert w + rest == rest;
    } else {
      WordOf(w[1..], rest);
      assert (w + rest)[1..] == w[1..] + rest;
    }
  }

  lemma FieldOf(w: string, space: char, rest: string)
    requires w != "" && forall i :: 0 <= i < |w| ==> !IsSpace(w[i])
    requires IsSpace(space)
    ensures Fields(w + [space] + rest) == [w] + Fields(rest)
  {
    var s := w + [space] + rest;
    assert s == w + ([space] + rest);
    WordOf(w, [space] + rest);
    assert s[|w|..] == [space] + rest && ([space] + rest)[1..] == rest;
  }

  // ---------------------------------------------------------------------
  // Substrings, segments, letter case.
  // ---------------------------------------------------------------------

  /** strings.Contains. */
  predicate Contains(s: string, part: string) {
    part <= s || (s != "" && Contains(s[1..], part))
  }

  predicate HasSuffix(s: string, suffix: string) {
    |suffix| <= |s| && s[|s| - |suffix|..] == suffix
  }

  predicate ContainsAny(s: string, chars: string) {
    exists i :: 0 <= i < |s| && s[i] in chars
  }

  /** strings.Split with a one-character separator. */
  function Split(s: string, separator: char): (parts: seq<string>)
    ensures parts != []
    decreases |s|
  {
    var at := IndexAny(s, [separator]);
    if at < 0 then [s] else [s[..at]] + Split(s[at + 1..], separator)
  }

  /** unicode.ToLower, as far as it can produce an ASCII letter. */
  function LowerChar(c: char): char {
    if 'A' <= c <= 'Z' then c + ('a' - 'A') else if c == '\U{212A}' then 'k' else if c == '\U{130}' then 'i' else c
  }

  function ToLower(s: string): (t: string)
    ensures |t| == |s|
  {
    seq(|s|, i requires 0 <= i < |s| => LowerChar(s[i]))
  }

  /** strings.Trim with one cut character. */
  function TrimChar(s: string, c: char): string
    decreases |s|
  {
    if s != "" && s[0] == c then TrimChar(s[1..], c)
    else if s != "" && s[|s| - 1] == c then TrimChar(s[..|s| - 1], c)
    else s
  }
}
