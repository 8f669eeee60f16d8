/** Text a managed README may hold, its size in bytes, and its lines. */
module ManagedText {
  import opened Text

  const MAX_TEXT_BYTES := 0x10_0000

  /** A byte string is UTF-8 text, or is not UTF-8 at all. */
  datatype Content = Utf8(text: string) | NotUtf8(more: nat)

  function Size(c: Content): nat {
    match c
    case Utf8(text) => ByteLength(text)
    case NotUtf8(more) => more + 1
  }

  // ---------------------------------------------------------------------
  // Bytes.
  // ---------------------------------------------------------------------

  /** The length of a character's UTF-8 encoding. */
  function Width(c: char): (w: nat)
    ensures 1 <= w <= 4
  {
    if c < '\U{80}' then 1 else if c < '\U{800}' then 2 else if c < '\U{10000}' then 3 else 4
  }

  function ByteLength(s: string): (n: nat)
    ensures n >= |s|
  {
    if s == "" then 0 else ByteLength(s[..|s| - 1]) + Width(s[|s| - 1])
  }

  lemma {:induction false} ByteLengthAppend(a: string, b: string)
    ensures ByteLength(a + b) == ByteLength(a) + ByteLength(b)
  {
    if b == "" {
      assert a + b == a;
    } else {
      ByteLengthAppend(a, b[..|b| - 1]);
      assert (a + b)[..|a + b| - 1] == a + b[..|b| - 1];
    }
  }

  lemma {:induction false} ByteLengthAscii(s: string)
    requires forall i :: 0 <= i < |s| ==> s[i] < '\U{80}'
    ensures ByteLength(s) == |s|
  {
    if s != "" {
      ByteLengthAscii(s[..|s| - 1]);
    }
  }

  // ---------------------------------------------------------------------
  // Characters.
  // ---------------------------------------------------------------------

  /** unicode.IsControl. */
  predicate IsControl(c: char) {
    c < ' ' || '\U{7F}' <= c < '\U{A0}'
  }

  /** Category Cf, the format characters. */
  predicate IsFormat(c: char) {
    || c == '\U{AD}' || '\U{600}' <= c <= '\U{605}' || c == '\U{61C}' || c == '\U{6DD}' || c == '\U{70F}'
    || '\U{890}' <= c <= '\U{891}' || c == '\U{8E2}' || c == '\U{180E}' || '\U{200B}' <= c <= '\U{200F}'
    || '\U{202A}' <= c <= '\U{202E}' || '\U{2060}' <= c <= '\U{2064}' || '\U{2066}' <= c <= '\U{206F}'
    || c == '\U{FEFF}' || '\U{FFF9}' <= c <= '\U{FFFB}' || c == '\U{110BD}' || c == '\U{110CD}'
    || '\U{13430}' <= c <= '\U{1343F}' || '\U{1BCA0}' <= c <= '\U{1BCA3}' || '\U{1D173}' <= c <= '\U{1D17A}'
    || c == '\U{E0001}' || '\U{E0020}' <= c <= '\U{E007F}'
  }

  predicate UnsafeDisplay(c: char) {
    IsFormat(c) || c == '\U{2028}' || c == '\U{2029}'
  }

  predicate SafeChar(c: char) {
    (!IsControl(c) || c == '\n' || c == '\t') && !UnsafeDisplay(c)
  }

  /** validateManagedText on UTF-8 text; without carriage returns it is validateNormalizedText. */
  predicate Managed(s: string, allowCR: bool) {
    forall i :: 0 <= i < |s| ==> SafeChar(s[i]) || (allowCR && s[i] == '\r')
  }

  predicate ManagedContent(c: Content, allowCR: bool) {
    c.Utf8? && Managed(c.text, allowCR)
  }

  // ---------------------------------------------------------------------
  // Lines.
  // ---------------------------------------------------------------------

  /** The lines of a text, each with its line feed. */
  function Lines(s: string): (lines: seq<string>)
    ensures forall i :: 0 <= i < |lines| ==> lines[i] != ""
  {
    if s == "" then []
    else
      var at := IndexAny(s, "\n");
      if at < 0 then [s] else [s[..at + 1]] + Lines(s[at + 1..])
  }

  function Join(lines: seq<string>): string {
    if lines == [] then "" else lines[0] + Join(lines[1..])
  }

  lemma {:induction false} JoinLines(s: string)
    ensures Join(Lines(s)) == s
  {
    if s != "" {
      var at := IndexAny(s, "\n");
      if at < 0 {
        assert Join([s]) == s + Join([]);
      } else {
        JoinLines(s[at + 1..]);
        assert Lines(s)[1..] == Lines(s[at + 1..]);
        assert s == s[..at + 1] + s[at + 1..];
      }
    }
  }

  lemma {:induction false} JoinAppend(a: seq<string>, b: seq<string>)
    ensures Join(a + b) == Join(a) + Join(b)
  {
    if a == [] {
      assert a + b == b;
    } else {
      JoinAppend(a[1..], b);
      assert (a + b)[1..] == a[1..] + b;
      assert a[0] + (Join(a[1..]) + Join(b)) == (a[0] + Join(a[1..])) + Join(b);
    }
  }

  /** A line without inner line feeds comes off the front whole. */
  lemma FirstLine(body: string, rest: string)
    requires '\n' !in body
    ensures Lines(body + "\n" + rest) == [body + "\n"] + Lines(rest)
  {
    var s := body + "\n" + rest;
    assert s == body + ("\n" + rest);
    IndexAnyAfter(body, "\n" + rest, "\n");
    assert IndexAny("\n" + rest, "\n") == 0;
    assert s[..|body| + 1] == body + "\n" && s[|body| + 1..] == rest;
  }

  lemma {:induction false} LineCount(s: string)
    ensures |Lines(s)| <= |s|
  {
    if s != "" {
      var at := IndexAny(s, "\n");
      if at >= 0 {
        LineCount(s[at + 1..]);
      }
    }
  }

  lemma {:induction false} ManagedAppend(a: string, b: string, allowCR: bool)
    ensures Managed(a + b, allowCR) <==> Managed(a, allowCR) && Managed(b, allowCR)
  {
    if Managed(a + b, allowCR) {
      forall i | 0 <= i < |a| ensures SafeChar(a[i]) || (allowCR && a[i] == '\r') {
        assert (a + b)[i] == a[i];
      }
      forall i | 0 <= i < |b| ensures SafeChar(b[i]) || (allowCR && b[i] == '\r') {
        assert (a + b)[|a| + i] == b[i];
      }
    }
  }

  lemma {:induction false} ManagedLines(lines: seq<string>, allowCR: bool)
    ensures Managed(Join(lines), allowCR) <==> forall i :: 0 <= i < |lines| ==> Managed(lines[i], allowCR)
  {
    if lines != [] {
      ManagedAppend(lines[0], Join(lines[1..]), allowCR);
      ManagedLines(lines[1..], allowCR);
    }
  }
}
