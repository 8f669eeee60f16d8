/** Single-pass rendering of a README template. */
module RenderReadme {
  import opened Text
  import opened ManagedText

  datatype RenderData = RenderData(
    repoId: string, repoUid: string, canonicalProvider: string, canonicalPath: string, values: map<string, string>)

  datatype RenderError =
    | TemplateTooLarge
    | NotText
    | UnsafeText
    | InvalidKey
    | UnexpectedClose
    | UnclosedToken
    | MalformedToken
    | UnknownToken
    | OutputTooLarge

  // ---------------------------------------------------------------------
  // Line endings.
  // ---------------------------------------------------------------------

  /** strings.ReplaceAll(s, "\r\n", "\n"). */
  function ReplaceCRLF(s: string): string {
    if s == "" then ""
    else if |s| >= 2 && s[0] == '\r' && s[1] == '\n' then "\n" + ReplaceCRLF(s[2..])
    else [s[0]] + ReplaceCRLF(s[1..])
  }

  /** strings.ReplaceAll(s, "\r", "\n"). */
  function ReplaceCR(s: string): string {
    if s == "" then "" else [if s[0] == '\r' then '\n' else s[0]] + ReplaceCR(s[1..])
  }

  function Normalize(s: string): string {
    ReplaceCR(ReplaceCRLF(s))
  }

  lemma {:induction false} ReplaceCRLFKeepsManaged(s: string)
    requires Managed(s, true)
    ensures Managed(ReplaceCRLF(s), true) && ByteLength(ReplaceCRLF(s)) <= ByteLength(s)
  {
    if s != "" {
      if |s| >= 2 && s[0] == '\r' && s[1] == '\n' {
        ReplaceCRLFKeepsManaged(s[2..]);
        ManagedAppend("\n", ReplaceCRLF(s[2..]), true);
        ByteLengthAppend("\n", ReplaceCRLF(s[2..]));
        ByteLengthAppend("\r\n", s[2..]);
        ByteLengthAscii("\n");
        ByteLengthAscii("\r\n");
        assert s == "\r\n" + s[2..];
      } else {
        ReplaceCRLFKeepsManaged(s[1..]);
        ManagedAppend([s[0]], ReplaceCRLF(s[1..]), true);
        ByteLengthAppend([s[0]], ReplaceCRLF(s[1..]));
        ByteLengthAppend([s[0]], s[1..]);
        assert s == [s[0]] + s[1..];
        ManagedAppend([s[0]], s[1..], true);
      }
    }
  }

  lemma {:induction false} ReplaceCRGivesLF(s: string)
    requires Managed(s, true)
    ensures Managed(ReplaceCR(s), false) && ByteLength(ReplaceCR(s)) == ByteLength(s)
  {
    if s != "" {
      var c := if s[0] == '\r' then '\n' else s[0];
      assert s == [s[0]] + s[1..];
      ManagedAppend([s[0]], s[1..], true);
      assert [s[0]][0] == s[0];
      ReplaceCRGivesLF(s[1..]);
      ManagedAppend([c], ReplaceCR(s[1..]), false);
      ByteLengthAppend([c], ReplaceCR(s[1..]));
      ByteLengthAppend([s[0]], s[1..]);
      ByteLengthOne(c);
      ByteLengthOne(s[0]);
    }
  }

  lemma ByteLengthOne(c: char)
    ensures ByteLength([c]) == Width(c)
  {
    assert [c][..0] == "";
  }

  /** Normalising leaves managed text with LF endings only, no longer than before. */
  lemma NormalizeGivesLF(s: string)
    requires Managed(s, true)
    ensures Managed(Normalize(s), false) && ByteLength(Normalize(s)) <= ByteLength(s)
  {
    ReplaceCRLFKeepsManaged(s);
    ReplaceCRGivesLF(ReplaceCRLF(s));
  }

  /** The two characters of one line break are not torn apart. */
  predicate BetweenBreaks(a: string, b: string) {
    !(a != "" && b != "" && a[|a| - 1] == '\r' && b[0] == '\n')
  }

  predicate StartsWithBreak(s: string) {
    |s| >= 2 && s[0] == '\r' && s[1] == '\n'
  }

  lemma {:induction false} FirstReplaced(s: string)
    ensures StartsWithBreak(s) ==> ReplaceCRLF(s) == "\n" + ReplaceCRLF(s[2..])
    ensures s != "" && !StartsWithBreak(s) ==> ReplaceCRLF(s) == [s[0]] + ReplaceCRLF(s[1..])
    ensures ReplaceCRLF("") == ""
  {
  }

  lemma {:induction false} ReplaceCRLFAppend(a: string, b: string)
    requires BetweenBreaks(a, b)
    ensures ReplaceCRLF(a + b) == ReplaceCRLF(a) + ReplaceCRLF(b)
    decreases |a|
  {
    hide ReplaceCRLF;
    FirstReplaced(a);
    FirstReplaced(a + b);
    if a == "" {
      assert a + b == b;
    } else if StartsWithBreak(a) {
      assert (a + b)[2..] == a[2..] + b;
      ReplaceCRLFAppend(a[2..], b);
    } else {
      assert (a + b)[1..] == a[1..] + b;
      ReplaceCRLFAppend(a[1..], b);
    }
  }

  lemma {:induction false} ReplaceCRAppend(a: string, b: string)
    ensures ReplaceCR(a + b) == ReplaceCR(a) + ReplaceCR(b)
  {
    if a == "" {
      assert a + b == b;
    } else {
      ReplaceCRAppend(a[1..], b);
      assert (a + b)[1..] == a[1..] + b;
    }
  }

  lemma NormalizeAppend(a: string, b: string)
    requires BetweenBreaks(a, b)
    ensures Normalize(a + b) == Normalize(a) + Normalize(b)
  {
    ReplaceCRLFAppend(a, b);
    ReplaceCRAppend(ReplaceCRLF(a), ReplaceCRLF(b));
  }

  lemma {:induction false} NormalizePlain(s: string)
    requires '\r' !in s
    ensures Normalize(s) == s
  {
    if s != "" {
      NormalizePlain(s[1..]);
    }
  }

  lemma BreakIsLF()
    ensures Normalize("\r\n") == "\n" && Normalize("\r") == "\n"
  {
    assert "\r\n"[2..] == "" && "\r"[1..] == "" && "\n"[1..] == "";
    assert ReplaceCRLF("\r\n") == "\n" + "" == "\n";
    assert ReplaceCRLF("\r") == "\r" + "" == "\r";
  }

  /**
   * Normalising turns each CRLF, and each CR on its own, into one line feed where it stands, and changes nothing else.
   */
  lemma EachBreakIsKept(a: string, b: string)
    ensures '\r' !in a ==> Normalize(a) == a
    ensures (a == "" || a[|a| - 1] != '\r') ==> Normalize(a + "\r\n" + b) == Normalize(a) + "\n" + Normalize(b)
    ensures (b == "" || b[0] != '\n') ==> Normalize(a + "\r" + b) == Normalize(a) + "\n" + Normalize(b)
  {
    hide Normalize;
    if '\r' !in a {
      NormalizePlain(a);
    }
    BreakIsLF();
    NormalizeAppend(a + "\r\n", b);
    if a == "" || a[|a| - 1] != '\r' {
      NormalizeAppend(a, "\r\n");
    }
    NormalizeAppend(a, "\r");
    if b == "" || b[0] != '\n' {
      NormalizeAppend(a + "\r", b);
    }
  }

  /** normalizeText. */
  function NormalizeText(s: string): Option<string> {
    if Managed(s, true) then Some(Normalize(s)) else None
  }

  // ---------------------------------------------------------------------
  // Replacements.
  // ---------------------------------------------------------------------

  /** ^[a-z][a-z0-9._-]*$ */
  predicate ValidKey(key: string) {
    && key != "" && 'a' <= key[0] <= 'z'
    && forall i :: 1 <= i < |key| ==> 'a' <= key[i] <= 'z' || IsDigit(key[i]) || key[i] in "._-"
  }

  predicate ValidData(data: RenderData) {
    && Managed(data.repoId, true) && Managed(data.repoUid, true)
    && Managed(data.canonicalProvider, true) && Managed(data.canonicalPath, true)
    && (forall key :: key in data.values ==> ValidKey(key) && Managed(data.values[key], true))
  }

  function NonEmpty(s: string): Option<string> {
    if s == "" then None else Some(s)
  }

  /** What a token stands for: a non-empty built-in, or a configured value, normalised. */
  function Lookup(data: RenderData, token: string): Option<string> {
    if token == "repo.id" then NonEmpty(Normalize(data.repoId))
    else if token == "repo.uid" then NonEmpty(Normalize(data.repoUid))
    else if token == "canonical.provider" then NonEmpty(Normalize(data.canonicalProvider))
    else if token == "canonical.path" then NonEmpty(Normalize(data.canonicalPath))
    else if "value." <= token && token[6..] in data.values then Some(Normalize(data.values[token[6..]]))
    else None
  }

  // Which tokens stand for something.

  lemma LookupBuiltins(data: RenderData)
    ensures Lookup(data, "repo.id") == NonEmpty(Normalize(data.repoId))
    ensures Lookup(data, "repo.uid") == NonEmpty(Normalize(data.repoUid))
    ensures Lookup(data, "canonical.provider") == NonEmpty(Normalize(data.canonicalProvider))
    ensures Lookup(data, "canonical.path") == NonEmpty(Normalize(data.canonicalPath))
    ensures forall s :: s != "" ==> NonEmpty("") == None && NonEmpty(s) == Some(s)
  {
    hide Normalize;
    assert "repo.uid"[5] != "repo.id"[5];
    assert "canonical.provider"[0] != "repo.id"[0];
    assert "canonical.path"[11] != "canonical.provider"[11];
  }

  lemma LookupValue(data: RenderData, key: string)
    requires key in data.values
    ensures Lookup(data, "value." + key) == Some(Normalize(data.values[key]))
  {
    hide Normalize;
    var token := "value." + key;
    assert token[0] == 'v' && token[6..] == key;
    assert "repo.id"[0] == 'r' && "repo.uid"[0] == 'r' && "canonical.provider"[0] == 'c' && "canonical.path"[0] == 'c';
  }

  lemma LookupDomain(data: RenderData, token: string)
    requires Lookup(data, token).Some?
    ensures token in BUILTINS || exists key :: key in data.values && token == "value." + key
  {
    hide Normalize;
    if token !in BUILTINS {
      assert token == "value." + token[6..];
    }
  }

  ghost const BUILTINS: iset<string> := iset{"repo.id", "repo.uid", "canonical.provider", "canonical.path"}

  method AddBuiltin(values: map<string, string>, data: RenderData, token: string, raw: string)
    returns (r: Option<map<string, string>>)
    requires token in BUILTINS && Lookup(data, token) == NonEmpty(Normalize(raw))
    requires forall t :: t in values ==> Lookup(data, t) == Some(values[t])
    ensures r.Some? <==> Managed(raw, true)
    ensures r.Some? ==> forall t :: t in r.value ==> Lookup(data, t) == Some(r.value[t])
    ensures r.Some? ==> values.Keys <= r.value.Keys && (Lookup(data, token).Some? ==> token in r.value)
  {
    hide Managed, Normalize, Lookup;
    var normalized := NormalizeText(raw);
    if normalized.None? {
      return None;
    }
    if normalized.value != "" {
      return Some(values[token := normalized.value]);
    }
    return Some(values);
  }

  method RenderReplacements(data: RenderData) returns (r: Result<map<string, string>, RenderError>)
    ensures r.Ok? <==> ValidData(data)
    ensures r.Ok? ==> forall token ::
              (token in r.value <==> Lookup(data, token).Some?)
                && (token in r.value ==> Lookup(data, token) == Some(r.value[token]))
  {
    hide Managed, Normalize, ValidKey, Lookup, NonEmpty;
    LookupBuiltins(data);
    var id := AddBuiltin(map[], data, "repo.id", data.repoId);
    if id.None? {
      return Err(UnsafeText);
    }
    var uid := AddBuiltin(id.value, data, "repo.uid", data.repoUid);
    if uid.None? {
      return Err(UnsafeText);
    }
    var provider := AddBuiltin(uid.value, data, "canonical.provider", data.canonicalProvider);
    if provider.None? {
      return Err(UnsafeText);
    }
    var path := AddBuiltin(provider.value, data, "canonical.path", data.canonicalPath);
    if path.None? {
      return Err(UnsafeText);
    }
    r := AddValues(path.value, data);
    if r.Ok? {
      forall token | Lookup(data, token).Some? ensures token in r.value {
        LookupDomain(data, token);
      }
    }
  }

  method AddValues(builtins: map<string, string>, data: RenderData)
    returns (r: Result<map<string, string>, RenderError>)
    requires forall t :: t in builtins ==> Lookup(data, t) == Some(builtins[t])
    ensures r.Ok? <==> forall key :: key in data.values ==> ValidKey(key) && Managed(data.values[key], true)
    ensures r.Ok? ==> forall t :: t in r.value ==> Lookup(data, t) == Some(r.value[t])
    ensures r.Ok? ==> builtins.Keys <= r.value.Keys && forall key :: key in data.values ==> "value." + key in r.value
  {
    hide Managed, Normalize, ValidKey, Lookup;
    var values := builtins;
    var pending := data.values.Keys;
    while pending != {}
      invariant pending <= data.values.Keys
      invariant forall key :: key in data.values.Keys - pending ==>
                  ValidKey(key) && Managed(data.values[key], true) && "value." + key in values
      invariant forall t :: t in values ==> Lookup(data, t) == Some(values[t])
      invariant builtins.Keys <= values.Keys
      decreases pending
    {
      var key :| key in pending;
      if !ValidKey(key) {
        return Err(InvalidKey);
      }
      var normalized := NormalizeText(data.values[key]);
      if normalized.None? {
        return Err(UnsafeText);
      }
      LookupValue(data, key);
      values := values["value." + key := normalized.value];
      pending := pending - {key};
    }
    r := Ok(values);
  }

  // ---------------------------------------------------------------------
  // The template grammar.
  // ---------------------------------------------------------------------

  datatype Segment = Literal(text: string) | Token(name: string)

  predicate PairAt(s: string, c: char, i: int) {
    0 <= i < |s| - 1 && s[i] == c && s[i + 1] == c
  }

  predicate HasPair(s: string, c: char) {
    exists i :: 0 <= i < |s| && PairAt(s, c, i)
  }

  predicate ValidToken(name: string) {
    name != "" && forall i :: 0 <= i < |name| ==> name[i] !in "{}\r\n\t "
  }

  /** A literal holds no double brace, and does not run into a following one. */
  predicate ValidLiteral(text: string, last: bool) {
    && text != "" && !HasPair(text, '{') && !HasPair(text, '}')
    && (!last ==> text[|text| - 1] != '{')
  }

  /** Literals are maximal: two never touch. */
  predicate ValidSegments(segments: seq<Segment>) {
    segments != [] ==>
      && ValidSegments(segments[1..])
      && match segments[0]
         case Token(name) => ValidToken(name)
         case Literal(text) => ValidLiteral(text, |segments| == 1) && (|segments| > 1 ==> segments[1].Token?)
  }

  function PrintSegment(s: Segment): string {
    match s
    case Literal(text) => text
    case Token(name) => "{{" + name + "}}"
  }

  function Print(segments: seq<Segment>): string {
    if segments == [] then "" else PrintSegment(segments[0]) + Print(segments[1..])
  }

  predicate Resolved(segments: seq<Segment>, data: RenderData) {
    forall i :: 0 <= i < |segments| && segments[i].Token? ==> Lookup(data, segments[i].name).Some?
  }

  function ExpandSegment(s: Segment, data: RenderData): string {
    match s
    case Literal(text) => text
    case Token(name) => if Lookup(data, name).Some? then Lookup(data, name).value else ""
  }

  /** Each token replaced once; what is inserted is never read again. */
  function Expand(segments: seq<Segment>, data: RenderData): string {
    if segments == [] then "" else ExpandSegment(segments[0], data) + Expand(segments[1..], data)
  }

  // ---------------------------------------------------------------------
  // Scanning.
  // ---------------------------------------------------------------------

  /** strings.Index of a doubled character, or -1. */
  function IndexPair(s: string, c: char): (at: int)
    ensures -1 <= at < |s| - 1 || at == -1
  {
    if |s| < 2 then -1
    else if s[0] == c && s[1] == c then 0
    else
      var rest := IndexPair(s[1..], c);
      if rest < 0 then -1 else rest + 1
  }

  lemma {:induction false} IndexPairFirst(s: string, c: char)
    ensures var at := IndexPair(s, c);
            && (at >= 0 ==> PairAt(s, c, at))
            && (forall i :: PairAt(s, c, i) ==> 0 <= at <= i)
  {
    if |s| >= 2 && !(s[0] == c && s[1] == c) {
      IndexPairFirst(s[1..], c);
      forall i | PairAt(s, c, i) ensures PairAt(s[1..], c, i - 1) {
      }
    }
  }

  lemma IndexPairIs(s: string, c: char, k: nat)
    requires PairAt(s, c, k) && forall i :: 0 <= i < k ==> !PairAt(s, c, i)
    ensures IndexPair(s, c) == k
  {
    IndexPairFirst(s, c);
  }

  lemma NoPair(s: string, c: char)
    ensures IndexPair(s, c) < 0 <==> !HasPair(s, c)
  {
    IndexPairFirst(s, c);
  }

  /** One turn of the loop: the end, an error, a last literal, or a literal and a token. */
  datatype Step = Done | Bad | Last | Next(literal: string, token: string, rest: string)

  function ScanStep(s: string): (step: Step)
    ensures step.Next? ==> |step.rest| < |s|
  {
    if s == "" then Done
    else
      var open, close := IndexPair(s, '{'), IndexPair(s, '}');
      if close >= 0 && (open < 0 || close < open) then Bad
      else if open < 0 then Last
      else
        var afterOpen := s[open + 2..];
        var end := IndexPair(afterOpen, '}');
        if end < 0 || !ValidToken(afterOpen[..end]) then Bad
        else Next(s[..open], afterOpen[..end], afterOpen[end + 2..])
  }

  function Front(literal: string, token: string): seq<Segment> {
    (if literal == "" then [] else [Literal(literal)]) + [Token(token)]
  }

  /** The segments of a template, read in one pass. */
  function Scan(s: string): Option<seq<Segment>>
    decreases |s|
  {
    match ScanStep(s)
    case Done => Some([])
    case Bad => None
    case Last => Some([Literal(s)])
    case Next(literal, token, rest) =>
      var tail := Scan(rest);
      if tail.None? then None else Some(Front(literal, token) + tail.value)
  }

  lemma StepIsSound(s: string)
    ensures match ScanStep(s)
            case Done => s == ""
            case Bad => true
            case Last => ValidLiteral(s, true)
            case Next(literal, token, rest) =>
              && (literal == "" || ValidLiteral(literal, false)) && ValidToken(token)
              && s == literal + "{{" + token + "}}" + rest
  {
    hide ValidToken, ValidLiteral;
    if ScanStep(s).Next? {
      var open := IndexPair(s, '{');
      IndexPairFirst(s, '{');
      IndexPairFirst(s[open + 2..], '}');
      TokenParts(s, open, IndexPair(s[open + 2..], '}'));
      if open > 0 {
        LiteralBeforeToken(s, open);
      }
    } else if ScanStep(s).Last? {
      LastIsLiteral(s);
    }
  }

  lemma LastIsLiteral(s: string)
    requires ScanStep(s) == Last
    ensures ValidLiteral(s, true)
  {
    NoPair(s, '{');
    NoPair(s, '}');
  }

  lemma TokenParts(s: string, open: nat, end: nat)
    requires PairAt(s, '{', open) && PairAt(s[open + 2..], '}', end)
    ensures var after := s[open + 2..];
            s == s[..open] + "{{" + after[..end] + "}}" + after[end + 2..]
  {
    var after := s[open + 2..];
    assert after == after[..end] + "}}" + after[end + 2..];
    assert s == s[..open] + "{{" + after;
  }

  lemma LiteralBeforeToken(s: string, open: nat)
    requires 0 < open && open == IndexPair(s, '{')
    requires IndexPair(s, '}') < 0 || open <= IndexPair(s, '}')
    ensures ValidLiteral(s[..open], false)
  {
    IndexPairFirst(s, '{');
    IndexPairFirst(s, '}');
    var text := s[..open];
    forall c, i | (c == '{' || c == '}') && PairAt(text, c, i) ensures PairAt(s, c, i) {
    }
    assert !PairAt(s, '{', open - 1);
  }

  /** A literal and a token in front of a sentence give a sentence. */
  lemma FrontIsValid(literal: string, token: string, rest: seq<Segment>)
    requires literal == "" || ValidLiteral(literal, false)
    requires ValidToken(token) && ValidSegments(rest)
    ensures ValidSegments(Front(literal, token) + rest)
    ensures Print(Front(literal, token) + rest) == literal + "{{" + token + "}}" + Print(rest)
  {
    hide ValidLiteral, ValidToken;
    var one := [Token(token)] + rest;
    assert one[1..] == rest;
    if literal != "" {
      var two := [Literal(literal)] + one;
      assert two[1..] == one;
      assert Front(literal, token) + rest == two;
      assert literal + ("{{" + token + "}}" + Print(rest)) == literal + "{{" + token + "}}" + Print(rest);
    } else {
      assert Front(literal, token) + rest == one;
    }
  }

  /** What the scan accepts is a sentence of the grammar that prints back to the template. */
  lemma {:induction false} ScanIsSound(s: string)
    ensures Scan(s).Some? ==> ValidSegments(Scan(s).value) && Print(Scan(s).value) == s
    decreases |s|
  {
    hide ScanStep, ValidLiteral, ValidToken, Front;
    StepIsSound(s);
    match ScanStep(s)
    case Done =>
    case Bad =>
    case Last =>
      assert Print([Literal(s)]) == s + Print([]);
    case Next(literal, token, rest) =>
      ScanIsSound(rest);
      if Scan(rest).Some? {
        FrontIsValid(literal, token, Scan(rest).value);
      }
  }

  /** One step of the scan over a printed literal and token. */
  lemma StepOfPrinted(literal: string, token: string, rest: string)
    requires literal == "" || ValidLiteral(literal, false)
    requires ValidToken(token)
    ensures ScanStep(literal + "{{" + token + "}}" + rest) == Next(literal, token, rest)
  {
    var s := literal + "{{" + token + "}}" + rest;
    var after := token + "}}" + rest;
    assert s == literal + ("{{" + after);
    PairsOfPrinted(literal, token, rest);
    assert s[|literal| + 2..] == after && s[..|literal|] == literal;
    assert after[..|token|] == token && after[|token| + 2..] == rest;
  }

  lemma PairsOfPrinted(literal: string, token: string, rest: string)
    requires literal == "" || ValidLiteral(literal, false)
    requires ValidToken(token)
    ensures IndexPair(literal + "{{" + token + "}}" + rest, '{') == |literal|
    ensures IndexPair(literal + "{{" + token + "}}" + rest, '}') == |literal| + 2 + |token|
    ensures IndexPair(token + "}}" + rest, '}') == |token|
  {
    var s, after := literal + "{{" + token + "}}" + rest, token + "}}" + rest;
    assert forall i :: 0 <= i < |literal| ==> s[i] == literal[i];
    assert s[|literal|] == '{' && s[|literal| + 1] == '{';
    forall i | 0 <= i < |literal| ensures !PairAt(s, '{', i) && !PairAt(s, '}', i) {
      assert !PairAt(literal, '{', i) && !PairAt(literal, '}', i);
    }
    assert forall i :: 0 <= i < |token| ==> after[i] == token[i] && token[i] != '}';
    assert forall i :: |literal| + 2 <= i < |literal| + 2 + |token| ==> s[i] == token[i - |literal| - 2] && s[i] != '}';
    assert s[|literal| + 2 + |token|] == '}' && s[|literal| + 3 + |token|] == '}';
    IndexPairIs(s, '{', |literal|);
    IndexPairIs(s, '}', |literal| + 2 + |token|);
    IndexPairIs(after, '}', |token|);
  }

  /** Every sentence of the grammar is read back as itself, so a template has at most one reading. */
  lemma {:induction false} ScanIsComplete(segments: seq<Segment>)
    requires ValidSegments(segments)
    ensures Scan(Print(segments)) == Some(segments)
    decreases |segments|
  {
    hide ScanStep, ValidToken, ValidLiteral;
    if segments == [] {
      EmptyStep();
    } else if segments[0].Token? {
      var name, rest := segments[0].name, segments[1..];
      ScanIsComplete(rest);
      ScanFront("", name, rest);
      assert segments == Front("", name) + rest;
    } else if |segments| == 1 {
      LastStep(segments[0].text);
      assert Print(segments) == segments[0].text + Print([]) == segments[0].text;
      assert segments == [Literal(segments[0].text)];
    } else {
      var text, name, rest := segments[0].text, segments[1].name, segments[2..];
      assert segments[1..][1..] == rest && segments[1..][0] == segments[1];
      LiteralIsNotEmpty(text);
      ScanIsComplete(rest);
      ScanFront(text, name, rest);
      assert segments == Front(text, name) + rest;
    }
  }

  lemma LiteralIsNotEmpty(text: string)
    ensures ValidLiteral(text, false) ==> text != ""
  {
  }

  lemma ScanFront(literal: string, token: string, rest: seq<Segment>)
    requires literal == "" || ValidLiteral(literal, false)
    requires ValidToken(token) && ValidSegments(rest) && Scan(Print(rest)) == Some(rest)
    ensures Scan(Print(Front(literal, token) + rest)) == Some(Front(literal, token) + rest)
  {
    hide ScanStep, ValidToken, ValidLiteral, Print, ValidSegments, Front;
    FrontIsValid(literal, token, rest);
    StepOfPrinted(literal, token, Print(rest));
  }

  lemma EmptyStep()
    ensures ScanStep("") == Done
  {
  }

  lemma LastStep(text: string)
    requires ValidLiteral(text, true)
    ensures ScanStep(text) == Last
  {
    NoPair(text, '{');
    NoPair(text, '}');
  }

  // ---------------------------------------------------------------------
  // RenderREADME.
  // ---------------------------------------------------------------------

  /** The rendering of a normalised template: its one reading, expanded. */
  ghost predicate Rendered(template: string, data: RenderData, segments: seq<Segment>, output: string) {
    && ValidSegments(segments) && Print(segments) == template
    && Resolved(segments, data)
    && output == Expand(segments, data)
    && ByteLength(output) <= MAX_TEXT_BYTES
  }

  ghost predicate Renders(template: string, data: RenderData, output: string) {
    exists segments :: Rendered(template, data, segments, output)
  }

  lemma ReadingIsScan(template: string, segments: seq<Segment>)
    ensures ValidSegments(segments) && Print(segments) == template <==> Scan(template) == Some(segments)
  {
    hide Print, ValidSegments, Scan;
    ScanIsSound(template);
    if ValidSegments(segments) {
      ScanIsComplete(segments);
    }
  }

  lemma {:induction false} ExpandAppend(a: seq<Segment>, b: seq<Segment>, data: RenderData)
    ensures Expand(a + b, data) == Expand(a, data) + Expand(b, data)
  {
    hide ExpandSegment;
    if a == [] {
      assert a + b == b;
    } else {
      ExpandAppend(a[1..], b, data);
      assert (a + b)[1..] == a[1..] + b;
    }
  }

  lemma FrontExpands(literal: string, token: string, data: RenderData)
    ensures Expand(Front(literal, token), data) == literal + ExpandSegment(Token(token), data)
    ensures Resolved(Front(literal, token), data) <==> Lookup(data, token).Some?
  {
    hide Lookup;
    var front := Front(literal, token);
    assert Expand([Token(token)], data) == ExpandSegment(Token(token), data) + Expand([], data);
    if literal != "" {
      assert front[1..] == [Token(token)];
    }
    assert front[|front| - 1] == Token(token);
  }

  lemma ResolvedAppend(a: seq<Segment>, b: seq<Segment>, data: RenderData)
    ensures Resolved(a + b, data) <==> Resolved(a, data) && Resolved(b, data)
  {
    hide Lookup;
    if Resolved(a + b, data) {
      forall i | 0 <= i < |a| && a[i].Token? ensures Lookup(data, a[i].name).Some? {
        assert (a + b)[i] == a[i];
      }
      forall i | 0 <= i < |b| && b[i].Token? ensures Lookup(data, b[i].name).Some? {
        assert (a + b)[|a| + i] == b[i];
      }
    }
  }

  /** The output can still be completed exactly when the whole template renders. */
  ghost predicate Completes(data: RenderData, done: string, rest: string, output: string) {
    && Scan(rest).Some? && Resolved(Scan(rest).value, data)
    && output == done + Expand(Scan(rest).value, data)
    && ByteLength(output) <= MAX_TEXT_BYTES
  }

  lemma StartOfRendering(template: string, data: RenderData)
    ensures forall output :: Renders(template, data, output) <==> Completes(data, "", template, output)
  {
    hide Scan, ValidSegments, Print, Resolved, Expand, ByteLength;
    forall output ensures Renders(template, data, output) <==> Completes(data, "", template, output) {
      if Renders(template, data, output) {
        var segments :| Rendered(template, data, segments, output);
        ReadingIsScan(template, segments);
      }
      if Completes(data, "", template, output) {
        ReadingIsScan(template, Scan(template).value);
        assert Rendered(template, data, Scan(template).value, output);
      }
    }
  }

  /** Writing a literal and a token's text keeps the completions; failing to do so leaves none. */
  lemma StepOfRendering(data: RenderData, done: string, remaining: string)
    requires ScanStep(remaining).Next?
    ensures var step := ScanStep(remaining);
            var next := done + step.literal + ExpandSegment(Token(step.token), data);
            forall output :: Completes(data, done, remaining, output) <==>
              Lookup(data, step.token).Some? && Completes(data, next, step.rest, output)
  {
    hide ScanStep, Resolved, Expand, ExpandSegment, Lookup, ByteLength, Front;
    var step := ScanStep(remaining);
    if Scan(step.rest).Some? {
      var front, tail := Front(step.literal, step.token), Scan(step.rest).value;
      FrontExpands(step.literal, step.token, data);
      ExpandAppend(front, tail, data);
      ResolvedAppend(front, tail, data);
      var text := ExpandSegment(Token(step.token), data);
      assert done + (step.literal + text + Expand(tail, data)) == done + step.literal + text + Expand(tail, data);
    }
  }

  /** A template without tokens renders to itself. */
  lemma PlainTemplate(text: string, data: RenderData)
    requires !HasPair(text, '{') && !HasPair(text, '}')
    ensures forall output :: Renders(text, data, output) <==> output == text && ByteLength(text) <= MAX_TEXT_BYTES
  {
    hide Renders, Completes, HasPair, ByteLength, ScanStep;
    StartOfRendering(text, data);
    if text == "" {
      EmptyStep();
    } else {
      LastStep(text);
    }
    EndOfRendering(data, "", text);
    assert "" + text == text;
  }

  /**
   * A token is replaced where it stands, by what it stands for; what comes before it is kept, and what comes after it
   * is rendered on its own.
   */
  lemma TokenIsReplaced(literal: string, token: string, rest: string, data: RenderData)
    requires (literal == "" || ValidLiteral(literal, false)) && ValidToken(token)
    ensures forall output ::
              Renders(literal + "{{" + token + "}}" + rest, data, output) <==>
                && Lookup(data, token).Some? && ByteLength(output) <= MAX_TEXT_BYTES
                && exists tail :: Renders(rest, data, tail) && output == literal + Lookup(data, token).value + tail
  {
    hide Renders, ScanStep, Lookup, ByteLength, Scan, Resolved, Expand, ValidLiteral, ValidToken;
    var whole := literal + "{{" + token + "}}" + rest;
    StartOfRendering(whole, data);
    StartOfRendering(rest, data);
    StepOfPrinted(literal, token, rest);
    StepOfRendering(data, "", whole);
    if Lookup(data, token).Some? {
      var done := literal + Lookup(data, token).value;
      assert "" + literal + ExpandSegment(Token(token), data) == done;
      TailOfRendering(data, done, rest);
    }
  }

  lemma TailOfRendering(data: RenderData, done: string, rest: string)
    ensures forall output :: Completes(data, done, rest, output) <==>
              && ByteLength(output) <= MAX_TEXT_BYTES
              && exists tail :: Completes(data, "", rest, tail) && output == done + tail
  {
    hide Scan, Resolved, Expand, ByteLength;
    if Scan(rest).Some? {
      var tail := Expand(Scan(rest).value, data);
      ByteLengthAppend(done, tail);
      assert "" + tail == tail;
      if ByteLength(done + tail) <= MAX_TEXT_BYTES && Resolved(Scan(rest).value, data) {
        assert Completes(data, "", rest, tail);
      }
    }
  }

  lemma OverflowIsFinal(data: RenderData, done: string, rest: string)
    requires ByteLength(done) > MAX_TEXT_BYTES
    ensures forall output :: !Completes(data, done, rest, output)
  {
    hide Scan, Resolved, Expand;
    if Scan(rest).Some? {
      ByteLengthAppend(done, Expand(Scan(rest).value, data));
    }
  }

  lemma EndOfRendering(data: RenderData, done: string, remaining: string)
    ensures ScanStep(remaining).Done? ==> forall output :: Completes(data, done, remaining, output) <==>
              output == done && ByteLength(done) <= MAX_TEXT_BYTES
    ensures ScanStep(remaining).Last? ==>
              forall output :: Completes(data, done, remaining, output) <==>
                output == done + remaining && ByteLength(done + remaining) <= MAX_TEXT_BYTES
    ensures ScanStep(remaining).Bad? ==> forall output :: !Completes(data, done, remaining, output)
  {
    hide ScanStep, ByteLength, Lookup;
    if ScanStep(remaining).Last? {
      assert Expand([Literal(remaining)], data) == remaining + Expand([], data) == remaining;
    } else if ScanStep(remaining).Done? {
      assert done + Expand([], data) == done;
    }
  }

  /** Every piece the loop writes is managed text with LF endings. */
  lemma StepIsManaged(data: RenderData, remaining: string)
    requires ValidData(data) && Managed(remaining, false) && ScanStep(remaining).Next?
    ensures var step := ScanStep(remaining);
            && Managed(step.literal, false) && Managed(step.rest, false)
            && (Lookup(data, step.token).Some? ==> Managed(Lookup(data, step.token).value, false))
  {
    hide ScanStep, Managed, Normalize, ValidKey;
    var step := ScanStep(remaining);
    StepIsSound(remaining);
    ManagedAppend(step.literal + "{{" + step.token + "}}", step.rest, false);
    ManagedAppend(step.literal, "{{" + step.token + "}}", false);
    assert step.literal + "{{" + step.token + "}}" == step.literal + ("{{" + step.token + "}}");
    LookupIsManaged(data, step.token);
  }

  lemma LookupIsManaged(data: RenderData, token: string)
    requires ValidData(data)
    ensures Lookup(data, token).Some? ==> Managed(Lookup(data, token).value, false)
  {
    hide Managed, Normalize, ValidKey;
    NormalizeGivesLF(data.repoId);
    NormalizeGivesLF(data.repoUid);
    NormalizeGivesLF(data.canonicalProvider);
    NormalizeGivesLF(data.canonicalPath);
    if "value." <= token && token[6..] in data.values {
      NormalizeGivesLF(data.values[token[6..]]);
    }
  }

  lemma {:induction false} ExpansionIsManaged(segments: seq<Segment>, data: RenderData)
    requires ValidData(data) && Managed(Print(segments), false)
    ensures Managed(Expand(segments, data), false)
  {
    hide Managed, Lookup, ValidData;
    NothingWritten();
    if segments != [] {
      var rest := segments[1..];
      ManagedAppend(PrintSegment(segments[0]), Print(rest), false);
      ExpansionIsManaged(rest, data);
      ManagedAppend(ExpandSegment(segments[0], data), Expand(rest, data), false);
      if segments[0].Token? {
        LookupIsManaged(data, segments[0].name);
      }
    }
  }

  /** A rendering is safe text with LF endings and fits its bound. */
  lemma RenderedIsManaged(template: Content, data: RenderData, output: string)
    requires Renderable(template, data) && Renders(Normalize(template.text), data, output)
    ensures Managed(output, false) && ByteLength(output) <= MAX_TEXT_BYTES
  {
    hide Managed, Normalize, ValidData, ByteLength, ValidSegments;
    var segments :| Rendered(Normalize(template.text), data, segments, output);
    NormalizeGivesLF(template.text);
    ExpansionIsManaged(segments, data);
  }

  predicate Renderable(template: Content, data: RenderData) {
    Size(template) <= MAX_TEXT_BYTES && ManagedContent(template, true) && ValidData(data)
  }

  /** Succeeds exactly when the normalised template has a reading that resolves and fits; writes its expansion. */
  method RenderREADME(template: Content, data: RenderData) returns (r: Result<string, RenderError>)
    ensures r.Ok? <==> Renderable(template, data) && exists output :: Renders(Normalize(template.text), data, output)
    ensures r.Ok? ==> forall output :: Renders(Normalize(template.text), data, output) <==> output == r.value
    ensures r.Ok? ==> Managed(r.value, false) && ByteLength(r.value) <= MAX_TEXT_BYTES
    ensures Size(template) > MAX_TEXT_BYTES ==> r == Err(TemplateTooLarge)
    ensures Size(template) <= MAX_TEXT_BYTES && template.NotUtf8? ==> r == Err(NotText)
    ensures Size(template) <= MAX_TEXT_BYTES && template.Utf8? && !Managed(template.text, true) ==> r == Err(UnsafeText)
    ensures Renderable(template, data) && !HasPair(Normalize(template.text), '{')
            && !HasPair(Normalize(template.text), '}') ==>
              r == Ok(Normalize(template.text))
  {
    hide Managed, Normalize, ValidData, Renders, Completes, Lookup, ByteLength, HasPair;
    if Size(template) > MAX_TEXT_BYTES {
      return Err(TemplateTooLarge);
    }
    if template.NotUtf8? {
      return Err(NotText);
    }
    var templateText := NormalizeText(template.text);
    if templateText.None? {
      return Err(UnsafeText);
    }
    var replacements := RenderReplacements(data);
    if replacements.Err? {
      return Err(replacements.error);
    }
    NormalizeGivesLF(template.text);
    r := RenderNormalized(templateText.value, data, replacements.value);
    if !HasPair(templateText.value, '{') && !HasPair(templateText.value, '}') {
      PlainTemplate(templateText.value, data);
      SizeOfTemplate(template);
      assert Renders(templateText.value, data, templateText.value);
    }
  }

  lemma SizeOfTemplate(template: Content)
    requires template.Utf8?
    ensures Size(template) == ByteLength(template.text)
  {
  }

  method RenderNormalized(template: string, data: RenderData, replacements: map<string, string>)
    returns (r: Result<string, RenderError>)
    requires Managed(template, false) && ValidData(data)
    requires forall token ::
              (token in replacements <==> Lookup(data, token).Some?)
                && (token in replacements ==> Lookup(data, token) == Some(replacements[token]))
    ensures r.Ok? <==> exists output :: Renders(template, data, output)
    ensures r.Ok? ==> forall output :: Renders(template, data, output) <==> output == r.value
    ensures r.Ok? ==> Managed(r.value, false) && ByteLength(r.value) <= MAX_TEXT_BYTES
  {
    hide Managed, ValidData, Renders, Completes, Lookup, ByteLength, ScanStep;
    var output, remaining := "", template;
    StartOfRendering(template, data);
    NothingWritten();
    while remaining != ""
      invariant forall out :: Renders(template, data, out) <==> Completes(data, output, remaining, out)
      invariant Managed(output, false) && Managed(remaining, false) && ByteLength(output) <= MAX_TEXT_BYTES
      decreases |remaining|
    {
      EndOfRendering(data, output, remaining);
      StepByIndex(remaining);
      var open := IndexPair(remaining, '{');
      var close := IndexPair(remaining, '}');
      if close >= 0 && (open < 0 || close < open) {
        return Err(UnexpectedClose);
      }
      if open < 0 {
        var last := WriteBounded(output, remaining);
        if last.None? {
          return Err(OutputTooLarge);
        }
        ManagedAppend(output, remaining, false);
        output, remaining := last.value, "";
        EmptyStep();
        EndOfRendering(data, output, "");
        break;
      }
      var written := WriteToken(output, remaining, open, data, replacements);
      if written.Err? {
        return Err(written.error);
      }
      output, remaining := written.value.0, written.value.1;
    }
    EmptyStep();
    EndOfRendering(data, output, remaining);
    assert Renders(template, data, output);
    return Ok(output);
  }

  /** One literal and one token: the new output and what remains, with the same completions. */
  method WriteToken(output: string, remaining: string, open: nat, data: RenderData, replacements: map<string, string>)
    returns (r: Result<(string, string), RenderError>)
    requires remaining != "" && open == IndexPair(remaining, '{')
    requires IndexPair(remaining, '}') < 0 || open <= IndexPair(remaining, '}')
    requires Managed(output, false) && Managed(remaining, false) && ValidData(data)
    requires forall token ::
              (token in replacements <==> Lookup(data, token).Some?)
                && (token in replacements ==> Lookup(data, token) == Some(replacements[token]))
    ensures r.Err? ==> forall out :: !Completes(data, output, remaining, out)
    ensures r.Ok? ==>
              && (forall out :: Completes(data, output, remaining, out) <==> Completes(data, r.value.0, r.value.1, out))
              && |r.value.1| < |remaining|
              && Managed(r.value.0, false) && Managed(r.value.1, false) && ByteLength(r.value.0) <= MAX_TEXT_BYTES
  {
    hide Managed, ValidData, Completes, Lookup, ByteLength, ScanStep, ValidToken;
    StepByIndex(remaining);
    EndOfRendering(data, output, remaining);
    var literal := remaining[..open];
    var written := WriteBounded(output, literal);
    if written.None? {
      assert output + literal + "" == output + literal;
      NoRoom(data, output, remaining, literal, "");
      return Err(OutputTooLarge);
    }

    var afterOpen := remaining[open + 2..];
    var end := IndexPair(afterOpen, '}');
    if end < 0 {
      return Err(UnclosedToken);
    }
    var token := afterOpen[..end];
    if !ValidToken(token) {
      return Err(MalformedToken);
    }
    StepOfRendering(data, output, remaining);
    if token !in replacements {
      return Err(UnknownToken);
    }
    var replacement := replacements[token];
    var replaced := WriteBounded(written.value, replacement);
    if replaced.None? {
      NoRoom(data, output, remaining, literal, replacement);
      return Err(OutputTooLarge);
    }
    StepIsManaged(data, remaining);
    ManagedAppend(output, literal, false);
    ManagedAppend(written.value, replacement, false);
    return Ok((replaced.value, afterOpen[end + 2..]));
  }

  /** writeBounded. */
  method WriteBounded(output: string, value: string) returns (r: Option<string>)
    ensures r == if ByteLength(output + value) > MAX_TEXT_BYTES then None else Some(output + value)
  {
    ByteLengthAppend(output, value);
    if ByteLength(output) + ByteLength(value) > MAX_TEXT_BYTES {
      return None;
    }
    return Some(output + value);
  }

  /** What the loop's searches find is the step of the scan. */
  lemma StepByIndex(s: string)
    requires s != ""
    ensures var open, close := IndexPair(s, '{'), IndexPair(s, '}');
            if close >= 0 && (open < 0 || close < open) then ScanStep(s).Bad?
            else if open < 0 then ScanStep(s).Last?
            else
              var afterOpen := s[open + 2..];
              var end := IndexPair(afterOpen, '}');
              ScanStep(s) == if end < 0 || !ValidToken(afterOpen[..end]) then Bad
                             else Next(s[..open], afterOpen[..end], afterOpen[end + 2..])
  {
    hide ValidToken;
  }

  /** Once a literal, or a literal and its replacement, do not fit, no rendering fits. */
  lemma NoRoom(data: RenderData, output: string, remaining: string, literal: string, replacement: string)
    requires ByteLength(output + literal + replacement) > MAX_TEXT_BYTES
    requires ScanStep(remaining).Bad? || (ScanStep(remaining).Next? && ScanStep(remaining).literal == literal)
    requires replacement ==
               "" || (ScanStep(remaining).Next? && replacement == ExpandSegment(Token(ScanStep(remaining).token), data))
    ensures forall out :: !Completes(data, output, remaining, out)
  {
    hide Completes, ScanStep, ByteLength, ExpandSegment;
    EndOfRendering(data, output, remaining);
    var step := ScanStep(remaining);
    if step.Next? {
      var text := ExpandSegment(Token(step.token), data);
      StepOfRendering(data, output, remaining);
      ByteLengthAppend(output + literal, text);
      ByteLengthAppend(output + literal, replacement);
      EmptyLength();
      OverflowIsFinal(data, output + literal + text, step.rest);
    }
  }

  lemma EmptyLength()
    ensures ByteLength("") == 0
  {
  }

  lemma NothingWritten()
    ensures Managed("", false) && ByteLength("") == 0
  {
  }
}
