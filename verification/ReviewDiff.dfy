/** The review diff of a managed README, and the patch that reads it back. */
module ReviewDiff {
  import opened Text
  import opened ManagedText

  const MAX_DIFF_BYTES := 4 * MAX_TEXT_BYTES + 64 * 1024
  const CONTEXT := 3
  const LABELS := "--- a/README.md\n+++ b/README.md\n"

  datatype DiffError = AbsentWithContent | InputTooLarge | InvalidText | DiffTooLarge | InvalidDiff

  // ---------------------------------------------------------------------
  // Quoting.
  // ---------------------------------------------------------------------

  /** JSON string escaping of the characters a managed text may hold. */
  function EscapeChar(c: char): (e: string)
    ensures 1 <= |e| <= 2
  {
    if c == '"' then "\\\"" else if c == '\\' then "\\\\" else if c == '\n' then "\\n"
    else if c == '\r' then "\\r" else if c == '\t' then "\\t" else [c]
  }

  function Escape(s: string): string {
    if s == "" then "" else EscapeChar(s[0]) + Escape(s[1..])
  }

  function Quote(s: string): string {
    "\"" + Escape(s) + "\""
  }

  function UnescapeChar(c: char): Option<char> {
    if c == '"' then Some('"') else if c == '\\' then Some('\\') else if c == 'n' then Some('\n')
    else if c == 'r' then Some('\r') else if c == 't' then Some('\t') else None
  }

  function Prepend(c: Option<char>, s: Option<string>): Option<string> {
    if c.Some? && s.Some? then Some([c.value] + s.value) else None
  }

  function Unescape(s: string): Option<string> {
    if s == "" then Some("")
    else if s[0] == '"' then None
    else if s[0] != '\\' then Prepend(Some(s[0]), Unescape(s[1..]))
    else if |s| < 2 then None
    else Prepend(UnescapeChar(s[1]), Unescape(s[2..]))
  }

  function Unquote(s: string): Option<string> {
    if |s| >= 2 && s[0] == '"' && s[|s| - 1] == '"' then Unescape(s[1..|s| - 1]) else None
  }

  lemma {:induction false} UnescapeEscape(s: string)
    ensures Unescape(Escape(s)) == Some(s)
  {
    if s != "" {
      UnescapeEscape(s[1..]);
      var e := EscapeChar(s[0]);
      assert Escape(s)[|e|..] == Escape(s[1..]);
      assert Escape(s)[..|e|] == e;
      assert s == [s[0]] + s[1..];
    }
  }

  lemma UnquoteQuote(s: string)
    ensures Unquote(Quote(s)) == Some(s)
  {
    UnescapeEscape(s);
    assert Quote(s)[1..|Quote(s)| - 1] == Escape(s);
  }

  /** Escaping at most doubles the bytes, and leaves only safe characters other than line feeds. */
  lemma {:induction false} EscapeIsSafe(s: string)
    requires Managed(s, true)
    ensures ByteLength(Escape(s)) <= 2 * ByteLength(s)
    ensures Managed(Escape(s), false) && '\n' !in Escape(s)
  {
    if s != "" {
      assert s == [s[0]] + s[1..];
      ManagedAppend([s[0]], s[1..], true);
      ByteLengthAppend([s[0]], s[1..]);
      ByteLengthAppend(EscapeChar(s[0]), Escape(s[1..]));
      EscapeIsSafe(s[1..]);
      EscapedChar(s[0]);
      ManagedAppend(EscapeChar(s[0]), Escape(s[1..]), false);
    }
  }

  lemma EscapedChar(c: char)
    requires Managed([c], true)
    ensures ByteLength(EscapeChar(c)) <= 2 * ByteLength([c])
    ensures Managed(EscapeChar(c), false) && '\n' !in EscapeChar(c)
  {
    assert [c][0] == c;
    if |EscapeChar(c)| == 2 {
      ByteLengthAscii(EscapeChar(c));
    }
  }

  // ---------------------------------------------------------------------
  // Common lines.
  // ---------------------------------------------------------------------

  /** The lines under review: an absent file has none, an empty one has one empty line. */
  function ReviewLines(present: bool, value: string): seq<string> {
    if !present then [] else if value == "" then [""] else Lines(value)
  }

  lemma JoinReviewLines(present: bool, value: string)
    requires !present ==> value == ""
    ensures Join(ReviewLines(present, value)) == value
  {
    JoinLines(value);
    assert Join([""]) == "" + Join([]);
  }

  /** The number of leading lines two lists share, from the n-th on. */
  function PrefixFrom(left: seq<string>, right: seq<string>, n: nat): (m: nat)
    requires n <= |left| && n <= |right|
    ensures n <= m <= |left| && m <= |right|
    decreases |left| - n
  {
    if n < |left| && n < |right| && left[n] == right[n] then PrefixFrom(left, right, n + 1) else n
  }

  function CommonPrefix(left: seq<string>, right: seq<string>): (n: nat)
    ensures n <= |left| && n <= |right|
  {
    PrefixFrom(left, right, 0)
  }

  /** The number of trailing lines two lists share, from the n-th last on. */
  function SuffixFrom(left: seq<string>, right: seq<string>, n: nat): (m: nat)
    requires n <= |left| && n <= |right|
    ensures n <= m <= |left| && m <= |right|
    decreases |left| - n
  {
    if n < |left| && n < |right| && left[|left| - 1 - n] == right[|right| - 1 - n]
    then SuffixFrom(left, right, n + 1) else n
  }

  function CommonSuffix(left: seq<string>, right: seq<string>): (n: nat)
    ensures n <= |left| && n <= |right|
  {
    SuffixFrom(left, right, 0)
  }

  lemma {:induction false} PrefixIsShared(left: seq<string>, right: seq<string>, n: nat)
    requires n <= |left| && n <= |right| && left[..n] == right[..n]
    ensures var m := PrefixFrom(left, right, n);
            left[..m] == right[..m] && (m < |left| && m < |right| ==> left[m] != right[m])
    decreases |left| - n
  {
    if n < |left| && n < |right| && left[n] == right[n] {
      assert left[..n + 1] == left[..n] + [left[n]];
      assert right[..n + 1] == right[..n] + [right[n]];
      PrefixIsShared(left, right, n + 1);
    }
  }

  lemma {:induction false} SuffixIsShared(left: seq<string>, right: seq<string>, n: nat, m: nat)
    requires n <= |left| && n <= |right| && left[|left| - n..] == right[|right| - n..]
    requires m == SuffixFrom(left, right, n)
    ensures m <= |left| && m <= |right| && left[|left| - m..] == right[|right| - m..]
    ensures m < |left| && m < |right| ==> left[|left| - 1 - m] != right[|right| - 1 - m]
    decreases |left| - n
  {
    if n < |left| && n < |right| && left[|left| - 1 - n] == right[|right| - 1 - n] {
      OneMoreShared(left, right, n);
      SuffixIsShared(left, right, n + 1, m);
    }
  }

  lemma OneMoreShared(left: seq<string>, right: seq<string>, n: nat)
    requires n < |left| && n < |right| && left[|left| - n..] == right[|right| - n..]
    requires left[|left| - 1 - n] == right[|right| - 1 - n]
    ensures left[|left| - (n + 1)..] == right[|right| - (n + 1)..]
  {
    assert left[|left| - (n + 1)..] == [left[|left| - 1 - n]] + left[|left| - n..];
    assert right[|right| - (n + 1)..] == [right[|right| - 1 - n]] + right[|right| - n..];
  }

  method SplitReviewLines(present: bool, value: string) returns (lines: seq<string>)
    ensures lines == ReviewLines(present, value)
  {
    if !present {
      return [];
    }
    if value == "" {
      return [""];
    }
    lines := [];
    var rest := value;
    while rest != ""
      invariant Lines(value) == lines + Lines(rest)
      decreases |rest|
    {
      var index := IndexAny(rest, "\n");
      if index < 0 {
        lines := lines + [rest];
        break;
      }
      var line, tail := rest[..index + 1], rest[index + 1..];
      assert lines + ([line] + Lines(tail)) == (lines + [line]) + Lines(tail);
      lines := lines + [line];
      rest := tail;
    }
  }

  method CommonPrefixLength(left: seq<string>, right: seq<string>) returns (n: nat)
    ensures n <= |left| && n <= |right| && left[..n] == right[..n]
    ensures n < |left| && n < |right| ==> left[n] != right[n]
    ensures n == CommonPrefix(left, right)
  {
    PrefixIsShared(left, right, 0);
    var limit := if |left| < |right| then |left| else |right|;
    n := 0;
    while n < limit && left[n] == right[n]
      invariant n <= limit && PrefixFrom(left, right, n) == CommonPrefix(left, right)
    {
      n := n + 1;
    }
  }

  method CommonSuffixLength(left: seq<string>, right: seq<string>) returns (n: nat)
    ensures n <= |left| && n <= |right| && left[|left| - n..] == right[|right| - n..]
    ensures n < |left| && n < |right| ==> left[|left| - 1 - n] != right[|right| - 1 - n]
    ensures n == CommonSuffix(left, right)
  {
    SuffixIsShared(left, right, 0, CommonSuffix(left, right));
    var limit := if |left| < |right| then |left| else |right|;
    n := 0;
    while n < limit && left[|left| - 1 - n] == right[|right| - 1 - n]
      invariant n <= limit && SuffixFrom(left, right, n) == CommonSuffix(left, right)
    {
      n := n + 1;
    }
  }

  // ---------------------------------------------------------------------
  // The hunk and its text.
  // ---------------------------------------------------------------------

  /** Starts are zero-based; an empty block is left out. */
  datatype Hunk = Hunk(
    oldStart: nat, oldCount: nat, newStart: nat, newCount: nat,
    before: seq<string>, removed: Option<string>, added: Option<string>, after: seq<string>)

  function UnifiedStart(zeroBased: nat, count: nat): nat {
    if count == 0 then zeroBased else zeroBased + 1
  }

  function HeaderText(wasStart: nat, wasCount: nat, nowStart: nat, nowCount: nat): string {
    "@@ -" + Numeral(UnifiedStart(wasStart, wasCount)) + "," + Numeral(wasCount)
    + " +" + Numeral(UnifiedStart(nowStart, nowCount)) + "," + Numeral(nowCount) + " @@\n"
  }

  function Header(h: Hunk): string {
    HeaderText(h.oldStart, h.oldCount, h.newStart, h.newCount)
  }

  function ReviewLine(mark: char, line: string): string {
    [mark] + Quote(line) + "\n"
  }

  function MarkedLines(mark: char, lines: seq<string>): (r: seq<string>)
    ensures |r| == |lines| && forall i :: 0 <= i < |lines| ==> r[i] == ReviewLine(mark, lines[i])
  {
    seq(|lines|, i requires 0 <= i < |lines| => ReviewLine(mark, lines[i]))
  }

  function Block(mark: char, text: Option<string>): seq<string> {
    match text
    case None => []
    case Some(t) => [ReviewLine(mark, t)]
  }

  function Body(h: Hunk): seq<string> {
    MarkedLines(' ', h.before) + Block('-', h.removed) + Block('+', h.added) + MarkedLines(' ', h.after)
  }

  function Render(h: Hunk): string {
    LABELS + Header(h) + Join(Body(h))
  }

  function BlockText(lines: seq<string>): Option<string> {
    if lines == [] then None else Some(Join(lines))
  }

  function Least(a: int, b: int): int {
    if a < b then a else b
  }

  function Greatest(a: int, b: int): int {
    if a > b then a else b
  }

  /** The changed lines lie between `from` and `wasTo` on the old side, `from` and `nowTo` on the new. */
  datatype Change = Change(from: nat, wasTo: nat, nowTo: nat)

  function Changed(was: seq<string>, now: seq<string>): (c: Change)
    ensures c.from <= c.wasTo <= |was| && c.from <= c.nowTo <= |now|
  {
    var prefix := CommonPrefix(was, now);
    var suffix := CommonSuffix(was[prefix..], now[prefix..]);
    Change(prefix, |was| - suffix, |now| - suffix)
  }

  /** What surrounds the change is shared, and the change cannot be narrowed. */
  lemma ChangeIsTight(was: seq<string>, now: seq<string>)
    ensures var c := Changed(was, now);
            && was[..c.from] == now[..c.from] && was[c.wasTo..] == now[c.nowTo..]
            && (c.from < c.wasTo && c.from < c.nowTo ==>
                  was[c.from] != now[c.from] && was[c.wasTo - 1] != now[c.nowTo - 1])
  {
    hide PrefixFrom, SuffixFrom;
    var prefix := CommonPrefix(was, now);
    var l, r := was[prefix..], now[prefix..];
    var suffix := CommonSuffix(l, r);
    PrefixIsShared(was, now, 0);
    SuffixIsShared(l, r, 0, suffix);
    TailOfTail(was, prefix, suffix);
    TailOfTail(now, prefix, suffix);
  }

  lemma TailOfTail<T>(s: seq<T>, from: nat, n: nat)
    requires from <= |s| && n <= |s| - from
    ensures s[from..][|s| - from - n..] == s[|s| - n..]
  {
  }

  /** The one hunk between two lists of lines, with three lines of context. */
  function ReviewHunk(was: seq<string>, now: seq<string>): Hunk {
    var c := Changed(was, now);
    var start := Greatest(0, c.from - CONTEXT);
    var wasEnd, nowEnd := Least(|was|, c.wasTo + CONTEXT), Least(|now|, c.nowTo + CONTEXT);
    Hunk(start, wasEnd - start, start, nowEnd - start,
         was[start..c.from], BlockText(was[c.from..c.wasTo]), BlockText(now[c.from..c.nowTo]), was[c.wasTo..wasEnd])
  }

  /**
   * The hunk is the change with up to three shared lines on either side, and counts the lines it covers on both sides.
   */
  lemma HunkSays(was: seq<string>, now: seq<string>)
    ensures var c, h := Changed(was, now), ReviewHunk(was, now);
            && |h.before| == (if c.from < 3 then c.from else 3)
            && |h.after| == (if |was| - c.wasTo < 3 then |was| - c.wasTo else 3)
            && h.oldStart == h.newStart == c.from - |h.before|
            && h.oldCount == |h.before| + (c.wasTo - c.from) + |h.after|
            && h.newCount == |h.before| + (c.nowTo - c.from) + |h.after|
            && h.before == was[c.from - |h.before|..c.from] == now[c.from - |h.before|..c.from]
            && h.after == was[c.wasTo..c.wasTo + |h.after|]
            && h.removed == (if c.from == c.wasTo then None else Some(Join(was[c.from..c.wasTo])))
            && h.added == (if c.from == c.nowTo then None else Some(Join(now[c.from..c.nowTo])))
  {
    hide Changed, Join;
    var c := Changed(was, now);
    var before, after := if c.from < 3 then c.from else 3, if |was| - c.wasTo < 3 then |was| - c.wasTo else 3;
    SidesMatch(was, now);
    SharedBefore(was, now, c.from - before);
    assert Greatest(0, c.from - CONTEXT) == c.from - before;
    assert Least(|was|, c.wasTo + CONTEXT) == c.wasTo + after && Least(|now|, c.nowTo + CONTEXT) == c.nowTo + after;
  }

  lemma SharedBefore(was: seq<string>, now: seq<string>, start: nat)
    requires start <= Changed(was, now).from
    ensures was[start..Changed(was, now).from] == now[start..Changed(was, now).from]
  {
    hide Changed;
    var c := Changed(was, now);
    ChangeIsTight(was, now);
    assert was[..c.from][start..] == was[start..c.from] && now[..c.from][start..] == now[start..c.from];
  }

  lemma SidesMatch(was: seq<string>, now: seq<string>)
    ensures |was| - Changed(was, now).wasTo == |now| - Changed(was, now).nowTo
  {
  }

  // ---------------------------------------------------------------------
  // Reading a diff back.
  // ---------------------------------------------------------------------

  function UnquoteLines(lines: seq<string>): Option<seq<string>> {
    if lines == [] then Some([])
    else
      var first, rest := UnquoteLine(lines[0]), UnquoteLines(lines[1..]);
      if first.Some? && rest.Some? then Some([first.value] + rest.value) else None
  }

  /** The text of one marked line, without its mark and line feed. */
  function UnquoteLine(line: string): Option<string> {
    if |line| >= 2 then Unquote(line[1..|line| - 1]) else None
  }

  function LeadingContext(lines: seq<string>): (n: nat)
    ensures n <= |lines|
  {
    if lines != [] && lines[0] != "" && lines[0][0] == ' ' then 1 + LeadingContext(lines[1..]) else 0
  }

  /** The position of the old lines in a hunk header, zero-based, and their count. */
  function ReadOldRange(header: string): Option<(int, nat)> {
    if |header| < 4 || header[..4] != "@@ -" then None else ReadStart(header[4..])
  }

  function ReadStart(text: string): Option<(int, nat)> {
    var start := LeadingDigits(text);
    if start == "" then None else ReadCount(NatOf(start), text[|start|..])
  }

  function ReadCount(start: nat, text: string): Option<(int, nat)> {
    if text == "" || text[0] != ',' then None
    else
      var count := LeadingDigits(text[1..]);
      if count == "" then None else Some((if NatOf(count) == 0 then start else start - 1, NatOf(count)))
  }

  /** What a diff says about the old lines it covers and what replaces them. */
  datatype Reading = Reading(
    start: int, count: nat, before: seq<string>, removed: Option<string>, added: Option<string>, after: seq<string>)

  function ReadBlock(mark: char, lines: seq<string>): (Option<Option<string>>, seq<string>) {
    if lines != [] && lines[0] != "" && lines[0][0] == mark then
      var text := UnquoteLine(lines[0]);
      (if text.Some? then Some(text) else None, lines[1..])
    else (Some(None), lines)
  }

  function ReadBody(range: (int, nat), body: seq<string>): Option<Reading> {
    var n := LeadingContext(body);
    var before := UnquoteLines(body[..n]);
    var (removed, rest) := ReadBlock('-', body[n..]);
    var (added, tail) := ReadBlock('+', rest);
    var after := UnquoteLines(tail);
    if before.Some? && removed.Some? && added.Some? && after.Some? && LeadingContext(tail) == |tail| then
      Some(Reading(range.0, range.1, before.value, removed.value, added.value, after.value))
    else None
  }

  function Read(diff: string): Option<Reading> {
    var lines := Lines(diff);
    if |lines| < 3 || lines[0] + lines[1] != LABELS || ReadOldRange(lines[2]).None? then None
    else ReadBody(ReadOldRange(lines[2]).value, lines[3..])
  }

  function BlockContent(block: Option<string>): string {
    if block.Some? then block.value else ""
  }

  /** Apply a reading to old lines, if it describes them. */
  function Apply(was: seq<string>, r: Reading): Option<string> {
    var from, to, end := r.start + |r.before|, r.start + r.count - |r.after|, r.start + r.count;
    if r.start < 0 || from > to || end > |was| then None
    else if was[r.start..from] != r.before || was[to..end] != r.after then None
    else if Join(was[from..to]) != BlockContent(r.removed) then None
    else Some(Join(was[..from]) + BlockContent(r.added) + Join(was[to..]))
  }

  /** Rebuild the new text from the old one and a review diff. */
  function Patch(present: bool, observed: string, diff: string): Option<string> {
    var reading := Read(diff);
    if reading.None? then None else Apply(ReviewLines(present, observed), reading.value)
  }

  // ---------------------------------------------------------------------
  // Reading undoes rendering.
  // ---------------------------------------------------------------------

  ghost predicate ManagedLinesOf(lines: seq<string>) {
    forall i :: 0 <= i < |lines| ==> Managed(lines[i], true)
  }

  ghost predicate ManagedHunk(h: Hunk) {
    && ManagedLinesOf(h.before) && ManagedLinesOf(h.after)
    && Managed(BlockContent(h.removed), true) && Managed(BlockContent(h.added), true)
  }

  lemma ReadMarkedLine(mark: char, line: string)
    ensures UnquoteLine(ReviewLine(mark, line)) == Some(line)
    ensures ReviewLine(mark, line) != "" && ReviewLine(mark, line)[0] == mark
  {
    UnquoteQuote(line);
    assert ReviewLine(mark, line)[1..|ReviewLine(mark, line)| - 1] == Quote(line);
  }

  lemma {:induction false} ReadMarkedLines(lines: seq<string>)
    ensures UnquoteLines(MarkedLines(' ', lines)) == Some(lines)
  {
    if lines != [] {
      ReadMarkedLine(' ', lines[0]);
      ReadMarkedLines(lines[1..]);
      assert MarkedLines(' ', lines)[1..] == MarkedLines(' ', lines[1..]);
      assert lines == [lines[0]] + lines[1..];
    }
  }

  lemma {:induction false} LeadingMarkedLines(lines: seq<string>, rest: seq<string>)
    requires rest != [] ==> rest[0] != "" && rest[0][0] != ' '
    ensures LeadingContext(MarkedLines(' ', lines) + rest) == |lines|
  {
    var all := MarkedLines(' ', lines) + rest;
    if lines == [] {
      assert all == rest;
    } else {
      LeadingMarkedLines(lines[1..], rest);
      assert all[1..] == MarkedLines(' ', lines[1..]) + rest;
      assert all[0] == ReviewLine(' ', lines[0]);
    }
  }

  lemma ReadBlockOf(mark: char, text: Option<string>, rest: seq<string>)
    requires rest != [] ==> rest[0] != "" && rest[0][0] != mark
    ensures ReadBlock(mark, Block(mark, text) + rest) == (Some(text), rest)
  {
    if text.Some? {
      ReadMarkedLine(mark, text.value);
      assert (Block(mark, text) + rest)[1..] == rest;
    } else {
      assert Block(mark, text) + rest == rest;
    }
  }

  lemma ReadBodyOf(h: Hunk, range: (int, nat))
    requires h.removed.Some? || h.added.Some?
    ensures ReadBody(range, Body(h)) == Some(Reading(range.0, range.1, h.before, h.removed, h.added, h.after))
  {
    hide ReviewLine, UnquoteLine;
    var tail := MarkedLines(' ', h.after);
    forall line, mark ensures ReviewLine(mark, line) != "" && ReviewLine(mark, line)[0] == mark {
      ReadMarkedLine(mark, line);
    }
    var plus := Block('+', h.added) + tail;
    var rest := Block('-', h.removed) + plus;
    assert Body(h) == MarkedLines(' ', h.before) + rest;
    LeadingMarkedLines(h.before, rest);
    assert Body(h)[..|h.before|] == MarkedLines(' ', h.before) && Body(h)[|h.before|..] == rest;
    ReadMarkedLines(h.before);
    ReadBlockOf('-', h.removed, plus);
    ReadBlockOf('+', h.added, tail);
    ReadMarkedLines(h.after);
    LeadingMarkedLines(h.after, []);
    assert tail + [] == tail;
  }

  lemma ReadRange(start: string, count: string, tail: string)
    requires AllDigits(start) && start != "" && AllDigits(count) && count != ""
    requires tail != "" && !IsDigit(tail[0])
    ensures ReadOldRange("@@ -" + (start + ("," + (count + tail))))
         == Some((if NatOf(count) == 0 then NatOf(start) else NatOf(start) - 1, NatOf(count)))
  {
    hide NatOf, LeadingDigits, AllDigits, ReadStart, ReadCount;
    var rest := "," + (count + tail);
    TextAfter("@@ -", start + rest);
    ReadStartOf(start, rest);
    ReadCountOf(NatOf(start), count, tail);
  }

  lemma ReadStartOf(start: string, rest: string)
    requires AllDigits(start) && start != "" && rest != "" && !IsDigit(rest[0])
    ensures ReadStart(start + rest) == ReadCount(NatOf(start), rest)
  {
    hide NatOf, LeadingDigits, AllDigits, ReadCount;
    LeadingDigitsOf(start, rest);
    TextAfter(start, rest);
  }

  lemma ReadCountOf(start: nat, count: string, tail: string)
    requires AllDigits(count) && count != "" && tail != "" && !IsDigit(tail[0])
    ensures ReadCount(start, "," + (count + tail))
         == Some((if NatOf(count) == 0 then start else start - 1, NatOf(count)))
  {
    hide NatOf, LeadingDigits, AllDigits;
    LeadingDigitsOf(count, tail);
    TextAfter(",", count + tail);
    assert ("," + (count + tail))[1..] == count + tail;
  }

  lemma TextAfter(a: string, b: string)
    ensures |a + b| == |a| + |b| && (a + b)[..|a|] == a && (a + b)[|a|..] == b
  {
  }

  lemma ReadHeader(h: Hunk)
    ensures ReadOldRange(Header(h)) == Some((h.oldStart as int, h.oldCount))
  {
    hide Numeral, NatOf, ReadOldRange;
    var start, count := Numeral(UnifiedStart(h.oldStart, h.oldCount)), Numeral(h.oldCount);
    var tail := " +" + Numeral(UnifiedStart(h.newStart, h.newCount)) + "," + Numeral(h.newCount) + " @@\n";
    assert Header(h) == "@@ -" + (start + ("," + (count + tail)));
    ReadRange(start, count, tail);
    NumeralDenotes(UnifiedStart(h.oldStart, h.oldCount));
    NumeralDenotes(h.oldCount);
  }

  /** A line feed only at its end. */
  ghost predicate ProperLine(line: string) {
    line != "" && line[|line| - 1] == '\n' && '\n' !in line[..|line| - 1]
  }

  lemma {:induction false} LinesOfProper(lines: seq<string>)
    requires forall i :: 0 <= i < |lines| ==> ProperLine(lines[i])
    ensures Lines(Join(lines)) == lines
  {
    if lines != [] {
      hide Lines;
      var body := lines[0][..|lines[0]| - 1];
      assert lines[0] == body + "\n" && '\n' !in body;
      FirstLine(body, Join(lines[1..]));
      LinesOfProper(lines[1..]);
    }
  }

  lemma ReviewLineIsProper(mark: char, line: string)
    requires Managed(line, true) && mark != '\n'
    ensures ProperLine(ReviewLine(mark, line))
  {
    EscapeIsSafe(line);
    var marked := ReviewLine(mark, line);
    assert marked[..|marked| - 1] == [mark] + Quote(line);
  }

  lemma BodyIsProper(h: Hunk)
    requires ManagedHunk(h)
    ensures forall i :: 0 <= i < |Body(h)| ==> ProperLine(Body(h)[i])
  {
    hide ReviewLine, ProperLine;
    forall mark, line | Managed(line, true) && mark != '\n' ensures ProperLine(ReviewLine(mark, line)) {
      ReviewLineIsProper(mark, line);
    }
  }

  lemma HeaderIsProper(h: Hunk)
    ensures ProperLine(Header(h))
  {
    var header := Header(h);
    forall i | 0 <= i < |header| - 1 ensures header[i] != '\n' {
      if !IsDigit(header[i]) {
        assert header[i] in ['@', ' ', '-', '+', ','];
      }
    }
  }

  lemma JoinThree(a: string, b: string, c: string)
    ensures Join([a, b, c]) == a + b + c
  {
    JoinAppend([a], [b]);
    JoinAppend([a] + [b], [c]);
    assert [a, b, c] == [a] + [b] + [c];
    assert Join([a]) == a + Join([]) && Join([b]) == b + Join([]) && Join([c]) == c + Join([]);
  }

  lemma LinesOfParts(a: string, b: string, c: string, rest: seq<string>)
    requires ProperLine(a) && ProperLine(b) && ProperLine(c)
    requires forall i :: 0 <= i < |rest| ==> ProperLine(rest[i])
    ensures Lines(a + b + c + Join(rest)) == [a, b, c] + rest
  {
    hide Lines, ProperLine, Join;
    LinesOfProper([a, b, c] + rest);
    JoinAppend([a, b, c], rest);
    JoinThree(a, b, c);
  }

  lemma LinesOfRender(h: Hunk)
    requires ManagedHunk(h)
    ensures Lines(Render(h)) == ["--- a/README.md\n", "+++ b/README.md\n", Header(h)] + Body(h)
  {
    hide Header, Body, Lines, Join;
    HeaderIsProper(h);
    BodyIsProper(h);
    LinesOfParts("--- a/README.md\n", "+++ b/README.md\n", Header(h), Body(h));
    assert LABELS == "--- a/README.md\n" + "+++ b/README.md\n";
  }

  lemma ReadRender(h: Hunk)
    requires ManagedHunk(h) && (h.removed.Some? || h.added.Some?)
    ensures Read(Render(h)) == Some(Reading(h.oldStart, h.oldCount, h.before, h.removed, h.added, h.after))
  {
    hide Header, Body, Lines, Render, ReadOldRange, ReadBody;
    LinesOfRender(h);
    ReadHeader(h);
    ReadBodyOf(h, (h.oldStart as int, h.oldCount));
    assert Lines(Render(h))[3..] == Body(h);
  }

  // ---------------------------------------------------------------------
  // Applying the reading of a review hunk gives the new lines.
  // ---------------------------------------------------------------------

  lemma ThreeParts<T>(s: seq<T>, from: nat, to: nat)
    requires from <= to <= |s|
    ensures s == s[..from] + s[from..to] + s[to..]
  {
  }

  lemma JoinOfThree(a: seq<string>, b: seq<string>, c: seq<string>)
    ensures Join(a + b + c) == Join(a) + Join(b) + Join(c)
  {
    hide Join;
    JoinAppend(a + b, c);
    JoinAppend(a, b);
  }

  lemma JoinParts(lines: seq<string>, from: nat, to: nat)
    requires from <= to <= |lines|
    ensures Join(lines) == Join(lines[..from]) + Join(lines[from..to]) + Join(lines[to..])
  {
    hide Join;
    ThreeParts(lines, from, to);
    JoinOfThree(lines[..from], lines[from..to], lines[to..]);
  }

  lemma BlockContentOf(lines: seq<string>)
    ensures BlockContent(BlockText(lines)) == Join(lines)
  {
  }

  lemma HunkShape(was: seq<string>, now: seq<string>)
    ensures var c, h := Changed(was, now), ReviewHunk(was, now);
            && h.oldStart + |h.before| == c.from && h.oldStart + h.oldCount - |h.after| == c.wasTo
            && h.oldStart + h.oldCount <= |was|
            && h.before == was[h.oldStart..c.from] && h.after == was[c.wasTo..h.oldStart + h.oldCount]
            && h.removed == BlockText(was[c.from..c.wasTo]) && h.added == BlockText(now[c.from..c.nowTo])
  {
    hide Join, Changed, BlockText;
  }

  lemma ApplyReading(was: seq<string>, r: Reading, from: nat, to: nat, end: nat)
    requires r.start >= 0 && r.start + |r.before| == from && r.start + r.count == end && end - |r.after| == to
    requires from <= to && end <= |was|
    requires was[r.start..from] == r.before && was[to..end] == r.after
    requires Join(was[from..to]) == BlockContent(r.removed)
    ensures Apply(was, r) == Some(Join(was[..from]) + BlockContent(r.added) + Join(was[to..]))
  {
    hide Join, BlockContent;
  }

  lemma ApplyReviewHunk(was: seq<string>, now: seq<string>)
    ensures var h := ReviewHunk(was, now);
            Apply(was, Reading(h.oldStart, h.oldCount, h.before, h.removed, h.added, h.after)) == Some(Join(now))
  {
    hide Join, Changed, BlockText, BlockContent, ReviewHunk, Apply;
    var c, h := Changed(was, now), ReviewHunk(was, now);
    HunkShape(was, now);
    BlockContentOf(was[c.from..c.wasTo]);
    BlockContentOf(now[c.from..c.nowTo]);
    ApplyReading(was, Reading(h.oldStart, h.oldCount, h.before, h.removed, h.added, h.after),
                 c.from, c.wasTo, h.oldStart + h.oldCount);
    ChangeIsTight(was, now);
    JoinParts(now, c.from, c.nowTo);
  }

  /** A hunk between different texts has something to remove or to add. */
  lemma HunkIsNotEmpty(was: seq<string>, now: seq<string>)
    requires was != now
    ensures ReviewHunk(was, now).removed.Some? || ReviewHunk(was, now).added.Some?
  {
    hide Join, Changed;
    var c := Changed(was, now);
    ChangeIsTight(was, now);
    assert was == was[..c.from] + was[c.from..c.wasTo] + was[c.wasTo..];
    assert now == now[..c.from] + now[c.from..c.nowTo] + now[c.nowTo..];
  }

  lemma ReviewHunkIsManaged(was: seq<string>, now: seq<string>)
    requires Managed(Join(was), true) && Managed(Join(now), true)
    ensures ManagedHunk(ReviewHunk(was, now))
  {
    hide Join, Managed, Changed;
    var c := Changed(was, now);
    ManagedLines(was, true);
    ManagedLines(now, true);
    ManagedLines(was[c.from..c.wasTo], true);
    ManagedLines(now[c.from..c.nowTo], true);
    EmptyIsManaged();
  }

  lemma EmptyIsManaged()
    ensures Managed("", true)
  {
  }

  // ---------------------------------------------------------------------
  // The diff fits its bound and passes its own validator.
  // ---------------------------------------------------------------------

  /** validateReviewDiff. */
  predicate ValidReviewDiff(diff: string) {
    && diff != "" && ByteLength(diff) <= MAX_DIFF_BYTES
    && Managed(diff, false)
    && LABELS + "@@ " <= diff
    && diff[|diff| - 1] == '\n'
  }

  /** A diff begins with the labels and a hunk, ends with a line feed, and is safe text of bounded size. */
  lemma {:induction false} DiffFields(diff: string)
    ensures ValidReviewDiff(diff) <==>
              && "--- a/README.md\n+++ b/README.md\n@@ " <= diff && diff[|diff| - 1] == '\n'
              && Managed(diff, false) && ByteLength(diff) <= 4259840
  {
    hide ByteLength, Managed;
    assert LABELS + "@@ " == "--- a/README.md\n+++ b/README.md\n@@ ";
  }

  lemma ReviewLineBytes(mark: char, line: string)
    requires Managed(line, true) && mark in [' ', '-', '+']
    ensures ByteLength(ReviewLine(mark, line)) <= 4 + 2 * ByteLength(line)
    ensures Managed(ReviewLine(mark, line), false)
  {
    hide Escape;
    EscapeIsSafe(line);
    var e := Escape(line);
    ByteLengthAscii([mark] + "\"");
    ByteLengthAscii("\"\n");
    ByteLengthAppend([mark] + "\"", e);
    ByteLengthAppend([mark] + "\"" + e, "\"\n");
    ManagedAppend([mark] + "\"", e, false);
    ManagedAppend([mark] + "\"" + e, "\"\n", false);
    assert ReviewLine(mark, line) == [mark] + "\"" + e + "\"\n";
  }

  lemma {:induction false} MarkedLinesBytes(lines: seq<string>)
    requires ManagedLinesOf(lines)
    ensures ByteLength(Join(MarkedLines(' ', lines))) <= 4 * |lines| + 2 * ByteLength(Join(lines))
    ensures Managed(Join(MarkedLines(' ', lines)), false)
  {
    hide Managed, ReviewLine, ByteLength;
    if lines != [] {
      ReviewLineBytes(' ', lines[0]);
      MarkedLinesBytes(lines[1..]);
      var marked := MarkedLines(' ', lines);
      assert marked[1..] == MarkedLines(' ', lines[1..]);
      ByteLengthAppend(marked[0], Join(marked[1..]));
      ByteLengthAppend(lines[0], Join(lines[1..]));
      ManagedAppend(marked[0], Join(marked[1..]), false);
    } else {
      EmptyText();
    }
  }

  lemma EmptyText()
    ensures ByteLength("") == 0 && Managed("", false) && Join([]) == ""
  {
  }

  lemma BlockBytes(mark: char, text: Option<string>)
    requires Managed(BlockContent(text), true) && mark in ['-', '+']
    ensures ByteLength(Join(Block(mark, text))) <= 4 + 2 * ByteLength(BlockContent(text))
    ensures Managed(Join(Block(mark, text)), false)
  {
    hide ReviewLine;
    EmptyText();
    if text.Some? {
      ReviewLineBytes(mark, text.value);
      JoinSingle(ReviewLine(mark, text.value));
    }
  }

  lemma BodyBytes(h: Hunk)
    requires ManagedHunk(h)
    ensures ByteLength(Join(Body(h))) <= 4 * (|h.before| + |h.after| + 2)
              + 2 * (ByteLength(Join(h.before)) + ByteLength(BlockContent(h.removed)) + ByteLength(Join(h.after)))
              + 2 * ByteLength(BlockContent(h.added))
    ensures Managed(Join(Body(h)), false)
  {
    hide Join, Block, MarkedLines, Managed, ByteLength;
    var a, b, c, d := MarkedLines(' ', h.before), Block('-', h.removed), Block('+', h.added), MarkedLines(' ', h.after);
    MarkedLinesBytes(h.before);
    BlockBytes('-', h.removed);
    BlockBytes('+', h.added);
    MarkedLinesBytes(h.after);
    JoinAppend(a, b);
    JoinAppend(a + b, c);
    JoinAppend(a + b + c, d);
    ByteLengthAppend(Join(a), Join(b));
    ByteLengthAppend(Join(a + b), Join(c));
    ByteLengthAppend(Join(a + b + c), Join(d));
    ManagedAppend(Join(a), Join(b), false);
    ManagedAppend(Join(a + b), Join(c), false);
    ManagedAppend(Join(a + b + c), Join(d), false);
  }

  lemma HeaderLength(h: Hunk)
    requires h.oldStart + h.oldCount < 9_999_999 && h.newStart + h.newCount < 9_999_999
    ensures |Header(h)| <= 40
  {
    hide Numeral;
    assert TenTo(7) == 10_000_000;
    NumeralLength(UnifiedStart(h.oldStart, h.oldCount), 7, 10_000_000);
    NumeralLength(h.oldCount, 7, 10_000_000);
    NumeralLength(UnifiedStart(h.newStart, h.newCount), 7, 10_000_000);
    NumeralLength(h.newCount, 7, 10_000_000);
  }

  lemma HeaderBytes(h: Hunk)
    requires h.oldStart + h.oldCount < 9_999_999 && h.newStart + h.newCount < 9_999_999
    ensures ByteLength(Header(h)) <= 40 && Managed(Header(h), false)
  {
    hide Numeral;
    HeaderLength(h);
    var header := Header(h);
    forall i | 0 <= i < |header| ensures header[i] < '\U{80}' && SafeChar(header[i]) {
      if !IsDigit(header[i]) {
        assert header[i] in ['@', ' ', '-', '+', ',', '\n'];
      }
    }
    ByteLengthAscii(header);
  }

  /** Context and removed lines are disjoint stretches of the old text, added lines one of the new. */
  lemma HunkBytes(was: seq<string>, now: seq<string>)
    ensures var h := ReviewHunk(was, now);
            && ByteLength(Join(h.before)) + ByteLength(BlockContent(h.removed)) + ByteLength(Join(h.after))
               <= ByteLength(Join(was))
            && ByteLength(BlockContent(h.added)) <= ByteLength(Join(now))
            && |h.before| <= CONTEXT && |h.after| <= CONTEXT
  {
    hide Join, ByteLength, Changed, BlockText, BlockContent;
    var c, h := Changed(was, now), ReviewHunk(was, now);
    var end := h.oldStart + h.oldCount;
    BlockContentOf(was[c.from..c.wasTo]);
    BlockContentOf(now[c.from..c.nowTo]);
    HunkShape(was, now);
    PartBytes(was, h.oldStart, end);
    PartBytes(was[h.oldStart..end], c.from - h.oldStart, c.wasTo - h.oldStart);
    SliceOfSlice(was, h.oldStart, c.from, c.wasTo, end);
    PartBytes(now, c.from, c.nowTo);
  }

  lemma SliceOfSlice<T>(s: seq<T>, a: nat, b: nat, c: nat, d: nat)
    requires a <= b <= c <= d <= |s|
    ensures s[a..d][..b - a] == s[a..b] && s[a..d][b - a..c - a] == s[b..c] && s[a..d][c - a..] == s[c..d]
  {
    var t := s[a..d];
    assert t[..b - a] == s[a..b];
    forall k | 0 <= k < c - b ensures t[b - a..c - a][k] == s[b..c][k] {
    }
    assert t[b - a..c - a] == s[b..c];
    assert t[c - a..] == s[c..d];
  }

  lemma PartBytes(lines: seq<string>, from: nat, to: nat)
    requires from <= to <= |lines|
    ensures ByteLength(Join(lines))
         == ByteLength(Join(lines[..from])) + ByteLength(Join(lines[from..to])) + ByteLength(Join(lines[to..]))
  {
    hide Join, ByteLength;
    JoinParts(lines, from, to);
    ByteLengthAppend(Join(lines[..from]) + Join(lines[from..to]), Join(lines[to..]));
    ByteLengthAppend(Join(lines[..from]), Join(lines[from..to]));
  }

  lemma RenderBytes(h: Hunk)
    requires ManagedHunk(h)
    requires h.oldStart + h.oldCount < 9_999_999 && h.newStart + h.newCount < 9_999_999
    ensures ByteLength(Render(h)) <= 32 + 40 + ByteLength(Join(Body(h)))
    ensures Managed(Render(h), false)
    ensures LABELS + "@@ " <= Render(h)
    ensures h.removed.Some? || h.added.Some? ==> Render(h)[|Render(h)| - 1] == '\n'
  {
    hide Join, ByteLength, Body, Managed, Numeral;
    HeaderBytes(h);
    BodyBytes(h);
    LabelsText();
    ByteLengthAppend(LABELS, Header(h));
    ByteLengthAppend(LABELS + Header(h), Join(Body(h)));
    ManagedAppend(LABELS, Header(h), false);
    ManagedAppend(LABELS + Header(h), Join(Body(h)), false);
    if h.removed.Some? || h.added.Some? {
      LastLineFeed(h);
    }
  }

  lemma LabelsText()
    ensures ByteLength(LABELS) == 32 && Managed(LABELS, false)
  {
    ByteLengthAscii(LABELS);
  }

  lemma LastLineFeed(h: Hunk)
    requires h.removed.Some? || h.added.Some?
    ensures Join(Body(h)) != "" && Join(Body(h))[|Join(Body(h))| - 1] == '\n'
  {
    hide Join;
    var body := Body(h);
    var last := body[|body| - 1];
    assert body == body[..|body| - 1] + [last];
    JoinAppend(body[..|body| - 1], [last]);
    assert last[|last| - 1] == '\n';
    JoinSingle(last);
  }

  lemma JoinSingle(line: string)
    ensures Join([line]) == line
  {
    assert Join([line]) == line + Join([]);
  }

  // ---------------------------------------------------------------------
  // ReviewDiff.
  // ---------------------------------------------------------------------

  predicate Reviewable(present: bool, observed: Content, desired: Content) {
    && (!present ==> Size(observed) == 0)
    && Size(observed) <= MAX_TEXT_BYTES && Size(desired) <= MAX_TEXT_BYTES
    && (present ==> ManagedContent(observed, true))
    && ManagedContent(desired, false)
  }

  lemma LinesFit(present: bool, value: string)
    ensures |ReviewLines(present, value)| <= ByteLength(value) + 1
  {
    LineCount(value);
  }

  lemma ManagedWithCR(s: string)
    ensures Managed(s, false) ==> Managed(s, true)
  {
  }

  /** Everything the review text promises, for any two reviewable texts that differ. */
  lemma DiffIsFaithful(present: bool, observed: string, desired: string)
    requires !present ==> observed == ""
    requires ByteLength(observed) <= MAX_TEXT_BYTES && ByteLength(desired) <= MAX_TEXT_BYTES
    requires Managed(observed, true) && Managed(desired, false)
    requires present ==> observed != desired
    ensures var diff := Render(ReviewHunk(ReviewLines(present, observed), ReviewLines(true, desired)));
            && ValidReviewDiff(diff)
            && Patch(present, observed, diff) == Some(desired)
  {
    hide Managed, Join, ReviewLines, Render, ByteLength, Apply, Read;
    var was, now := ReviewLines(present, observed), ReviewLines(true, desired);
    var h := ReviewHunk(was, now);
    JoinReviewLines(present, observed);
    JoinReviewLines(true, desired);
    ManagedWithCR(desired);
    PresentTextHasLines(desired);
    assert was != now;
    HunkIsNotEmpty(was, now);
    ReviewHunkIsManaged(was, now);
    HunkBytes(was, now);
    LinesFit(present, observed);
    LinesFit(true, desired);
    BodyBytes(h);
    RenderBytes(h);
    ReadRender(h);
    ApplyReviewHunk(was, now);
  }

  /** For one observed state, one review diff allows one new text. */
  lemma DiffDeterminesText(present: bool, observed: string, desired: string, other: string)
    requires !present ==> observed == ""
    requires Managed(observed, true) && ByteLength(observed) <= MAX_TEXT_BYTES
    requires Managed(desired, false) && ByteLength(desired) <= MAX_TEXT_BYTES && (present ==> observed != desired)
    requires Managed(other, false) && ByteLength(other) <= MAX_TEXT_BYTES && (present ==> observed != other)
    requires Render(ReviewHunk(ReviewLines(present, observed), ReviewLines(true, desired)))
          == Render(ReviewHunk(ReviewLines(present, observed), ReviewLines(true, other)))
    ensures desired == other
  {
    hide Render, ReviewHunk, ReviewLines, Patch, Managed, ByteLength;
    DiffIsFaithful(present, observed, desired);
    DiffIsFaithful(present, observed, other);
  }

  lemma PresentTextHasLines(value: string)
    ensures ReviewLines(true, value) != [] && ReviewLines(false, value) == []
  {
  }

  /**
   * Fails only on unreviewable input; otherwise the diff is empty exactly when there is nothing
   * to review, and a non-empty diff is within bounds, valid, and rebuilds the desired text.
   */
  method ReviewDiff(observedPresent: bool, observed: Content, desired: Content) returns (r: Result<string, DiffError>)
    ensures r.Ok? <==> Reviewable(observedPresent, observed, desired)
    ensures !observedPresent && Size(observed) != 0 ==> r == Err(AbsentWithContent)
    ensures (observedPresent || Size(observed) == 0) && (Size(observed) > 1048576 || Size(desired) > 1048576) ==>
              r == Err(InputTooLarge)
    ensures r == Err(InvalidText) <==>
              && (observedPresent || Size(observed) == 0) && Size(observed) <= 1048576 && Size(desired) <= 1048576
              && ((observedPresent && !ManagedContent(observed, true)) || !ManagedContent(desired, false))
    ensures r.Err? ==> !r.error.DiffTooLarge? && !r.error.InvalidDiff?
    ensures r.Ok? ==> (r.value == "" <==> observedPresent && observed == desired)
    ensures r.Ok? && r.value != "" ==>
              && ValidReviewDiff(r.value)
              && r.value == Render(ReviewHunk(ReviewLines(observedPresent, observed.text),
                                              ReviewLines(true, desired.text)))
              && Patch(observedPresent, observed.text, r.value) == Some(desired.text)
  {
    hide Render, Patch, ReviewLines, Managed, ByteLength, Body;
    if !observedPresent && Size(observed) != 0 {
      return Err(AbsentWithContent);
    }
    if Size(observed) > MAX_TEXT_BYTES || Size(desired) > MAX_TEXT_BYTES {
      return Err(InputTooLarge);
    }
    if observedPresent && !ManagedContent(observed, true) {
      return Err(InvalidText);
    }
    if !ManagedContent(desired, false) {
      return Err(InvalidText);
    }
    if observedPresent && observed == desired {
      return Ok("");
    }
    var wasLines := SplitReviewLines(observedPresent, observed.text);
    var nowLines := SplitReviewLines(true, desired.text);
    var out := WriteHunk(wasLines, nowLines);
    assert !observedPresent ==> observed.text == "";
    EmptyIsManaged();
    DiffIsFaithful(observedPresent, observed.text, desired.text);
    if ByteLength(out) > MAX_DIFF_BYTES {
      return Err(DiffTooLarge);
    }
    if !ValidReviewDiff(out) {
      return Err(InvalidDiff);
    }
    return Ok(out);
  }

  /** The lengths of the shared beginning, and of the shared end of what is left. */
  method SharedEnds(was: seq<string>, now: seq<string>) returns (prefix: nat, suffix: nat)
    ensures prefix == CommonPrefix(was, now) && suffix == CommonSuffix(was[prefix..], now[prefix..])
  {
    prefix := CommonPrefixLength(was, now);
    suffix := CommonSuffixLength(was[prefix..], now[prefix..]);
  }

  method WriteHunk(was: seq<string>, now: seq<string>) returns (out: string)
    ensures out == Render(ReviewHunk(was, now))
  {
    hide Render, Join, HeaderText, Block, MarkedLines, BlockText, CommonPrefix, CommonSuffix;
    var prefix, suffix := SharedEnds(was, now);
    var wasChangeEnd, nowChangeEnd := |was| - suffix, |now| - suffix;
    var wasStart, nowStart := Greatest(0, prefix - CONTEXT), Greatest(0, prefix - CONTEXT);
    var wasEnd, nowEnd := Least(|was|, wasChangeEnd + CONTEXT), Least(|now|, nowChangeEnd + CONTEXT);
    ghost var h := ReviewHunk(was, now);

    out := LABELS;
    out := out + HeaderText(wasStart, wasEnd - wasStart, nowStart, nowEnd - nowStart);
    out := WriteContext(out, was[wasStart..prefix]);
    out := WriteBlock(out, '-', was[prefix..wasChangeEnd]);
    out := WriteBlock(out, '+', now[prefix..nowChangeEnd]);
    out := WriteContext(out, was[wasChangeEnd..wasEnd]);
    RenderPieces(h);
  }

  lemma RenderPieces(h: Hunk)
    ensures Render(h) == LABELS + Header(h) + Join(MarkedLines(' ', h.before)) + Join(Block('-', h.removed))
                         + Join(Block('+', h.added)) + Join(MarkedLines(' ', h.after))
  {
    hide Join, Header, Block, MarkedLines;
    var a, b, c, d := MarkedLines(' ', h.before), Block('-', h.removed), Block('+', h.added), MarkedLines(' ', h.after);
    JoinAppend(a, b);
    JoinAppend(a + b, c);
    JoinAppend(a + b + c, d);
  }

  method WriteContext(out: string, lines: seq<string>) returns (written: string)
    ensures written == out + Join(MarkedLines(' ', lines))
  {
    hide ReviewLine;
    written := out;
    for i := 0 to |lines|
      invariant written == out + Join(MarkedLines(' ', lines[..i]))
    {
      assert MarkedLines(' ', lines[..i + 1]) == MarkedLines(' ', lines[..i]) + [ReviewLine(' ', lines[i])];
      JoinAppend(MarkedLines(' ', lines[..i]), [ReviewLine(' ', lines[i])]);
      JoinSingle(ReviewLine(' ', lines[i]));
      written := written + ReviewLine(' ', lines[i]);
    }
    assert lines[..|lines|] == lines;
  }

  method WriteBlock(out: string, mark: char, lines: seq<string>) returns (written: string)
    ensures written == out + Join(Block(mark, BlockText(lines)))
  {
    hide ReviewLine;
    if lines == [] {
      return out;
    }
    JoinSingle(ReviewLine(mark, Join(lines)));
    return out + ReviewLine(mark, Join(lines));
  }
}
