/** Choosing the trust tier of a document path: an arg-max scan in Go, a sort in Python. */
module TrustRouter {
  import opened Text
  import opened ManagedText
  import opened Permutations

  const UNCLASSIFIED := "unclassified"

  const TIERS := ["canonical", "implementation", "generated", "experimental", "archived", "external"]

  /** A rule's index is its position in the router. */
  datatype Rule = Rule(tier: string, patterns: seq<string>)

  datatype Match = Match(literal: nat, length: nat, index: nat, tier: string)

  // ---------------------------------------------------------------------
  // Globs.
  // ---------------------------------------------------------------------

  /** fnmatch: '*' is any text, '?' any one character. */
  predicate Glob(pattern: string, path: string)
    decreases |pattern|
  {
    if pattern == "" then path == ""
    else if pattern[0] == '*' then exists k :: 0 <= k <= |path| && Glob(pattern[1..], path[k..])
    else path != "" && (pattern[0] == '?' || pattern[0] == path[0]) && Glob(pattern[1..], path[1..])
  }

  /** The pieces of the anchored regular expression a pattern is compiled to. */
  datatype Piece = DotStar | Dot | Quoted(c: char)

  /** A dot stands for any character but a line feed. */
  predicate Fits(pieces: seq<Piece>, path: string)
    decreases |pieces|
  {
    if pieces == [] then path == ""
    else match pieces[0]
      case DotStar => exists k :: 0 <= k <= |path| && '\n' !in path[..k] && Fits(pieces[1..], path[k..])
      case Dot => path != "" && path[0] != '\n' && Fits(pieces[1..], path[1..])
      case Quoted(c) => path != "" && path[0] == c && Fits(pieces[1..], path[1..])
  }

  function PieceOf(c: char): Piece {
    if c == '*' then DotStar else if c == '?' then Dot else Quoted(c)
  }

  function Pieces(pattern: string): (r: seq<Piece>)
    ensures |r| == |pattern|
  {
    seq(|pattern|, i requires 0 <= i < |pattern| => PieceOf(pattern[i]))
  }

  predicate HasClass(pattern: string) {
    '[' in pattern || ']' in pattern
  }

  /** Character classes are refused. */
  method FnmatchCase(pattern: string, path: string) returns (matched: Option<bool>)
    ensures matched == if HasClass(pattern) then None else Some(Fits(Pieces(pattern), path))
  {
    var expression: seq<Piece> := [];
    for i := 0 to |pattern|
      invariant expression == Pieces(pattern[..i]) && !HasClass(pattern[..i])
    {
      if pattern[i] == '[' || pattern[i] == ']' {
        return None;
      }
      expression := expression + [PieceOf(pattern[i])];
    }
    assert pattern[..|pattern|] == pattern;
    return Some(Fits(expression, path));
  }

  /** On paths without line feeds the compiled expression is the glob. */
  lemma {:induction false} FitsIsGlob(pattern: string, path: string)
    requires '\n' !in path
    ensures Fits(Pieces(pattern), path) <==> Glob(pattern, path)
    decreases |pattern|
  {
    if pattern != "" {
      assert Pieces(pattern)[1..] == Pieces(pattern[1..]);
      forall k | 0 <= k <= |path| ensures Fits(Pieces(pattern[1..]), path[k..]) <==> Glob(pattern[1..], path[k..]) {
        FitsIsGlob(pattern[1..], path[k..]);
      }
      assert path != "" ==> path[1..] == path[1..][..];
    }
  }

  // ---------------------------------------------------------------------
  // Specificity.
  // ---------------------------------------------------------------------

  /** strings.NewReplacer("*", "", "?", ""). */
  function Literal(pattern: string): (r: string) {
    if pattern == "" then ""
    else if pattern[0] == '*' || pattern[0] == '?' then Literal(pattern[1..])
    else [pattern[0]] + Literal(pattern[1..])
  }

  /** str.replace("**", ""), then str.replace(c, ""). */
  function WithoutDoubleStar(s: string): string {
    if s == "" then "" else if "**" <= s then WithoutDoubleStar(s[2..]) else [s[0]] + WithoutDoubleStar(s[1..])
  }

  function WithoutChar(s: string, c: char): string {
    if s == "" then "" else if s[0] == c then WithoutChar(s[1..], c) else [s[0]] + WithoutChar(s[1..], c)
  }

  function PythonLiteral(pattern: string): string {
    WithoutChar(WithoutChar(WithoutDoubleStar(pattern), '*'), '?')
  }

  lemma {:induction false} DoubleStarsAreStars(s: string)
    ensures WithoutChar(WithoutDoubleStar(s), '*') == WithoutChar(s, '*')
  {
    if s != "" {
      if "**" <= s {
        DoubleStarsAreStars(s[2..]);
        assert s[0] == '*' && s[1] == '*' && s[1..][1..] == s[2..];
      } else {
        DoubleStarsAreStars(s[1..]);
        var rest := WithoutDoubleStar(s[1..]);
        assert ([s[0]] + rest)[1..] == rest;
      }
    }
  }

  lemma {:induction false} StarsThenMarks(s: string)
    ensures WithoutChar(WithoutChar(s, '*'), '?') == Literal(s)
  {
    if s != "" {
      StarsThenMarks(s[1..]);
      var rest := WithoutChar(s[1..], '*');
      assert ([s[0]] + rest)[1..] == rest;
    }
  }

  /** Removing "**", "*" and "?" one after the other removes every star and question mark. */
  lemma LiteralsAgree(pattern: string)
    ensures PythonLiteral(pattern) == Literal(pattern)
  {
    DoubleStarsAreStars(pattern);
    StarsThenMarks(pattern);
  }

  predicate Ascii(s: string) {
    forall i :: 0 <= i < |s| ==> s[i] < '\U{80}'
  }

  lemma {:induction false} LiteralIsAscii(s: string)
    requires Ascii(s)
    ensures Ascii(Literal(s))
  {
    if s != "" {
      LiteralIsAscii(s[1..]);
    }
  }

  // ---------------------------------------------------------------------
  // The best match.
  // ---------------------------------------------------------------------

  predicate Better(a: Match, b: Match) {
    || a.literal > b.literal
    || (a.literal == b.literal && a.length > b.length)
    || (a.literal == b.literal && a.length == b.length && a.index < b.index)
  }

  /** How an implementation reads patterns: which ones hit the path, and their two lengths. */
  datatype Reading = Reading(hits: string -> bool, literal: string -> nat, length: string -> nat)

  function MatchOf(rules: seq<Rule>, r: Reading, i: nat, pattern: string): Match
    requires i < |rules|
  {
    Match(r.literal(pattern), r.length(pattern), i, rules[i].tier)
  }

  ghost predicate Hit(rules: seq<Rule>, r: Reading, i: nat, pattern: string) {
    i < |rules| && pattern in rules[i].patterns && r.hits(pattern)
  }

  /** The tier of a match that no other match beats; without a match there is none. */
  ghost predicate Best(rules: seq<Rule>, r: Reading, tier: string) {
    || (NoHit(rules, r) && tier == UNCLASSIFIED)
    || (exists i: nat, pattern :: BestHit(rules, r, i, pattern) && tier == rules[i].tier)
  }

  ghost predicate NoHit(rules: seq<Rule>, r: Reading) {
    forall i: nat, pattern :: !Hit(rules, r, i, pattern)
  }

  ghost predicate BestHit(rules: seq<Rule>, r: Reading, i: nat, pattern: string) {
    && Hit(rules, r, i, pattern)
    && forall k: nat, other :: Hit(rules, r, k, other) ==>
         !Better(MatchOf(rules, r, k, other), MatchOf(rules, r, i, pattern))
  }

  /** There is one best tier. */
  lemma BestIsUnique(rules: seq<Rule>, r: Reading, one: string, two: string)
    requires Best(rules, r, one) && Best(rules, r, two)
    ensures one == two
  {
    if !NoHit(rules, r) {
      var i: nat, p :| BestHit(rules, r, i, p) && one == rules[i].tier;
      var k: nat, q :| BestHit(rules, r, k, q) && two == rules[k].tier;
      assert Hit(rules, r, i, p) && Hit(rules, r, k, q);
      assert i == k;
    }
  }

  /**
   * The tier of a matching pattern is chosen when every other match has fewer literal characters, or as many and is
   * shorter, or ties and stands in no earlier rule.
   */
  lemma MostSpecificWins(rules: seq<Rule>, r: Reading, i: nat, pattern: string)
    requires Hit(rules, r, i, pattern)
    requires forall k: nat, other :: Hit(rules, r, k, other) ==>
               || r.literal(other) < r.literal(pattern)
               || (r.literal(other) == r.literal(pattern) && r.length(other) < r.length(pattern))
               || (r.literal(other) == r.literal(pattern) && r.length(other) == r.length(pattern) && i <= k)
    ensures forall tier :: Best(rules, r, tier) <==> tier == rules[i].tier
  {
    assert BestHit(rules, r, i, pattern);
    forall tier | Best(rules, r, tier) ensures tier == rules[i].tier {
      BestIsUnique(rules, r, tier, rules[i].tier);
    }
  }

  predicate HasPattern(rules: seq<Rule>, i: nat, pattern: string) {
    i < |rules| && pattern in rules[i].patterns
  }

  /** Two readings that agree about every pattern have the same best tier. */
  lemma BestOfSameReading(rules: seq<Rule>, other: seq<Rule>, r: Reading, q: Reading, tier: string)
    requires |rules| == |other| && forall i :: 0 <= i < |rules| ==> rules[i].tier == other[i].tier
    requires forall i: nat, pattern :: HasPattern(rules, i, pattern) <==> HasPattern(other, i, pattern)
    requires forall i: nat, pattern :: HasPattern(rules, i, pattern) ==>
               r.hits(pattern) == q.hits(pattern) && r.literal(pattern) == q.literal(pattern)
                 && r.length(pattern) == q.length(pattern)
    requires Best(rules, r, tier)
    ensures Best(other, q, tier)
  {
    hide Better;
    forall i: nat, pattern ensures Hit(rules, r, i, pattern) <==> Hit(other, q, i, pattern) {
      assert HasPattern(rules, i, pattern) <==> HasPattern(other, i, pattern);
    }
    forall i: nat, pattern | Hit(rules, r, i, pattern)
      ensures MatchOf(rules, r, i, pattern) == MatchOf(other, q, i, pattern) {
      assert HasPattern(rules, i, pattern);
    }
    if !NoHit(rules, r) {
      var i: nat, p :| BestHit(rules, r, i, p) && tier == rules[i].tier;
      assert BestHit(other, q, i, p);
    }
  }

  /** Only which patterns a rule has matters, not their order. */
  lemma PatternOrderDoesNotMatter(rules: seq<Rule>, other: seq<Rule>, r: Reading, tier: string)
    requires |rules| == |other|
    requires forall i :: 0 <= i < |rules| ==>
               rules[i].tier == other[i].tier && multiset(rules[i].patterns) == multiset(other[i].patterns)
    ensures Best(rules, r, tier) <==> Best(other, r, tier)
  {
    hide Best;
    forall i: nat, pattern ensures HasPattern(rules, i, pattern) <==> HasPattern(other, i, pattern) {
      if i < |rules| {
        SameMembers(rules[i].patterns, other[i].patterns);
      }
    }
    if Best(rules, r, tier) {
      BestOfSameReading(rules, other, r, r, tier);
    }
    if Best(other, r, tier) {
      BestOfSameReading(other, rules, r, r, tier);
    }
  }

  // ---------------------------------------------------------------------
  // The scan.
  // ---------------------------------------------------------------------

  function GoReading(path: string): Reading {
    Reading(pattern => Fits(Pieces(pattern), path), pattern => ByteLength(Literal(pattern)),
            pattern => ByteLength(pattern))
  }

  predicate AnyClass(rules: seq<Rule>) {
    exists i :: 0 <= i < |rules| && exists j :: 0 <= j < |rules[i].patterns| && HasClass(rules[i].patterns[j])
  }

  /** What the scan keeps: the best match of the patterns seen so far, if any matched. */
  ghost predicate BestSoFar(rules: seq<Rule>, r: Reading, best: Option<Match>) {
    match best
    case None => NoHit(rules, r)
    case Some(m) =>
      && (exists i: nat, pattern :: Hit(rules, r, i, pattern) && MatchOf(rules, r, i, pattern) == m)
      && (forall i: nat, pattern :: Hit(rules, r, i, pattern) ==> !Better(MatchOf(rules, r, i, pattern), m))
  }

  /** The rules before rule i, and the first j patterns of rule i. */
  function Seen(rules: seq<Rule>, i: nat, j: nat): seq<Rule>
    requires i < |rules| && j <= |rules[i].patterns|
  {
    rules[..i] + [rules[i].(patterns := rules[i].patterns[..j])]
  }

  lemma ScanMore(rules: seq<Rule>, r: Reading, i: nat, j: nat, best: Option<Match>)
    requires i < |rules| && j < |rules[i].patterns| && BestSoFar(Seen(rules, i, j), r, best)
    ensures var pattern := rules[i].patterns[j];
            var current := MatchOf(rules, r, i, pattern);
            BestSoFar(Seen(rules, i, j + 1), r,
                      if r.hits(pattern) && (best.None? || Better(current, best.value)) then Some(current) else best)
  {
    var pattern := rules[i].patterns[j];
    var before, after := Seen(rules, i, j), Seen(rules, i, j + 1);
    assert rules[i].patterns[..j + 1] == rules[i].patterns[..j] + [pattern];
    forall k: nat, other
      ensures Hit(after, r, k, other) <==> Hit(before, r, k, other) || (k == i && other == pattern && r.hits(pattern)) {
      assert k < i ==> after[k] == before[k] == rules[k];
    }
    assert forall k: nat, other :: Hit(before, r, k, other) ==>
      MatchOf(after, r, k, other) == MatchOf(before, r, k, other);
    assert r.hits(pattern) ==> MatchOf(after, r, i, pattern) == MatchOf(rules, r, i, pattern);
    BetterIsTransitive();
    if best.Some? {
      var k: nat, other :| Hit(before, r, k, other) && MatchOf(before, r, k, other) == best.value;
      assert Hit(after, r, k, other);
    }
  }

  lemma BetterIsTransitive()
    ensures forall a, b, c :: Better(a, b) && !Better(c, b) ==> !Better(c, a)
  {
  }

  lemma NextRule(rules: seq<Rule>, r: Reading, i: nat, best: Option<Match>)
    requires i < |rules|
    ensures BestSoFar(rules[..i], r, best) ==> BestSoFar(Seen(rules, i, 0), r, best)
    ensures BestSoFar(Seen(rules, i, |rules[i].patterns|), r, best) ==> BestSoFar(rules[..i + 1], r, best)
  {
    assert rules[i].patterns[..|rules[i].patterns|] == rules[i].patterns;
    assert Seen(rules, i, |rules[i].patterns|) == rules[..i + 1];
    var before, after := rules[..i], Seen(rules, i, 0);
    forall k: nat, other ensures Hit(after, r, k, other) <==> Hit(before, r, k, other) {
      assert k < i ==> after[k] == before[k];
    }
    assert forall k: nat, other :: Hit(before, r, k, other) ==>
      MatchOf(after, r, k, other) == MatchOf(before, r, k, other);
  }

  /** trustRouter.classify. */
  method Classify(rules: seq<Rule>, path: string) returns (tier: Option<string>)
    ensures tier.None? <==> AnyClass(rules)
    ensures tier.Some? ==> Best(rules, GoReading(path), tier.value)
  {
    hide Better, HasClass, BestSoFar, Best, Hit, Fits, Literal, ByteLength, Pieces;
    var best: Option<Match> := None;
    ghost var r := GoReading(path);
    NothingSeen(r);
    for i := 0 to |rules|
      invariant BestSoFar(rules[..i], r, best)
      invariant forall k :: 0 <= k < i ==> forall j :: 0 <= j < |rules[k].patterns| ==> !HasClass(rules[k].patterns[j])
    {
      NextRule(rules, r, i, best);
      for j := 0 to |rules[i].patterns|
        invariant BestSoFar(Seen(rules, i, j), r, best)
        invariant forall k :: 0 <= k < j ==> !HasClass(rules[i].patterns[k])
      {
        var pattern := rules[i].patterns[j];
        var matched := FnmatchCase(pattern, path);
        if matched.None? {
          return None;
        }
        ScanMore(rules, r, i, j, best);
        if matched.value {
          var current := Match(ByteLength(Literal(pattern)), ByteLength(pattern), i, rules[i].tier);
          if best.None? || Better(current, best.value) {
            best := Some(current);
          }
        }
      }
      NextRule(rules, r, i, best);
    }
    assert rules[..|rules|] == rules;
    ScanIsBest(rules, r, best);
    return Some(if best.None? then UNCLASSIFIED else best.value.tier);
  }

  lemma NothingSeen(r: Reading)
    ensures BestSoFar([], r, None)
  {
  }

  lemma ScanIsBest(rules: seq<Rule>, r: Reading, best: Option<Match>)
    requires BestSoFar(rules, r, best)
    ensures Best(rules, r, if best.None? then UNCLASSIFIED else best.value.tier)
  {
    if best.Some? {
      var i: nat, pattern :| Hit(rules, r, i, pattern) && MatchOf(rules, r, i, pattern) == best.value;
      assert BestHit(rules, r, i, pattern);
    }
  }

  // ---------------------------------------------------------------------
  // The sort.
  // ---------------------------------------------------------------------

  /** What fnmatch makes of a pattern with a bracket, which may open a character class. */
  type Bracketed = (string, string) -> bool

  function PythonHits(bracketed: Bracketed, pattern: string, path: string): bool {
    if '[' in pattern then bracketed(pattern, path) else Glob(pattern, path)
  }

  function PythonReading(bracketed: Bracketed, path: string): Reading {
    Reading(pattern => PythonHits(bracketed, pattern, path), pattern => |PythonLiteral(pattern)|, pattern => |pattern|)
  }

  /** The order of Python's tuples: literal length, length, minus the index, tier. */
  predicate Above(a: Match, b: Match) {
    Better(a, b) || (!Better(b, a) && CompareStrings(a.tier, b.tier) > 0)
  }

  lemma AboveIsOrder(a: Match, b: Match, c: Match)
    ensures Above(a, b) && !Above(c, b) ==> !Above(c, a)
    ensures !(Above(a, b) && Above(b, a))
  {
    hide CompareStrings;
    CompareStringsOrder(b.tier, a.tier, c.tier);
    CompareStringsOrder(c.tier, b.tier, a.tier);
  }

  predicate Descending(s: seq<Match>) {
    forall i, j :: 0 <= i < j < |s| ==> !Above(s[j], s[i])
  }

  /** list.sort(reverse=True), here by insertion. */
  method SortDescending(matches: seq<Match>) returns (sorted: seq<Match>)
    ensures multiset(sorted) == multiset(matches) && Descending(sorted)
  {
    hide Descending, Above;
    sorted := [];
    NothingDescends();
    for i := 0 to |matches|
      invariant multiset(sorted) == multiset(matches[..i]) && Descending(sorted)
    {
      assert matches[..i + 1] == matches[..i] + [matches[i]];
      sorted := InsertDescending(sorted, matches[i]);
    }
    assert matches[..|matches|] == matches;
  }

  lemma NothingDescends()
    ensures Descending([])
  {
  }

  method InsertDescending(sorted: seq<Match>, m: Match) returns (out: seq<Match>)
    requires Descending(sorted)
    ensures multiset(out) == multiset(sorted) + multiset{m} && Descending(out)
  {
    hide Above, Descending;
    var at := 0;
    while at < |sorted| && !Above(m, sorted[at])
      invariant 0 <= at <= |sorted|
      invariant forall k :: 0 <= k < at ==> !Above(m, sorted[k])
    {
      at := at + 1;
    }
    InsertedDescends(sorted, m, at);
    out := sorted[..at] + [m] + sorted[at..];
    assert sorted == sorted[..at] + sorted[at..];
  }

  lemma InsertedDescends(sorted: seq<Match>, m: Match, at: nat)
    requires Descending(sorted) && at <= |sorted| && (at < |sorted| ==> Above(m, sorted[at]))
    requires forall k :: 0 <= k < at ==> !Above(m, sorted[k])
    ensures Descending(sorted[..at] + [m] + sorted[at..])
  {
    hide Above;
    forall k | at <= k < |sorted| ensures !Above(sorted[k], m) {
      AboveIsOrder(m, sorted[at], sorted[k]);
    }
  }

  /** classify of trust-policy.py. */
  method ClassifyBySorting(rules: seq<Rule>, bracketed: Bracketed, path: string) returns (tier: string)
    ensures Best(rules, PythonReading(bracketed, path), tier)
  {
    hide Better, Above, Descending, Best, Hit, MatchOf, PythonHits, PythonLiteral;
    ghost var r := PythonReading(bracketed, path);
    var matches: seq<Match> := [];
    NothingCollected(r);
    for i := 0 to |rules|
      invariant AllHits(rules[..i], r, matches)
    {
      CollectNextRule(rules, r, i, matches);
      for j := 0 to |rules[i].patterns|
        invariant AllHits(Seen(rules, i, j), r, matches)
      {
        var pattern := rules[i].patterns[j];
        CollectMore(rules, r, i, j, matches);
        if PythonHits(bracketed, pattern, path) {
          matches := matches + [Match(|PythonLiteral(pattern)|, |pattern|, i, rules[i].tier)];
          MatchIs(rules, bracketed, path, i, pattern);
        }
      }
      CollectNextRule(rules, r, i, matches);
    }
    assert rules[..|rules|] == rules;
    if matches == [] {
      NothingMatched(rules, r);
      return UNCLASSIFIED;
    }
    var sorted := SortDescending(matches);
    FirstIsBest(rules, r, matches, sorted);
    return sorted[0].tier;
  }

  lemma MatchIs(rules: seq<Rule>, bracketed: Bracketed, path: string, i: nat, pattern: string)
    requires i < |rules|
    ensures MatchOf(rules, PythonReading(bracketed, path), i, pattern) ==
              Match(|PythonLiteral(pattern)|, |pattern|, i, rules[i].tier)
  {
  }

  ghost predicate Matched(rules: seq<Rule>, r: Reading, m: Match) {
    exists i: nat, pattern :: Hit(rules, r, i, pattern) && MatchOf(rules, r, i, pattern) == m
  }

  ghost predicate AllHits(rules: seq<Rule>, r: Reading, matches: seq<Match>) {
    forall m :: m in matches <==> Matched(rules, r, m)
  }

  lemma NothingCollected(r: Reading)
    ensures AllHits([], r, [])
  {
  }

  lemma CollectNextRule(rules: seq<Rule>, r: Reading, i: nat, matches: seq<Match>)
    requires i < |rules|
    ensures AllHits(rules[..i], r, matches) ==> AllHits(Seen(rules, i, 0), r, matches)
    ensures AllHits(Seen(rules, i, |rules[i].patterns|), r, matches) ==> AllHits(rules[..i + 1], r, matches)
  {
    assert rules[i].patterns[..|rules[i].patterns|] == rules[i].patterns;
    assert Seen(rules, i, |rules[i].patterns|) == rules[..i + 1];
    var before, after := rules[..i], Seen(rules, i, 0);
    forall k: nat, other ensures Hit(after, r, k, other) <==> Hit(before, r, k, other) {
      assert k < i ==> after[k] == before[k];
    }
    assert forall k: nat, other :: Hit(before, r, k, other) ==>
      MatchOf(after, r, k, other) == MatchOf(before, r, k, other);
    forall m ensures Matched(before, r, m) <==> Matched(after, r, m) {
    }
  }

  lemma CollectMore(rules: seq<Rule>, r: Reading, i: nat, j: nat, matches: seq<Match>)
    requires i < |rules| && j < |rules[i].patterns| && AllHits(Seen(rules, i, j), r, matches)
    ensures var pattern := rules[i].patterns[j];
            AllHits(Seen(rules, i, j + 1), r, if r.hits(pattern) then matches + [MatchOf(rules, r, i, pattern)]
                                              else matches)
  {
    var pattern := rules[i].patterns[j];
    var before, after := Seen(rules, i, j), Seen(rules, i, j + 1);
    assert rules[i].patterns[..j + 1] == rules[i].patterns[..j] + [pattern];
    forall k: nat, other
      ensures Hit(after, r, k, other) <==> Hit(before, r, k, other) || (k == i && other == pattern && r.hits(pattern)) {
      assert k < i ==> after[k] == before[k] == rules[k];
    }
    assert forall k: nat, other :: Hit(before, r, k, other) ==>
      MatchOf(after, r, k, other) == MatchOf(before, r, k, other);
    forall m
      ensures Matched(after, r, m) <==>
                Matched(before, r, m) || (r.hits(pattern) && m == MatchOf(rules, r, i, pattern)) {
      if r.hits(pattern) && m == MatchOf(rules, r, i, pattern) {
        assert Hit(after, r, i, pattern) && MatchOf(after, r, i, pattern) == m;
      }
    }
  }

  lemma NothingMatched(rules: seq<Rule>, r: Reading)
    requires AllHits(rules, r, [])
    ensures Best(rules, r, UNCLASSIFIED)
  {
    forall i: nat, pattern ensures !Hit(rules, r, i, pattern) {
      if i < |rules| {
        assert !Matched(rules, r, MatchOf(rules, r, i, pattern));
      }
    }
  }

  lemma FirstIsBest(rules: seq<Rule>, r: Reading, matches: seq<Match>, sorted: seq<Match>)
    requires AllHits(rules, r, matches) && matches != []
    requires multiset(sorted) == multiset(matches) && Descending(sorted)
    ensures sorted != [] && Best(rules, r, sorted[0].tier)
  {
    hide MatchOf;
    SameMembers(sorted, matches);
    var first := sorted[0];
    assert first in matches;
    var i: nat, pattern :| Hit(rules, r, i, pattern) && MatchOf(rules, r, i, pattern) == first;
    forall k: nat, other | Hit(rules, r, k, other) ensures !Better(MatchOf(rules, r, k, other), first) {
      var m := MatchOf(rules, r, k, other);
      assert Matched(rules, r, m);
      assert m in sorted;
    }
    TierOfMatch(rules, r, i, pattern);
    assert BestHit(rules, r, i, pattern);
  }

  lemma TierOfMatch(rules: seq<Rule>, r: Reading, i: nat, pattern: string)
    requires i < |rules|
    ensures MatchOf(rules, r, i, pattern).tier == rules[i].tier
  {
  }

  // ---------------------------------------------------------------------
  // Agreement.
  // ---------------------------------------------------------------------

  /** On ASCII patterns without brackets and paths without line feeds, scan and sort choose the same tier. */
  lemma ImplementationsAgree(rules: seq<Rule>, bracketed: Bracketed, path: string, scanned: string, sorted: string)
    requires forall i :: 0 <= i < |rules| ==> forall j :: 0 <= j < |rules[i].patterns| ==> Ascii(rules[i].patterns[j])
    requires !AnyClass(rules) && '\n' !in path
    requires Best(rules, GoReading(path), scanned) && Best(rules, PythonReading(bracketed, path), sorted)
    ensures scanned == sorted
  {
    hide Best, Glob, Fits, Literal, PythonLiteral, ByteLength, Ascii, Pieces;
    forall i: nat, pattern | HasPattern(rules, i, pattern)
      ensures GoReading(path).hits(pattern) == PythonReading(bracketed, path).hits(pattern)
      ensures GoReading(path).literal(pattern) == PythonReading(bracketed, path).literal(pattern)
      ensures GoReading(path).length(pattern) == PythonReading(bracketed, path).length(pattern)
    {
      var j :| 0 <= j < |rules[i].patterns| && rules[i].patterns[j] == pattern;
      SameReading(pattern, path);
      assert !HasClass(rules[i].patterns[j]);
    }
    BestOfSameReading(rules, rules, GoReading(path), PythonReading(bracketed, path), scanned);
    BestIsUnique(rules, PythonReading(bracketed, path), scanned, sorted);
  }

  lemma SameReading(pattern: string, path: string)
    requires Ascii(pattern) && '\n' !in path
    ensures Fits(Pieces(pattern), path) <==> Glob(pattern, path)
    ensures ByteLength(Literal(pattern)) == |PythonLiteral(pattern)| && ByteLength(pattern) == |pattern|
  {
    hide Glob, Fits, Literal, PythonLiteral, ByteLength;
    FitsIsGlob(pattern, path);
    LiteralsAgree(pattern);
    LiteralIsAscii(pattern);
    ByteLengthAscii(pattern);
    ByteLengthAscii(Literal(pattern));
  }

  // ---------------------------------------------------------------------
  // Exactly when they agree.
  // ---------------------------------------------------------------------

  /** There is always a best tier. */
  lemma BestExists(rules: seq<Rule>, r: Reading) returns (tier: string)
    ensures Best(rules, r, tier)
  {
    hide Better, BestSoFar, Best;
    var best: Option<Match> := None;
    NothingSeen(r);
    for i := 0 to |rules|
      invariant BestSoFar(rules[..i], r, best)
    {
      NextRule(rules, r, i, best);
      for j := 0 to |rules[i].patterns|
        invariant BestSoFar(Seen(rules, i, j), r, best)
      {
        var pattern := rules[i].patterns[j];
        var current := MatchOf(rules, r, i, pattern);
        ScanMore(rules, r, i, j, best);
        best := if r.hits(pattern) && (best.None? || Better(current, best.value)) then Some(current) else best;
      }
      NextRule(rules, r, i, best);
    }
    assert rules[..|rules|] == rules;
    ScanIsBest(rules, r, best);
    return if best.None? then UNCLASSIFIED else best.value.tier;
  }

  /** Both readings choose the same tier. */
  ghost predicate Alike(rules: seq<Rule>, r: Reading, q: Reading) {
    exists tier :: Best(rules, r, tier) && Best(rules, q, tier)
  }

  /** The rule lists of a router whose patterns are of one family. */
  ghost predicate Over(rules: seq<Rule>, family: iset<string>) {
    forall i: nat, pattern :: HasPattern(rules, i, pattern) ==> pattern in family
  }

  /** What the loader accepts: known tiers, some rule, some pattern in each, no pattern empty or given twice. */
  ghost predicate Loadable(rules: seq<Rule>) {
    && rules != []
    && (forall i :: 0 <= i < |rules| ==> rules[i].tier in TIERS && rules[i].patterns != [])
    && (forall i: nat, pattern :: HasPattern(rules, i, pattern) ==> pattern != "" && !HasClass(pattern))
    && (forall i: nat, k: nat, pattern :: HasPattern(rules, i, pattern) && HasPattern(rules, k, pattern) ==> i == k)
    && (forall i :: 0 <= i < |rules| ==> NoDuplicates(rules[i].patterns))
  }

  /** One pattern is more specific than another, whatever their rules. */
  predicate Outranks(r: Reading, one: string, two: string) {
    || r.literal(one) > r.literal(two)
    || (r.literal(one) == r.literal(two) && r.length(one) > r.length(two))
  }

  /** Each pattern of the family hits for both or for neither, and those that hit are ranked alike. */
  ghost predicate RanksAlike(family: iset<string>, r: Reading, q: Reading) {
    && (forall p :: p in family ==> r.hits(p) == q.hits(p))
    && (forall one, two :: one in family && two in family && r.hits(one) && r.hits(two) ==>
          Outranks(r, one, two) == Outranks(q, one, two))
  }

  lemma RankedAlikeIsAlike(rules: seq<Rule>, family: iset<string>, r: Reading, q: Reading)
    requires Over(rules, family) && RanksAlike(family, r, q)
    ensures Alike(rules, r, q)
  {
    var tier := BestExists(rules, r);
    forall i: nat, pattern ensures Hit(rules, r, i, pattern) <==> Hit(rules, q, i, pattern) {
      assert i < |rules| && pattern in rules[i].patterns ==> HasPattern(rules, i, pattern);
    }
    if !NoHit(rules, r) {
      var i: nat, p :| BestHit(rules, r, i, p) && tier == rules[i].tier;
      forall k: nat, other | Hit(rules, q, k, other)
        ensures !Better(MatchOf(rules, q, k, other), MatchOf(rules, q, i, p)) {
        assert Hit(rules, r, k, other) && HasPattern(rules, k, other) && HasPattern(rules, i, p);
        assert Outranks(r, other, p) == Outranks(q, other, p) && Outranks(r, p, other) == Outranks(q, p, other);
        assert !Better(MatchOf(rules, r, k, other), MatchOf(rules, r, i, p));
      }
      assert BestHit(rules, q, i, p);
    }
    assert Best(rules, q, tier);
  }

  /** A pattern that hits for one only, alone in a router. */
  lemma HitApart(pattern: string, r: Reading, q: Reading)
    requires r.hits(pattern) && !q.hits(pattern) && pattern != "" && !HasClass(pattern)
    ensures var rules := [Rule("canonical", [pattern])];
            && Loadable(rules) && Over(rules, iset{pattern})
            && Best(rules, r, "canonical") && Best(rules, q, UNCLASSIFIED)
            && !Alike(rules, r, q) && !Alike(rules, q, r)
  {
    var rules := [Rule("canonical", [pattern])];
    assert Hit(rules, r, 0, pattern);
    forall k: nat, other | Hit(rules, r, k, other) ensures k == 0 && other == pattern {
    }
    assert BestHit(rules, r, 0, pattern);
    assert NoHit(rules, q);
    NotAlike(rules, r, q, "canonical", UNCLASSIFIED);
  }

  lemma NotAlike(rules: seq<Rule>, r: Reading, q: Reading, one: string, two: string)
    requires Best(rules, r, one) && Best(rules, q, two) && one != two
    ensures !Alike(rules, r, q) && !Alike(rules, q, r)
  {
    hide Best;
    forall tier ensures !(Best(rules, r, tier) && Best(rules, q, tier)) {
      if Best(rules, r, tier) && Best(rules, q, tier) {
        BestIsUnique(rules, r, one, tier);
        BestIsUnique(rules, q, two, tier);
      }
    }
  }

  /** Two patterns ranked differently, the one that only `r` puts first in the later rule. */
  lemma RankApart(one: string, two: string, r: Reading, q: Reading)
    requires r.hits(one) && r.hits(two) && q.hits(one) && q.hits(two)
    requires Outranks(r, one, two) && !Outranks(q, one, two)
    requires one != "" && two != "" && !HasClass(one) && !HasClass(two)
    ensures var rules := [Rule("canonical", [two]), Rule("archived", [one])];
            && Loadable(rules) && Over(rules, iset{one, two})
            && Best(rules, r, "archived") && Best(rules, q, "canonical")
            && !Alike(rules, r, q) && !Alike(rules, q, r)
  {
    var rules := [Rule("canonical", [two]), Rule("archived", [one])];
    OnlyTwoPatterns(rules, two, one);
    TwoPatternsBest(rules, r, two, one, 1);
    TwoPatternsBest(rules, q, two, one, 0);
    NotAlike(rules, r, q, "archived", "canonical");
  }

  lemma OverMore(rules: seq<Rule>, some: iset<string>, family: iset<string>)
    requires Over(rules, some) && some <= family
    ensures Over(rules, family)
  {
  }

  /**
   * For every family of patterns a loader takes: all rule lists over it, and already all routers over it, are
   * classified alike if and only if its patterns hit alike and those that hit are ranked alike.
   */
  lemma AlikeExactly(family: iset<string>, r: Reading, q: Reading)
    requires forall p :: p in family ==> p != "" && !HasClass(p)
    ensures (forall rules :: Over(rules, family) ==> Alike(rules, r, q)) <==> RanksAlike(family, r, q)
    ensures (forall rules :: Loadable(rules) && Over(rules, family) ==> Alike(rules, r, q))
            <==> RanksAlike(family, r, q)
  {
    hide Over, Alike, Loadable, Best, Outranks;
    if RanksAlike(family, r, q) {
      forall rules | Over(rules, family) ensures Alike(rules, r, q) {
        RankedAlikeIsAlike(rules, family, r, q);
      }
    } else {
      var rules := SetApart(family, r, q);
      assert Loadable(rules) && Over(rules, family) && !Alike(rules, r, q);
    }
  }

  lemma SetApart(family: iset<string>, r: Reading, q: Reading) returns (rules: seq<Rule>)
    requires forall p :: p in family ==> p != "" && !HasClass(p)
    requires !RanksAlike(family, r, q)
    ensures Loadable(rules) && Over(rules, family) && !Alike(rules, r, q)
  {
    hide Over, Alike, Loadable, Best, Outranks, HasClass;
    if p :| p in family && r.hits(p) != q.hits(p) {
      if r.hits(p) {
        HitApart(p, r, q);
      } else {
        HitApart(p, q, r);
      }
      rules := [Rule("canonical", [p])];
      OverMore(rules, iset{p}, family);
    } else {
      var one, two :| one in family && two in family && r.hits(one) && r.hits(two)
                      && Outranks(r, one, two) != Outranks(q, one, two);
      if Outranks(r, one, two) {
        RankApart(one, two, r, q);
      } else {
        RankApart(one, two, q, r);
      }
      rules := [Rule("canonical", [two]), Rule("archived", [one])];
      OverMore(rules, iset{one, two}, family);
    }
  }

  /**
   * On a path without line feeds the two classifiers agree on all routers over a family exactly when any two of its
   * patterns that match the path rank the same counted in bytes and counted in characters.
   */
  lemma AgreeExactlyByRank(family: iset<string>, bracketed: Bracketed, path: string)
    requires '\n' !in path && forall p :: p in family ==> p != "" && !HasClass(p)
    ensures (forall rules :: Loadable(rules) && Over(rules, family) ==>
               Alike(rules, GoReading(path), PythonReading(bracketed, path)))
            <==> forall one, two :: one in family && two in family && Glob(one, path) && Glob(two, path) ==>
                   (Outranks(GoReading(path), one, two) <==> Outranks(PythonReading(bracketed, path), one, two))
  {
    hide Over, Alike, Loadable, Outranks, Glob, Fits, Pieces, Literal, PythonLiteral, ByteLength;
    forall p | p in family
      ensures GoReading(path).hits(p) == Glob(p, path) == PythonReading(bracketed, path).hits(p) {
      FitsIsGlob(p, path);
    }
    AlikeExactly(family, GoReading(path), PythonReading(bracketed, path));
  }

  /** Patterns of ASCII characters without brackets. */
  ghost function AsciiPatterns(): iset<string> {
    iset p: string | p != "" && !HasClass(p) && Ascii(p)
  }

  lemma AsciiRanksAlike(bracketed: Bracketed, path: string)
    requires '\n' !in path
    ensures RanksAlike(AsciiPatterns(), GoReading(path), PythonReading(bracketed, path))
  {
    hide Glob, Fits, Pieces, Literal, PythonLiteral, ByteLength, Ascii;
    forall p | p in AsciiPatterns()
      ensures GoReading(path).hits(p) == PythonReading(bracketed, path).hits(p)
      ensures GoReading(path).literal(p) == PythonReading(bracketed, path).literal(p)
      ensures GoReading(path).length(p) == PythonReading(bracketed, path).length(p) {
      SameReading(p, path);
    }
  }

  /** The two classifiers agree on all routers of ASCII patterns exactly on the paths without line feeds. */
  lemma AgreeExactlyWithoutLineFeeds(bracketed: Bracketed, path: string)
    ensures (forall rules :: Loadable(rules) && Over(rules, AsciiPatterns()) ==>
               Alike(rules, GoReading(path), PythonReading(bracketed, path)))
            <==> '\n' !in path
  {
    hide Over, Alike, Loadable, GoReading, PythonReading, RanksAlike, Ascii;
    if '\n' !in path {
      AsciiRanksAlike(bracketed, path);
      AlikeExactly(AsciiPatterns(), GoReading(path), PythonReading(bracketed, path));
    } else {
      LineFeedsDiffer(bracketed, path);
      StarIsAscii();
      OverMore([Rule("canonical", ["*"])], iset{"*"}, AsciiPatterns());
    }
  }

  /** Every path with a line feed is canonical for one and unclassified for the other, under one rule for all paths. */
  lemma LineFeedsDiffer(bracketed: Bracketed, path: string)
    requires '\n' in path
    ensures var rules := [Rule("canonical", ["*"])];
            && Loadable(rules) && Over(rules, iset{"*"})
            && Best(rules, GoReading(path), UNCLASSIFIED) && Best(rules, PythonReading(bracketed, path), "canonical")
            && !Alike(rules, GoReading(path), PythonReading(bracketed, path))
  {
    hide Best, Loadable, Over, Alike, ByteLength, Literal, PythonLiteral;
    StarHits(path);
    HitApart("*", PythonReading(bracketed, path), GoReading(path));
  }

  lemma StarIsAscii()
    ensures "*" in AsciiPatterns()
  {
  }

  lemma StarHits(path: string)
    requires '\n' in path
    ensures Glob("*", path) && !Fits(Pieces("*"), path)
  {
    assert "*"[1..] == "" && path[|path|..] == "" && Glob("*"[1..], path[|path|..]);
    assert Pieces("*")[1..] == [] && Pieces("*")[0] == DotStar;
    forall k | 0 <= k <= |path| && Fits(Pieces("*")[1..], path[k..]) ensures '\n' in path[..k] {
      assert path[k..] == "" && path[..k] == path;
    }
  }

  lemma AccentedHits()
    ensures Glob("*a", "\U{E9}a") && Glob("\U{E9}*", "\U{E9}a")
    ensures Fits(Pieces("*a"), "\U{E9}a") && Fits(Pieces("\U{E9}*"), "\U{E9}a")
  {
    assert "\U{E9}a"[1..] == "a" && "*a"[1..] == "a" && "a"[1..] == "" && "\U{E9}*"[1..] == "*" && "*"[1..] == "";
    assert Glob("a", "a");
    assert "a"[1..] == "" && Glob("*"[1..], "a"[1..]);
    assert Glob("*", "a");
    FitsIsGlob("*a", "\U{E9}a");
    FitsIsGlob("\U{E9}*", "\U{E9}a");
  }

  lemma AccentedLengths()
    ensures Literal("*a") == "a" && Literal("\U{E9}*") == "\U{E9}"
    ensures ByteLength("a") == 1 && ByteLength("*a") == 2 && ByteLength("\U{E9}") == 2 && ByteLength("\U{E9}*") == 3
    ensures |PythonLiteral("*a")| == |PythonLiteral("\U{E9}*")| == 1
  {
    hide PythonLiteral;
    assert "*a"[1..] == "a" && "a"[1..] == "" && "\U{E9}*"[1..] == "*" && "*"[1..] == "";
    LiteralsAgree("*a");
    LiteralsAgree("\U{E9}*");
    ByteLengthAscii("a");
    ByteLengthAscii("*a");
    assert "\U{E9}"[..0] == "" && "\U{E9}*"[..1] == "\U{E9}";
    assert ByteLength("") == 0 && ByteLength("\U{E9}") == 2;
  }

  /** Outside ASCII they can differ: bytes count for one and characters for the other. */
  lemma AccentedPatternsDiffer(bracketed: Bracketed)
    ensures var rules := [Rule("canonical", ["*a"]), Rule("archived", ["\U{E9}*"])];
            && Best(rules, GoReading("\U{E9}a"), "archived")
            && Best(rules, PythonReading(bracketed, "\U{E9}a"), "canonical")
  {
    var rules := [Rule("canonical", ["*a"]), Rule("archived", ["\U{E9}*"])];
    hide Glob, Fits, Pieces, Literal, ByteLength, PythonLiteral;
    AccentedHits();
    AccentedLengths();
    OnlyTwoPatterns(rules, "*a", "\U{E9}*");
    TwoPatternsBest(rules, GoReading("\U{E9}a"), "*a", "\U{E9}*", 1);
    TwoPatternsBest(rules, PythonReading(bracketed, "\U{E9}a"), "*a", "\U{E9}*", 0);
  }

  lemma OnlyTwoPatterns(rules: seq<Rule>, p: string, q: string)
    requires |rules| == 2 && rules[0].patterns == [p] && rules[1].patterns == [q]
    ensures forall i: nat, pattern :: HasPattern(rules, i, pattern) ==>
              (i == 0 && pattern == p) || (i == 1 && pattern == q)
  {
  }

  lemma TwoPatternsBest(rules: seq<Rule>, r: Reading, p: string, q: string, best: nat)
    requires |rules| == 2 && rules[0].patterns == [p] && rules[1].patterns == [q] && r.hits(p) && r.hits(q) && best < 2
    requires forall i: nat, pattern :: HasPattern(rules, i, pattern) ==>
               (i == 0 && pattern == p) || (i == 1 && pattern == q)
    requires if best == 0 then !Better(MatchOf(rules, r, 1, q), MatchOf(rules, r, 0, p))
             else !Better(MatchOf(rules, r, 0, p), MatchOf(rules, r, 1, q))
    ensures Best(rules, r, rules[best].tier)
  {
    var pattern := if best == 0 then p else q;
    assert forall i: nat, other :: Hit(rules, r, i, other) ==> HasPattern(rules, i, other);
    assert BestHit(rules, r, best, pattern);
  }
}
