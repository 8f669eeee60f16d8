/** Observed relationships between a canonical repository and its mirrors, and the policy over them. */
module MirrorStatus {
  import opened Text
  import opened CommitGraph

  datatype State = Equal | Behind | Ahead | Diverged | ErrorState | OtherState(name: string)

  // ---------------------------------------------------------------------
  // Counts.
  // ---------------------------------------------------------------------

  /** What git rev-list --left-right --count prints. */
  function RevListOutput(left: nat, right: nat): string {
    Numeral(left) + "\t" + Numeral(right) + "\n"
  }

  const MAX_INT := 0x7FFF_FFFF_FFFF_FFFF

  /** strconv.Atoi on a 64-bit platform. */
  function Atoi(s: string): Option<int> {
    var n := ParseInteger(s);
    if n.Some? && -MAX_INT - 1 <= n.value <= MAX_INT then n else None
  }

  function ParseRevListCount(output: string): Option<(int, int)> {
    var fields := Fields(output);
    if |fields| != 2 || Atoi(fields[0]).None? || Atoi(fields[1]).None? then None
    else Some((Atoi(fields[0]).value, Atoi(fields[1]).value))
  }

  lemma AtoiOfNumeral(n: nat)
    ensures ParseInteger(Numeral(n)) == Some(n)
    ensures n <= MAX_INT ==> Atoi(Numeral(n)) == Some(n)
  {
    NumeralDenotes(n);
    assert IsDigit(Numeral(n)[0]);
  }

  /** Reading undoes printing, up to the width of an int. */
  lemma CountsRoundTrip(left: nat, right: nat)
    requires left <= MAX_INT && right <= MAX_INT
    ensures ParseRevListCount(RevListOutput(left, right)) == Some((left as int, right as int))
  {
    hide Numeral, Fields;
    var l, r := Numeral(left), Numeral(right);
    forall d | AllDigits(d) ensures forall i :: 0 <= i < |d| ==> !IsSpace(d[i]) {
    }
    FieldOf(l, '\t', r + "\n");
    FieldOf(r, '\n', "");
    NoFields();
    assert RevListOutput(left, right) == l + ['\t'] + (r + "\n");
    assert r + "\n" == r + ['\n'] + "";
    AtoiOfNumeral(left);
    AtoiOfNumeral(right);
  }

  lemma NoFields()
    ensures Fields("") == []
  {
  }

  // ---------------------------------------------------------------------
  // Divergence.
  // ---------------------------------------------------------------------

  datatype Divergence = Divergence(state: State, ahead: int, behind: int)

  function InterpretDivergence(left: int, right: int): Divergence {
    var state :=
      if left == 0 && right == 0 then Equal
      else if left > 0 && right == 0 then Behind
      else if left == 0 && right > 0 then Ahead
      else Diverged;
    Divergence(state, right, left)
  }

  /** The relationship of a mirror head to the canonical head, from ancestry alone. */
  ghost function Relationship(g: Graph, canonical: Oid, mirror: Oid): State {
    if mirror == canonical then Equal
    else if Ancestor(g, mirror, canonical) then Behind
    else if Ancestor(g, canonical, mirror) then Ahead
    else Diverged
  }

  /** Counting the two sides classifies every pair of commits correctly. */
  lemma CountsClassify(g: Graph, canonical: Oid, mirror: Oid)
    requires Acyclic(g) && canonical in g.parents && mirror in g.parents
    ensures InterpretDivergence(OnlyLeft(g, canonical, mirror), OnlyLeft(g, mirror, canonical)).state
         == Relationship(g, canonical, mirror)
  {
    NothingOfItsOwn(g, canonical, mirror);
    NothingOfItsOwn(g, mirror, canonical);
    AncestorReflexive(g, canonical);
    if Ancestor(g, canonical, mirror) && Ancestor(g, mirror, canonical) {
      AncestorAntisymmetric(g, canonical, mirror);
    }
  }

  // ---------------------------------------------------------------------
  // Policy.
  // ---------------------------------------------------------------------

  datatype Policy = Policy(version: int, scope: string, destructive: string)

  const SCOPE := "default-branch-only"
  const REQUIRE_FORCE := "require-force"

  /** The secure defaults fill what is left out; anything else is refused. */
  function Normalize(p: Policy): Option<Policy> {
    var filled := Policy(
      if p.version == 0 then 1 else p.version,
      if p.scope == "" then SCOPE else p.scope,
      if p.destructive == "" then REQUIRE_FORCE else p.destructive);
    if filled.version != 1 || filled.scope != SCOPE || filled.destructive != REQUIRE_FORCE then None else Some(filled)
  }

  /** What is accepted is the one policy there is, with any part of it left out. */
  lemma OnePolicy(p: Policy)
    ensures Normalize(p).Some? <==>
              && p.version in {0, 1} && p.scope in {"", "default-branch-only"}
              && p.destructive in {"", "require-force"}
    ensures Normalize(p).Some? ==> Normalize(p).value == Policy(1, "default-branch-only", "require-force")
  {
  }

  datatype Decision = Decision(action: bool, force: bool, reason: string)

  function Decide(p: Policy, state: State): Option<Decision> {
    if Normalize(p).None? then None
    else match state
      case Equal => Some(Decision(false, false, ""))
      case Behind => Some(Decision(true, false, "mirror is behind"))
      case Ahead => Some(Decision(true, true, "mirror is ahead"))
      case Diverged => Some(Decision(true, true, "mirror is diverged"))
      case ErrorState => None
      case OtherState(_) => None
  }

  /** A push that replaces `from` by `to` loses no commit. */
  ghost predicate FastForward(g: Graph, from: Oid, to: Oid) {
    Ancestor(g, from, to)
  }

  /** Every pair of heads is decided; something is done exactly when they differ, forced exactly when it must be. */
  lemma ForcedExactlyWhenNotFastForward(g: Graph, canonical: Oid, mirror: Oid, p: Policy)
    requires Acyclic(g) && canonical in g.parents && mirror in g.parents
    requires Normalize(p).Some?
    ensures var d :=
              Decide(p, InterpretDivergence(OnlyLeft(g, canonical, mirror), OnlyLeft(g, mirror, canonical)).state);
            && d.Some?
            && (d.value.action <==> mirror != canonical)
            && (d.value.force <==> !FastForward(g, mirror, canonical))
  {
    hide Acyclic, Ancestor, OnlyLeft, InterpretDivergence, Normalize;
    CountsClassify(g, canonical, mirror);
    AncestorReflexive(g, canonical);
  }

  // ---------------------------------------------------------------------
  // Observation.
  // ---------------------------------------------------------------------

  /** What Git answered for one remote: its head and the counts against the canonical head, or a failure. */
  datatype Fetched = Fetched(head: Oid, short: string, counts: string) | FetchFailed(message: string)

  datatype MirrorResult = MirrorResult(
    target: string, commit: string, state: State, ahead: int, behind: int, error: string)

  datatype RepositoryResult = RepositoryResult(
    id: string, uid: string, commit: string, mirrors: seq<MirrorResult>, error: string)

  function Observe(target: string, fetched: Fetched): MirrorResult {
    match fetched
    case FetchFailed(message) => MirrorResult(target, "", ErrorState, 0, 0, message)
    case Fetched(_, short, counts) =>
      var parsed := ParseRevListCount(counts);
      if parsed.None? then MirrorResult(target, "", ErrorState, 0, 0, "parse mirror divergence")
      else
        var d := InterpretDivergence(parsed.value.0, parsed.value.1);
        MirrorResult(target, TrimSpace(short), d.state, d.ahead, d.behind, "")
  }

  /** A configured mirror: one whose identity cannot be derived, or one that was asked for. */
  datatype Probe = Unidentified(message: string) | Probe(target: string, fetched: Fetched)

  function ObserveProbe(p: Probe): MirrorResult {
    match p
    case Unidentified(message) => MirrorResult("", "", ErrorState, 0, 0, message)
    case Probe(target, fetched) => Observe(target, fetched)
  }

  /** The errors that are joined, in configuration order: each names the target it belongs to, when there is one. */
  function Complaints(mirrors: seq<Probe>): seq<string> {
    if mirrors == [] then []
    else
      var front, last := Complaints(mirrors[..|mirrors| - 1]), mirrors[|mirrors| - 1];
      if ObserveProbe(last).state != ErrorState then front
      else if last.Unidentified? then front + [last.message]
      else front + [last.target + ": " + ObserveProbe(last).error]
  }

  /** Every complaint is about one mirror: its message when it has no identity, else its target and its error. */
  lemma {:induction false} ComplaintsSay(mirrors: seq<Probe>)
    ensures forall e :: e in Complaints(mirrors) ==> exists i :: 0 <= i < |mirrors| && ComplainsOf(mirrors[i], e)
    ensures forall i :: 0 <= i < |mirrors| && ObserveProbe(mirrors[i]).state == ErrorState ==>
              exists e :: e in Complaints(mirrors) && ComplainsOf(mirrors[i], e)
    ensures |Complaints(mirrors)| <= |mirrors|
  {
    hide ObserveProbe;
    if mirrors != [] {
      var last := |mirrors| - 1;
      ComplaintsSay(mirrors[..last]);
      assert forall i :: 0 <= i < last ==> mirrors[..last][i] == mirrors[i];
      if ObserveProbe(mirrors[last]).state == ErrorState {
        var e := Complaints(mirrors)[|Complaints(mirrors)| - 1];
        assert e in Complaints(mirrors) && ComplainsOf(mirrors[last], e);
      }
    }
  }

  predicate ComplainsOf(p: Probe, e: string) {
    match p
    case Unidentified(message) => e == message
    case Probe(target, _) => e == target + ": " + ObserveProbe(p).error
  }

  /** Nothing is reported exactly when every mirror was observed. */
  lemma {:induction false} NoComplaint(mirrors: seq<Probe>)
    ensures Complaints(mirrors) == [] <==>
              forall i :: 0 <= i < |mirrors| ==> ObserveProbe(mirrors[i]).state != ErrorState
  {
    hide ObserveProbe;
    if mirrors != [] {
      var last := |mirrors| - 1;
      NoComplaint(mirrors[..last]);
      assert forall i :: 0 <= i < last ==> mirrors[..last][i] == mirrors[i];
    }
  }

  /** Git's answer about a mirror is true of the commit graph. */
  ghost predicate Truthful(g: Graph, canonical: Oid, fetched: Fetched) {
    && fetched.Fetched? && canonical in g.parents && fetched.head in g.parents
    && OnlyLeft(g, canonical, fetched.head) <= MAX_INT && OnlyLeft(g, fetched.head, canonical) <= MAX_INT
    && fetched.counts == RevListOutput(OnlyLeft(g, canonical, fetched.head), OnlyLeft(g, fetched.head, canonical))
  }

  /** A true answer is reported as the relationship of the two heads, with the commits each side has on its own. */
  lemma ObservedIsRelationship(g: Graph, canonical: Oid, target: string, fetched: Fetched)
    requires Acyclic(g) && Truthful(g, canonical, fetched)
    ensures var m := Observe(target, fetched);
            && m.target == target && m.error == "" && m.commit == TrimSpace(fetched.short)
            && m.state == Relationship(g, canonical, fetched.head)
            && m.behind == OnlyLeft(g, canonical, fetched.head) && m.ahead == OnlyLeft(g, fetched.head, canonical)
  {
    hide ParseRevListCount, RevListOutput;
    CountsRoundTrip(OnlyLeft(g, canonical, fetched.head), OnlyLeft(g, fetched.head, canonical));
    CountsClassify(g, canonical, fetched.head);
  }

  /** What a result says of a mirror: the truth when Git told it, and otherwise what went wrong. */
  ghost predicate Reported(p: Probe, m: MirrorResult) {
    match p
    case Unidentified(message) => m.state == ErrorState && m.error == message
    case Probe(target, FetchFailed(message)) => m.target == target && m.state == ErrorState && m.error == message
    case Probe(target, fetched) => m.target == target && ReportedTruly(fetched, m) && RefusedUnlessCounts(fetched, m)
  }

  /** Anything but two integers is an error. */
  predicate RefusedUnlessCounts(fetched: Fetched, m: MirrorResult)
    requires fetched.Fetched?
  {
    var fields := Fields(fetched.counts);
    m.state == ErrorState && m.error != "" <==> !(|fields| == 2 && Atoi(fields[0]).Some? && Atoi(fields[1]).Some?)
  }

  /** Behind counts what only the canonical side has, ahead what only the mirror has. */
  ghost predicate ReportedTruly(fetched: Fetched, m: MirrorResult) {
    forall g, canonical :: Acyclic(g) && Truthful(g, canonical, fetched) ==>
      && m.error == "" && m.commit == TrimSpace(fetched.short)
      && m.state == Relationship(g, canonical, fetched.head)
      && m.behind == OnlyLeft(g, canonical, fetched.head) && m.ahead == OnlyLeft(g, fetched.head, canonical)
  }

  lemma ProbeIsReported(p: Probe)
    ensures Reported(p, ObserveProbe(p))
  {
    hide Observe, Truthful, Relationship, OnlyLeft, RefusedUnlessCounts;
    if p.Probe? {
      TargetIsKept(p.target, p.fetched);
      if p.fetched.Fetched? {
        CountsOrError(p.target, p.fetched);
        forall g, canonical | Acyclic(g) && Truthful(g, canonical, p.fetched)
          ensures var m := ObserveProbe(p);
                  && m.error == "" && m.commit == TrimSpace(p.fetched.short)
                  && m.state == Relationship(g, canonical, p.fetched.head)
                  && m.behind == OnlyLeft(g, canonical, p.fetched.head)
                  && m.ahead == OnlyLeft(g, p.fetched.head, canonical)
        {
          ObservedIsRelationship(g, canonical, p.target, p.fetched);
        }
      }
    }
  }

  lemma CountsOrError(target: string, fetched: Fetched)
    requires fetched.Fetched?
    ensures RefusedUnlessCounts(fetched, Observe(target, fetched))
  {
    hide Atoi, Fields, TrimSpace;
  }

  lemma TargetIsKept(target: string, fetched: Fetched)
    ensures Observe(target, fetched).target == target
    ensures fetched.FetchFailed? ==>
              Observe(target, fetched).state == ErrorState && Observe(target, fetched).error == fetched.message
  {
    hide ParseRevListCount, InterpretDivergence;
  }

  /** Each mirror is observed on its own: a failure stays with its target and hides nothing. */
  method CheckAll(id: string, uid: string, canonical: Fetched, mirrors: seq<Probe>)
    returns (r: RepositoryResult, errors: seq<string>)
    ensures r.id == id && r.uid == uid
    ensures mirrors == [] ==> r.mirrors == [] && errors == [r.error]
    ensures mirrors != [] && canonical.FetchFailed? ==>
              r.mirrors == [] && r.error == canonical.message && errors == [r.error]
    ensures mirrors != [] && canonical.Fetched? ==>
              && r.error == "" && r.commit == TrimSpace(canonical.short)
              && |r.mirrors| == |mirrors|
              && (forall i :: 0 <= i < |mirrors| ==> r.mirrors[i] == ObserveProbe(mirrors[i]))
              && (forall i :: 0 <= i < |mirrors| ==> Reported(mirrors[i], r.mirrors[i]))
              && errors == Complaints(mirrors)
              && (errors == [] <==> forall i :: 0 <= i < |mirrors| ==> r.mirrors[i].state != ErrorState)
  {
    hide Observe, Reported;
    r, errors := RepositoryResult(id, uid, "", [], ""), [];
    if mirrors == [] {
      var message := "at least one mirror is required";
      return r.(error := message), [message];
    }
    if canonical.FetchFailed? {
      return r.(error := canonical.message), [canonical.message];
    }
    var results := [];
    for i := 0 to |mirrors|
      invariant |results| == i
      invariant forall k :: 0 <= k < i ==> results[k] == ObserveProbe(mirrors[k])
      invariant errors == Complaints(mirrors[..i])
    {
      assert mirrors[..i + 1][..i] == mirrors[..i];
      match mirrors[i]
      case Unidentified(message) =>
        results := results + [MirrorResult("", "", ErrorState, 0, 0, message)];
        errors := errors + [message];
      case Probe(target, fetched) =>
        var observed := Observe(target, fetched);
        if observed.state == ErrorState {
          errors := errors + [target + ": " + observed.error];
        }
        results := results + [observed];
    }
    assert mirrors[..|mirrors|] == mirrors;
    NoComplaint(mirrors);
    forall i | 0 <= i < |mirrors| ensures Reported(mirrors[i], ObserveProbe(mirrors[i])) {
      ProbeIsReported(mirrors[i]);
    }
    r := r.(commit := TrimSpace(canonical.short), mirrors := results);
  }
}
