/** What the checks of artifacts and execution records look at: each field by its own rule. */
module ArtifactChecks {
  import opened Text
  import opened CommitGraph
  import opened PlanArtifact
  import opened MirrorExecution
  import opened ExecutionJournal

  // ---------------------------------------------------------------------
  // Artifacts.
  // ---------------------------------------------------------------------

  /** A ref has a provider, a remote and a branch, and a path exactly in version 2. */
  lemma {:induction false} RefFields(version: int, ref: Ref)
    requires ValidRef(version, ref) && SupportedVersion(version)
    ensures forall x :: ValidRef(version, ref.(provider := x)) <==> ValidIdentifier(x)
    ensures forall x :: ValidRef(version, ref.(remote := x)) <==> ValidIdentifier(x)
    ensures forall x :: ValidRef(version, ref.(branch := x)) <==> ValidBranch(x)
    ensures forall x :: ValidRef(version, ref.(path := x)) <==> if version == 2 then ValidProviderPath(x) else Blank(x)
  {
    hide ValidIdentifier, ValidBranch, ValidProviderPath, Blank;
  }

  /** An action is a push between two refs, from one object id to another, with a reason that is safe to show. */
  lemma {:induction false} ActionFields(version: int, a: Action)
    requires ValidAction(version, a)
    ensures forall x :: ValidAction(version, a.(kind := x)) <==> x == "PUSH_BRANCH"
    ensures forall x :: ValidAction(version, a.(source := x)) <==> ValidRef(version, x)
    ensures forall x :: ValidAction(version, a.(target := x)) <==> ValidRef(version, x)
    ensures forall x :: ValidAction(version, a.(observed := x)) <==> IsOid(TrimSpace(x))
    ensures forall x :: ValidAction(version, a.(desired := x)) <==> IsOid(TrimSpace(x))
    ensures forall x :: ValidAction(version, a.(reason := x)) <==> !UnsafeReason(x)
    ensures forall x :: ValidAction(version, a.(force := x))
  {
    hide ValidRef, IsOid, UnsafeReason, TrimSpace;
  }

  /** An artifact has the one kind, one of two versions, and valid repositories of valid actions. */
  lemma {:induction false} ArtifactFields(a: Artifact, i: nat, k: nat)
    requires ValidArtifact(a) && i < |a.repositories| && k < |a.repositories[i].actions|
    ensures forall x :: ValidArtifact(a.(kind := x)) <==> x == "repora.io/reconciliation-plan"
    ensures forall x :: x !in {1, 2} ==> !ValidArtifact(a.(version := x))
    ensures forall x :: ValidArtifact(WithRepository(a, i, a.repositories[i].(uid := x))) <==> ValidIdentifier(x)
    ensures forall x :: ValidArtifact(WithRepository(a, i, a.repositories[i].(id := x))) <==> ValidIdentifier(x)
    ensures forall x :: ValidArtifact(WithAction(a, i, k, x)) <==> ValidAction(a.version, x)
  {
    hide ValidAction, ValidIdentifier;
    forall repo ensures ValidArtifact(WithRepository(a, i, repo)) <==> ValidRepository(a.version, repo) {
      OneRepository(a, i, repo);
    }
    forall x ensures ValidArtifact(WithAction(a, i, k, x)) <==> ValidAction(a.version, x) {
      OneAction(a.version, a.repositories[i], k, x);
    }
    assert ValidRepository(a.version, a.repositories[i]);
  }

  function WithRepository(a: Artifact, i: nat, repo: Repository): Artifact
    requires i < |a.repositories|
  {
    a.(repositories := a.repositories[i := repo])
  }

  function WithAction(a: Artifact, i: nat, k: nat, action: Action): Artifact
    requires i < |a.repositories| && k < |a.repositories[i].actions|
  {
    WithRepository(a, i, a.repositories[i].(actions := a.repositories[i].actions[k := action]))
  }

  lemma {:induction false} OneRepository(a: Artifact, i: nat, repo: Repository)
    requires ValidArtifact(a) && i < |a.repositories|
    ensures ValidArtifact(WithRepository(a, i, repo)) <==> ValidRepository(a.version, repo)
  {
    hide ValidRepository;
    var b := WithRepository(a, i, repo);
    if ValidArtifact(b) {
      assert ValidRepository(b.version, b.repositories[i]);
    }
  }

  lemma {:induction false} OneAction(version: int, repo: Repository, k: nat, action: Action)
    requires ValidRepository(version, repo) && k < |repo.actions|
    ensures ValidRepository(version, repo.(actions := repo.actions[k := action])) <==> ValidAction(version, action)
  {
    hide ValidAction;
    var other := repo.(actions := repo.actions[k := action]);
    if ValidRepository(version, other) {
      assert ValidAction(version, other.actions[k]);
    }
  }

  // ---------------------------------------------------------------------
  // Records.
  // ---------------------------------------------------------------------

  /** What a record may say happened to one action, in each phase and mode. */
  predicate MaySay(phase: Phase, mode: Mode, outcome: Recorded) {
    match phase
    case INTENT => outcome == PLANNED
    case RESULT =>
      outcome in {FAILED, SKIPPED, STALE} || (outcome == APPLIED && mode != DRY_RUN)
      || (outcome == VALIDATED && mode != APPLY)
    case NO_PHASE => true
  }

  /** An entry repeats a push between two refs, and says in its phase what may be said there, with safe evidence. */
  lemma {:induction false} EntryFields(version: int, phase: Phase, mode: Mode, e: Entry)
    requires version in {2, 3} && ValidReviewed(version, e) && ValidEvidence(version, phase, mode, e)
    ensures forall x :: ValidReviewed(version, e.(kind := x)) <==> x == "PUSH_BRANCH"
    ensures forall x :: ValidReviewed(version, e.(source := x)) <==> ValidRecordRef(version, x)
    ensures forall x :: ValidReviewed(version, e.(target := x)) <==> ValidRecordRef(version, x)
    ensures forall x :: ValidReviewed(version, e.(before := x)) <==> IsOid(x)
    ensures forall x :: ValidReviewed(version, e.(desired := x)) <==> IsOid(x)
    ensures forall x :: ValidEvidence(version, phase, mode, e.(outcome := x)) ==>
              MaySay(phase, mode, x) && (x == APPLIED ==> IsOid(e.after))
    ensures forall x :: MaySay(phase, mode, x) && (x == APPLIED ==> e.after != "") ==>
              ValidEvidence(version, phase, mode, e.(outcome := x))
    ensures forall x :: ValidEvidence(version, phase, mode, e.(after := x)) <==>
              (x == "" || (IsOid(x) && phase != INTENT)) && (e.outcome == APPLIED ==> x != "")
    ensures forall x :: ValidEvidence(version, phase, mode, e.(error := x)) <==>
              x == "" || (!UnsafeDiagnostic(x) && phase != INTENT)
  {
    hide ValidRecordRef, IsOid, UnsafeDiagnostic;
    NothingIsNoOid();
  }

  /** A legacy record has no phase, and may say anything but VALIDATED, with the same evidence. */
  lemma {:induction false} LegacyFields(phase: Phase, mode: Mode, e: Entry)
    requires ValidEvidence(1, phase, mode, e)
    ensures forall x :: ValidEvidence(1, phase, mode, e.(outcome := x)) <==>
              x != VALIDATED && (x == APPLIED ==> e.after != "")
    ensures forall r: Record :: ValidRecord(r) && r.version == 1 ==> r.phase == NO_PHASE
  {
    hide IsOid, UnsafeDiagnostic;
  }

  lemma {:induction false} NothingIsNoOid()
    ensures !IsOid("")
  {
  }

  /** The refs of a record have a path exactly in version 3. */
  lemma {:induction false} RecordRefFields(version: int, ref: Ref)
    requires ValidRecordRef(version, ref)
    ensures forall x :: ValidRecordRef(version, ref.(provider := x)) <==> ValidIdentifier(x)
    ensures forall x :: ValidRecordRef(version, ref.(remote := x)) <==> ValidIdentifier(x)
    ensures forall x :: ValidRecordRef(version, ref.(branch := x)) <==> ValidBranch(x)
    ensures forall x :: ValidRecordRef(version, ref.(path := x)) <==>
              if version == 3 then ValidProviderPath(x) else Blank(x)
  {
    hide ValidIdentifier, ValidBranch, ValidProviderPath, Blank;
  }

  /** A record names its execution, its plan and its repository, and has valid entries numbered from zero. */
  lemma {:induction false} RecordFields(r: Record, i: nat)
    requires ValidRecord(r) && i < |r.actions| && r.version in {2, 3}
    ensures forall x :: ValidRecord(r.(kind := x)) <==> x == "repora.io/execution-record"
    ensures forall x :: ValidRecord(r.(executionId := x)) <==> ValidIdentifier(x)
    ensures forall x :: ValidRecord(r.(uid := x)) <==> ValidIdentifier(x)
    ensures forall x :: ValidRecord(r.(id := x)) <==> ValidIdentifier(x)
    ensures forall x :: ValidRecord(r.(plan := r.plan.(sha256 := x))) <==> IsDigest(x)
    ensures forall x :: ValidRecord(r.(plan := r.plan.(kind := x))) <==> x == "repora.io/reconciliation-plan"
    ensures forall x :: ValidRecord(r.(plan := r.plan.(version := x))) <==> x == 2 || (x == 1 && r.version == 2)
    ensures forall x :: x !in {1, 2, 3} ==> !ValidRecord(r.(version := x))
    ensures !ValidRecord(r.(phase := NO_PHASE))
    ensures forall x: Entry :: ValidRecord(r.(actions := r.actions[i := x])) <==>
              x.index == i && ValidReviewed(r.version, x) && ValidEvidence(r.version, r.phase, r.mode, x)
  {
    hide ValidReviewed, ValidEvidence, ValidIdentifier, IsDigest;
    forall x: Entry
      ensures ValidRecord(r.(actions := r.actions[i := x])) <==>
                x.index == i && ValidReviewed(r.version, x) && ValidEvidence(r.version, r.phase, r.mode, x) {
      var other := r.(actions := r.actions[i := x]);
      if ValidRecord(other) {
        assert other.actions[i] == x;
      }
    }
  }

  // ---------------------------------------------------------------------
  // Object ids, digests, identifiers.
  // ---------------------------------------------------------------------

  /** 40 or 64 hexadecimal digits of either case; a digest is 64 of lower case. */
  lemma {:induction false} OidsAndDigests(s: string)
    ensures IsOid(s) <==> |s| in {40, 64} && forall c :: c in s ==> c in "0123456789abcdefABCDEF"
    ensures IsDigest(s) <==> |s| == 64 && forall c :: c in s ==> c in "0123456789abcdef"
  {
    forall c ensures IsDigit(c) || 'a' <= c <= 'f' || 'A' <= c <= 'F' <==> c in "0123456789abcdefABCDEF" {
      HexDigit(c);
    }
    forall c ensures IsDigit(c) || 'a' <= c <= 'f' <==> c in "0123456789abcdef" {
      LowerHexDigit(c);
    }
    assert forall i :: 0 <= i < |s| ==> s[i] in s;
  }

  lemma {:induction false} HexDigit(c: char)
    ensures IsDigit(c) || 'a' <= c <= 'f' || 'A' <= c <= 'F' <==> c in "0123456789abcdefABCDEF"
  {
    var hex := "0123456789abcdefABCDEF";
    if IsDigit(c) {
      assert hex[c as int - '0' as int] == c;
    } else if 'a' <= c <= 'f' {
      assert hex[c as int - 'a' as int + 10] == c;
    } else if 'A' <= c <= 'F' {
      assert hex[c as int - 'A' as int + 16] == c;
    }
  }

  lemma {:induction false} LowerHexDigit(c: char)
    ensures IsDigit(c) || 'a' <= c <= 'f' <==> c in "0123456789abcdef"
  {
    var hex := "0123456789abcdef";
    if IsDigit(c) {
      assert hex[c as int - '0' as int] == c;
    } else if 'a' <= c <= 'f' {
      assert hex[c as int - 'a' as int + 10] == c;
    }
  }

  /** An identifier is not blank and holds letters, digits, dots, underscores and dashes only. */
  lemma {:induction false} Identifiers(s: string)
    ensures Blank(s) ==> !ValidIdentifier(s)
    ensures forall c :: c in TrimSpace(s) && c in " /:@#?*[]{}<>\"'\\\t\r\n\0" ==> !ValidIdentifier(s)
    ensures s != "" && (forall c :: c in s ==> 'A' <= c <= 'Z' || 'a' <= c <= 'z' || '0' <= c <= '9' || c in "._-") ==>
              ValidIdentifier(s)
  {
    hide TrimSpace;
    BlankIsEmptyTrimmed(s);
    if s != "" && forall c :: c in s ==> 'A' <= c <= 'Z' || 'a' <= c <= 'z' || '0' <= c <= '9' || c in "._-" {
      assert s[0] in s && s[|s| - 1] in s;
      TrimmedStays(s);
    }
  }

  // ---------------------------------------------------------------------
  // Paths.
  // ---------------------------------------------------------------------

  lemma {:induction false} SplitOnce(a: string, b: string)
    ensures '/' !in a ==> Split(a + "/" + b, '/') == [a] + Split(b, '/') && Split(a, '/') == [a]
  {
    if '/' !in a {
      assert a + "/" + b == a + ("/" + b) && a + "" == a;
      assert IndexAny("/" + b, "/") == 0;
      assert ['/'] == "/";
      IndexAnyAfter(a, "/" + b, "/");
      IndexAnyAfter(a, "", "/");
      assert (a + ("/" + b))[..|a|] == a && (a + ("/" + b))[|a| + 1..] == b;
    }
  }

  /** A path has at least two segments, and is safe exactly when its first segment and the rest are. */
  lemma {:induction false} SafePaths(a: string, b: string)
    requires '/' !in a
    ensures !SafePath(a)
    ensures SafePath(a + "/" + b) <==> SafeSegment(a) && (if '/' in b then SafePath(b) else SafeSegment(b))
  {
    hide SafeSegment, Split;
    SplitOnce(a, b);
    NoSegmentIsEmpty();
    var p, segments := a + "/" + b, Split(b, '/');
    assert Split(p, '/') == [a] + segments;
    assert AllSafe(Split(p, '/')) <==> SafeSegment(a) && AllSafe(segments) by {
      AllSafeMore(a, segments);
    }
    assert a != "" ==> p[0] == a[0] && a[0] in a;
    assert b != "" ==> p[|p| - 1] == b[|b| - 1];
    if '/' in b {
      ManySegments(b);
      LeadingSlash(b);
    } else {
      SplitOnce(b, "");
      assert b != "" ==> b[|b| - 1] in b;
      assert segments == [b] && segments[0] == b;
    }
  }

  predicate AllSafe(segments: seq<string>) {
    forall i :: 0 <= i < |segments| ==> SafeSegment(segments[i])
  }

  lemma {:induction false} AllSafeMore(a: string, segments: seq<string>)
    ensures AllSafe([a] + segments) <==> SafeSegment(a) && AllSafe(segments)
  {
    hide SafeSegment;
    if AllSafe([a] + segments) {
      assert SafeSegment(([a] + segments)[0]);
      forall i | 0 <= i < |segments| ensures SafeSegment(segments[i]) {
        assert SafeSegment(([a] + segments)[i + 1]);
      }
    }
  }

  lemma {:induction false} NoSegmentIsEmpty()
    ensures !SafeSegment("")
  {
  }

  lemma {:induction false} ManySegments(b: string)
    requires '/' in b
    ensures |Split(b, '/')| >= 2
  {
    IndexAnyFirst(b, "/");
    assert ['/'] == "/";
  }

  /** A leading slash makes an empty segment. */
  lemma {:induction false} LeadingSlash(b: string)
    ensures b != "" && b[0] == '/' ==> Split(b, '/')[0] == ""
  {
    assert ['/'] == "/";
  }

  /** A segment is not empty, is no dot or double dot, and holds no separator, space or mark of a URL. */
  lemma {:induction false} SafeSegments(s: string)
    ensures s in ["", ".", ".."] ==> !SafeSegment(s)
    ensures forall c :: c in s && c in "\\:@?# \t\r\n" ==> !SafeSegment(s)
    ensures s != "" && (forall c :: c in s ==> 'A' <= c <= 'Z' || 'a' <= c <= 'z' || '0' <= c <= '9' || c in "_-") ==>
              SafeSegment(s)
  {
    if s != "" && forall c :: c in s ==> 'A' <= c <= 'Z' || 'a' <= c <= 'z' || '0' <= c <= '9' || c in "_-" {
      assert forall i :: 0 <= i < |s| ==> s[i] in s;
      assert s[0] in s && s[0] != '.';
    }
  }

  // ---------------------------------------------------------------------
  // Branches and reasons.
  // ---------------------------------------------------------------------

  lemma {:induction false} ContainsMiddle(x: string, mark: string, y: string)
    ensures Contains(x + mark + y, mark)
  {
    if x == "" {
      assert x + mark + y == mark + y;
    } else {
      ContainsMiddle(x[1..], mark, y);
      assert (x + mark + y)[1..] == x[1..] + mark + y;
    }
  }

  /**
   * No branch holds "..", "//", "@{" or a character Git refuses, or begins or ends with a slash, or ends with a dot.
   */
  lemma {:induction false} RefusedBranches(x: string, y: string)
    ensures !SafeBranch("") && !SafeBranch("/" + x) && !SafeBranch(x + "/") && !SafeBranch(x + ".")
    ensures !SafeBranch(x + ".." + y) && !SafeBranch(x + "//" + y) && !SafeBranch(x + "@{" + y)
    ensures forall c :: c in " ~^:?*[\\" ==> !SafeBranch(x + [c] + y)
  {
    hide Contains, Split;
    ContainsMiddle(x, "..", y);
    ContainsMiddle(x, "//", y);
    ContainsMiddle(x, "@{", y);
    forall c | c in " ~^:?*[\\" ensures ContainsAny(x + [c] + y, " ~^:?*[\\") {
      assert (x + [c] + y)[|x|] == c;
    }
  }

  /** No segment of a branch begins with a dot or ends with ".lock". */
  lemma {:induction false} RefusedSegments(a: string, b: string)
    requires '/' !in a && (a == "" || a[0] == '.' || HasSuffix(a, ".lock"))
    ensures !SafeBranch(a) && !SafeBranch(a + "/" + b)
  {
    hide Contains, ContainsAny, Split, HasSuffix;
    SplitOnce(a, b);
    assert Split(a, '/')[0] == a && Split(a + "/" + b, '/')[0] == a;
  }

  /** The same holds further on: a branch is as safe as what follows its first slash. */
  lemma {:induction false} RestOfBranch(a: string, b: string)
    requires '/' !in a && SafeBranch(a + "/" + b)
    ensures forall i :: 0 <= i < |Split(b, '/')| ==>
              var s := Split(b, '/')[i]; s != "" && s[0] != '.' && !HasSuffix(s, ".lock")
  {
    hide Contains, ContainsAny, Split, HasSuffix;
    SplitOnce(a, b);
    var whole := Split(a + "/" + b, '/');
    assert forall i :: 0 <= i < |Split(b, '/')| ==> whole[i + 1] == Split(b, '/')[i];
  }

  /** A word of letters, digits, underscores and dashes is a branch. */
  lemma {:induction false} PlainBranches(s: string)
    requires s != "" && forall c :: c in s ==> 'A' <= c <= 'Z' || 'a' <= c <= 'z' || '0' <= c <= '9' || c in "_-"
    ensures SafeBranch(s)
  {
    hide Contains, Split;
    SplitOnce(s, "");
    assert forall i :: 0 <= i < |s| ==> s[i] in s;
    NothingContained(s, "..", '.');
    NothingContained(s, "//", '/');
    NothingContained(s, "@{", '@');
    DotOfSuffix(s);
  }

  lemma {:induction false} DotOfSuffix(s: string)
    ensures HasSuffix(s, ".lock") ==> '.' in s
  {
    if HasSuffix(s, ".lock") {
      assert s[|s| - 5..][0] == '.';
    }
  }

  lemma {:induction false} NothingContained(s: string, mark: string, c: char)
    requires mark != "" && mark[0] == c && forall i :: 0 <= i < |s| ==> s[i] != c
    ensures !Contains(s, mark)
  {
    if s != "" {
      NothingContained(s[1..], mark, c);
    }
  }

  /** Text with a URL, a credential, a backslash, an address or an absolute path in it is not safe to show. */
  lemma {:induction false} UnsafeTexts(x: string, y: string)
    ensures LooksUnsafe(x + "://" + y) && LooksUnsafe(x + "token=" + y) && LooksUnsafe(x + "password=" + y)
    ensures LooksUnsafe(x + "\\" + y) && LooksUnsafe(x + "@" + y) && LooksUnsafe("/" + x) && LooksUnsafe("file:" + x)
  {
    hide Contains;
    ContainsMiddle(x, "://", y);
    ContainsMiddle(x, "token=", y);
    ContainsMiddle(x, "password=", y);
    ContainsMiddle(x, "\\", y);
    ContainsMiddle(x, "@", y);
  }

  /** A diagnostic is kept, without paths, when it is safe; otherwise a fixed text stands for it. */
  lemma {:induction false} DiagnosticSays(redact: Redact, value: string)
    ensures Blank(value) ==> SafeDiagnostic(redact, value) == "execution failed"
    ensures !Blank(value) && !UnsafeDiagnostic(redact(TrimSpace(value))) ==>
              SafeDiagnostic(redact, value) == redact(TrimSpace(value))
    ensures LooksUnsafe(ToLower(TrimSpace(value))) || Contains(ToLower(TrimSpace(value)), "authorization:") ==>
              UnsafeDiagnostic(value)
  {
    hide UnsafeDiagnostic, TrimSpace;
    BlankIsEmptyTrimmed(value);
    MarkedIsUnsafe(value);
  }

  lemma {:induction false} MarkedIsUnsafe(value: string)
    ensures LooksUnsafe(ToLower(TrimSpace(value))) || Contains(ToLower(TrimSpace(value)), "authorization:") ==>
              UnsafeDiagnostic(value)
  {
  }
}
