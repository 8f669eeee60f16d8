/** Execution evidence: an INTENT record before anything happens, a RESULT record for whatever did. */
module ExecutionJournal {
  import opened Text
  import opened CommitGraph
  import opened PlanArtifact
  import opened MirrorPreflight
  import opened MirrorExecution

  const RECORD_VERSION := 2
  const PATH_VERSION := 3
  const RECORD_KIND := "repora.io/execution-record"

  datatype Phase = INTENT | RESULT | NO_PHASE

  datatype Mode = PLAN | DRY_RUN | APPLY

  datatype Recorded = PLANNED | VALIDATED | APPLIED | FAILED | SKIPPED | STALE

  datatype Entry = Entry(
    index: nat, kind: string, source: Ref, target: Ref, before: string, desired: string, after: string, force: bool,
    outcome: Recorded, error: string)

  datatype PlanRef = PlanRef(version: int, kind: string, sha256: string)

  datatype Record = Record(
    version: int, kind: string, executionId: string, phase: Phase, mode: Mode, plan: PlanRef,
    uid: string, id: string, actions: seq<Entry>)

  /** The digest of a serialised artifact, and the replacement of absolute paths in a diagnostic. */
  type Digest = Artifact -> string
  type Redact = string -> string

  // ---------------------------------------------------------------------
  // Validation.
  // ---------------------------------------------------------------------

  predicate IsDigest(s: string) {
    |s| == 64 && forall i :: 0 <= i < |s| ==> IsDigit(s[i]) || 'a' <= s[i] <= 'f'
  }

  predicate UnsafeDiagnostic(value: string) {
    LooksUnsafe(ToLower(TrimSpace(value))) || Contains(ToLower(TrimSpace(value)), "authorization:")
  }

  predicate ValidRecordRef(version: int, ref: Ref) {
    && ValidIdentifier(ref.provider) && ValidIdentifier(ref.remote)
    && (if version == PATH_VERSION then ValidProviderPath(ref.path) else Blank(ref.path))
    && ValidBranch(ref.branch)
  }

  predicate AllowedInPhase(phase: Phase, mode: Mode, e: Entry) {
    match phase
    case INTENT => e.outcome == PLANNED && e.after == "" && e.error == ""
    case RESULT =>
      && e.outcome != PLANNED
      && !(mode == DRY_RUN && e.outcome == APPLIED)
      && !(mode == APPLY && e.outcome == VALIDATED)
    case NO_PHASE => true
  }

  /** The parts of an entry that come from the plan. */
  predicate ValidReviewed(version: int, e: Entry) {
    && e.kind == PUSH_BRANCH && ValidRecordRef(version, e.source) && ValidRecordRef(version, e.target)
    && IsOid(e.before) && IsOid(e.desired)
  }

  /** The parts that say what happened. */
  predicate ValidEvidence(version: int, phase: Phase, mode: Mode, e: Entry) {
    && (e.after == "" || IsOid(e.after))
    && (e.outcome == VALIDATED ==> version >= RECORD_VERSION)
    && (e.outcome == APPLIED ==> e.after != "")
    && (e.error == "" || !UnsafeDiagnostic(e.error))
    && (version >= RECORD_VERSION ==> AllowedInPhase(phase, mode, e))
  }

  predicate ValidHeader(r: Record) {
    && (r.version == LEGACY_VERSION || r.version == RECORD_VERSION || r.version == PATH_VERSION)
    && r.kind == RECORD_KIND && ValidIdentifier(r.executionId)
    && (r.version == LEGACY_VERSION <==> r.phase == NO_PHASE)
    && SupportedVersion(r.plan.version) && r.plan.kind == KIND && IsDigest(r.plan.sha256)
    && (r.version == PATH_VERSION ==> r.plan.version == VERSION)
    && ValidIdentifier(r.uid) && ValidIdentifier(r.id)
  }

  predicate ValidRecord(r: Record) {
    && ValidHeader(r)
    && forall i :: 0 <= i < |r.actions| ==>
         && r.actions[i].index == i
         && ValidReviewed(r.version, r.actions[i])
         && ValidEvidence(r.version, r.phase, r.mode, r.actions[i])
  }

  // ---------------------------------------------------------------------
  // INTENT.
  // ---------------------------------------------------------------------

  function PlannedEntry(i: nat, a: Action): Entry {
    Entry(i, a.kind, a.source, a.target, a.observed, a.desired, "", a.force, PLANNED, "")
  }

  function IntentOf(digest: Digest, executionId: string, mode: Mode, artifact: Artifact): Record
    requires |artifact.repositories| == 1
  {
    var repo := artifact.repositories[0];
    Record(if artifact.version == VERSION then PATH_VERSION else RECORD_VERSION, RECORD_KIND, executionId, INTENT, mode,
           PlanRef(artifact.version, artifact.kind, digest(artifact)), repo.uid, repo.id,
           seq(|repo.actions|, i requires 0 <= i < |repo.actions| => PlannedEntry(i, repo.actions[i])))
  }

  predicate CanIntend(digest: Digest, executionId: string, mode: Mode, artifact: Artifact) {
    && ValidArtifact(artifact) && |artifact.repositories| == 1
    && ValidRecord(IntentOf(digest, executionId, mode, artifact))
  }

  method FromPlan(digest: Digest, executionId: string, mode: Mode, artifact: Artifact) returns (r: Option<Record>)
    ensures r == if CanIntend(digest, executionId, mode, artifact)
                 then Some(IntentOf(digest, executionId, mode, artifact)) else None
  {
    hide ValidArtifact, ValidRecord;
    if !ValidArtifact(artifact) || |artifact.repositories| != 1 {
      return None;
    }
    var repo := artifact.repositories[0];
    var record := IntentOf(digest, executionId, mode, artifact.(repositories := [repo.(actions := [])]));
    record := record.(plan := PlanRef(artifact.version, artifact.kind, digest(artifact)));
    for i := 0 to |repo.actions|
      invariant |record.actions| == i
      invariant forall k :: 0 <= k < i ==> record.actions[k] == PlannedEntry(k, repo.actions[k])
      invariant record == IntentOf(digest, executionId, mode, artifact).(actions := record.actions)
    {
      record := record.(actions := record.actions + [PlannedEntry(i, repo.actions[i])]);
    }
    assert record.actions == IntentOf(digest, executionId, mode, artifact).actions;
    return if ValidRecord(record) then Some(record) else None;
  }

  /** Object ids exactly as they will be compared, with no space around them. */
  predicate UnspacedOids(artifact: Artifact)
    requires |artifact.repositories| == 1
  {
    forall i :: 0 <= i < |artifact.repositories[0].actions| ==>
      IsOid(artifact.repositories[0].actions[i].observed) && IsOid(artifact.repositories[0].actions[i].desired)
  }

  lemma RecordRefAgrees(version: int, ref: Ref)
    requires SupportedVersion(version)
    ensures ValidRef(version, ref) <==> ValidRecordRef(if version == VERSION then PATH_VERSION else RECORD_VERSION, ref)
  {
    hide ValidIdentifier, ValidProviderPath, ValidBranch, Blank;
  }

  /**
   * An artifact trims object ids before checking them and a record does not: INTENT can be built
   * exactly for the valid one-repository artifacts whose ids carry no spaces.
   */
  lemma IntentExactly(digest: Digest, executionId: string, mode: Mode, artifact: Artifact)
    requires ValidIdentifier(executionId) && IsDigest(digest(artifact))
    ensures CanIntend(digest, executionId, mode, artifact) <==>
              ValidArtifact(artifact) && |artifact.repositories| == 1 && UnspacedOids(artifact)
  {
    hide ValidIdentifier, ValidRef, ValidRecordRef, IsDigest, IsOid, UnsafeReason, UnsafeDiagnostic, TrimSpace;
    if ValidArtifact(artifact) && |artifact.repositories| == 1 {
      var repo, r := artifact.repositories[0], IntentOf(digest, executionId, mode, artifact);
      assert ValidRepository(artifact.version, repo);
      forall i | 0 <= i < |repo.actions|
        ensures r.actions[i].index == i && ValidEvidence(r.version, r.phase, r.mode, r.actions[i])
        ensures ValidReviewed(r.version, r.actions[i]) <==>
                  IsOid(repo.actions[i].observed) && IsOid(repo.actions[i].desired)
      {
        assert ValidAction(artifact.version, repo.actions[i]);
        RecordRefAgrees(artifact.version, repo.actions[i].source);
        RecordRefAgrees(artifact.version, repo.actions[i].target);
      }
      assert ValidHeader(r);
      assert |r.actions| == |repo.actions|;
    }
  }

  /** An artifact with a space before the observed object id of its i-th action. */
  function Spaced(artifact: Artifact, i: nat): Artifact
    requires |artifact.repositories| == 1 && i < |artifact.repositories[0].actions|
  {
    var repo := artifact.repositories[0];
    var action := repo.actions[i];
    artifact.(repositories := [repo.(actions := repo.actions[i := action.(observed := " " + action.observed)])])
  }

  /** Put a space into any artifact that can be recorded: it stays valid, and cannot be recorded any more. */
  lemma SpacedArtifactIsValidButNotRecorded(digest: Digest, executionId: string, mode: Mode, artifact: Artifact, i: nat)
    requires CanIntend(digest, executionId, mode, artifact) && i < |artifact.repositories[0].actions|
    ensures ValidArtifact(Spaced(artifact, i)) && !CanIntend(digest, executionId, mode, Spaced(artifact, i))
  {
    hide ValidIdentifier, ValidRef, ValidRecordRef, IsDigest, IsOid, UnsafeReason, ValidHeader, ValidEvidence,
         TrimSpace;
    var repo, spaced := artifact.repositories[0], Spaced(artifact, i);
    var action := repo.actions[i];
    assert ValidRepository(artifact.version, repo);
    assert ValidAction(artifact.version, action);
    IntentEntry(digest, executionId, mode, artifact, i);
    SpacedOid(action.observed);
    forall k | 0 <= k < |repo.actions| ensures ValidAction(artifact.version, spaced.repositories[0].actions[k]) {
      assert ValidAction(artifact.version, repo.actions[k]);
    }
    if CanIntend(digest, executionId, mode, spaced) {
      IntentEntry(digest, executionId, mode, spaced, i);
    }
  }

  lemma SpacedOid(oid: string)
    requires IsOid(oid)
    ensures TrimSpace(" " + oid) == TrimSpace(oid) && !IsOid(" " + oid)
  {
    assert (" " + oid)[1..] == oid;
  }

  /** A record only says what an artifact it was built from says, mode and phase aside. */
  lemma IntentDescribesPlan(digest: Digest, executionId: string, mode: Mode, artifact: Artifact, i: nat)
    requires CanIntend(digest, executionId, mode, artifact) && i < |Plans(artifact).value[0].actions|
    ensures |IntentOf(digest, executionId, mode, artifact).actions| == |Plans(artifact).value[0].actions|
    ensures Shows(IntentOf(digest, executionId, mode, artifact).actions[i], i, Plans(artifact).value[0].actions[i])
  {
    hide ValidArtifact, ValidRecord;
  }

  /** An entry names the action's refs, force and reviewed commits. */
  predicate Shows(e: Entry, i: nat, a: PlannedAction) {
    && e.index == i && e.kind == a.kind
    && FromRef(e.source) == a.source && FromRef(e.target) == a.target
    && e.before == a.expectedOldTarget && e.desired == a.expectedSource && e.force == a.force
  }

  // ---------------------------------------------------------------------
  // RESULT.
  // ---------------------------------------------------------------------

  function SafeDiagnostic(redact: Redact, value: string): (r: string)
    ensures !UnsafeDiagnostic(r)
  {
    FixedDiagnosticsAreSafe();
    var trimmed := TrimSpace(value);
    if trimmed == "" then "execution failed"
    else if UnsafeDiagnostic(redact(trimmed)) then "execution diagnostic redacted"
    else redact(trimmed)
  }

  lemma FixedDiagnosticsAreSafe()
    ensures !UnsafeDiagnostic("execution failed")
    ensures !UnsafeDiagnostic("execution diagnostic redacted")
  {
    hide UnsafeDiagnostic;
    WordsAreSafe("execution failed");
    WordsAreSafe("execution diagnostic redacted");
  }

  predicate IsWordChar(c: char) {
    c == ' ' || 'a' <= c <= 'z'
  }

  /** Lower-case words cannot hold any of the marks that make text unsafe. */
  lemma WordsAreSafe(s: string)
    requires s != "" && !IsSpace(s[0]) && !IsSpace(s[|s| - 1])
    requires forall i :: 0 <= i < |s| ==> IsWordChar(s[i])
    ensures !UnsafeDiagnostic(s)
  {
    hide Contains, IsSpace, TrimSpace;
    TrimmedWords(s);
    NoMark(s, "://", 0);
    NoMark(s, "token=", 5);
    NoMark(s, "password=", 8);
    NoMark(s, "\\", 0);
    NoMark(s, "@", 0);
    NoMark(s, "authorization:", 13);
    if 4 < |s| {
      assert s[4] != "file:"[4];
    }
  }

  lemma TrimmedWords(s: string)
    requires s != "" && !IsSpace(s[0]) && !IsSpace(s[|s| - 1])
    requires forall i :: 0 <= i < |s| ==> IsWordChar(s[i])
    ensures ToLower(TrimSpace(s)) == s
  {
    TrimmedStays(s);
  }

  lemma {:induction false} NoMark(s: string, mark: string, k: nat)
    requires k < |mark| && !IsWordChar(mark[k])
    requires forall i :: 0 <= i < |s| ==> IsWordChar(s[i])
    ensures !Contains(s, mark)
  {
    if k < |s| {
      assert s[k] != mark[k];
    }
    if s != "" {
      NoMark(s[1..], mark, k);
    }
  }

  function ResultEntry(redact: Redact, entry: Entry, e: ActionResult): Entry {
    match e.outcome
    case Applied => entry.(outcome := APPLIED, after := TrimSpace(e.afterOid))
    case Failed => entry.(outcome := if e.stale then STALE else FAILED, error := SafeDiagnostic(redact, e.error))
    case Skipped => entry.(outcome := SKIPPED)
  }

  function PreflightEntry(redact: Redact, entry: Entry, e: ActionResult, passed: bool): Entry {
    if passed then entry.(outcome := VALIDATED) else ResultEntry(redact, entry, e)
  }

  predicate Describes(results: seq<ActionResult>, actions: seq<PlannedAction>) {
    && |results| == |actions|
    && forall i :: 0 <= i < |results| ==> results[i].index == i && results[i].action == actions[i]
  }

  predicate Unmarked(e: ActionResult) {
    e.outcome == Skipped && !e.stale && Blank(e.error)
  }

  /**
   * The evidence a dry run can hold: nothing at all after a pass, and some failed action but no applied one after a
   * failure.
   */
  predicate Consistent(results: seq<ActionResult>, passed: bool) {
    && (passed ==> forall i :: 0 <= i < |results| ==> Unmarked(results[i]))
    && (!passed ==>
          && (forall i :: 0 <= i < |results| ==> results[i].outcome != Applied)
          && (exists i :: 0 <= i < |results| && results[i].outcome == Failed))
  }

  function ExecutionRecord(redact: Redact, intent: Record, results: seq<ActionResult>): Record
    requires |results| == |intent.actions|
  {
    intent.(phase := RESULT,
            actions := seq(|results|,
                           i requires 0 <= i < |results| => ResultEntry(redact, intent.actions[i], results[i])))
  }

  function PreflightRecord(redact: Redact, intent: Record, results: seq<ActionResult>, passed: bool): Record
    requires |results| == |intent.actions|
  {
    intent.(phase := RESULT,
            actions := seq(|results|,
                           i requires 0 <= i < |results| =>
                             PreflightEntry(redact, intent.actions[i], results[i], passed)))
  }

  /** The record a run starts from, or nothing when the evidence has another shape than the plan. */
  method ResultRecord(digest: Digest, executionId: string, mode: Mode, artifact: Artifact, results: seq<ActionResult>)
    returns (r: Option<(Record, seq<PlannedAction>)>)
    ensures r.Some? <==>
              CanIntend(digest, executionId, mode, artifact) && |results| == |artifact.repositories[0].actions|
    ensures r.Some? ==>
              Plans(artifact).Some? && r.value == (IntentOf(digest, executionId, mode, artifact).(phase := RESULT),
                                                   Plans(artifact).value[0].actions)
  {
    hide ValidArtifact, ValidRecord;
    var record := FromPlan(digest, executionId, mode, artifact);
    if record.None? || |results| != |record.value.actions| {
      return None;
    }
    return Some((record.value.(phase := RESULT), Plans(artifact).value[0].actions));
  }

  /** Result i carries its own index and is about action i of the artifact, and there are no more of either. */
  predicate IsAbout(results: seq<ActionResult>, artifact: Artifact) {
    && |artifact.repositories| == 1 && |results| == |artifact.repositories[0].actions|
    && forall i :: 0 <= i < |results| ==>
         results[i].index == i && results[i].action == FromAction(artifact.repositories[0].actions[i])
  }

  lemma DescribedIsAbout(digest: Digest, executionId: string, mode: Mode, artifact: Artifact,
                         results: seq<ActionResult>)
    ensures CanIntend(digest, executionId, mode, artifact) && Plans(artifact).Some?
            && |Plans(artifact).value| == 1 && Describes(results, Plans(artifact).value[0].actions) ==>
              IsAbout(results, artifact)
  {
    hide ValidArtifact, ValidRecord;
  }

  /** Nothing was done: all were skipped without an error after a pass, some failed and none was applied otherwise. */
  predicate TriedOnly(results: seq<ActionResult>, passed: bool) {
    if passed then
      forall i :: 0 <= i < |results| ==>
        results[i].outcome == Skipped && !results[i].stale && TrimSpace(results[i].error) == ""
    else
      && (exists i :: 0 <= i < |results| && results[i].outcome == Failed)
      && forall i :: 0 <= i < |results| ==> results[i].outcome == Failed || results[i].outcome == Skipped
  }

  lemma ConsistentSays(results: seq<ActionResult>, passed: bool)
    ensures Consistent(results, passed) <==> TriedOnly(results, passed)
  {
    hide Blank, TrimSpace;
    forall i | 0 <= i < |results| ensures Blank(results[i].error) <==> TrimSpace(results[i].error) == "" {
      BlankIsEmptyTrimmed(results[i].error);
    }
  }

  method FromExecution(redact: Redact, digest: Digest, executionId: string, artifact: Artifact,
                       results: seq<ActionResult>)
    returns (r: Option<Record>)
    ensures r.Some? <==>
              && CanIntend(digest, executionId, APPLY, artifact)
              && Describes(results, Plans(artifact).value[0].actions)
              && ValidRecord(ExecutionRecord(redact, IntentOf(digest, executionId, APPLY, artifact), results))
    ensures r.Some? ==> r.value == ExecutionRecord(redact, IntentOf(digest, executionId, APPLY, artifact), results)
    ensures r.Some? ==> IsAbout(results, artifact)
  {
    hide ValidArtifact, ValidRecord, ResultEntry, CanIntend, IntentOf, Plans, IsAbout;
    IntendHasPlan(digest, executionId, APPLY, artifact);
    DescribedIsAbout(digest, executionId, APPLY, artifact, results);
    var start := ResultRecord(digest, executionId, APPLY, artifact, results);
    if start.None? {
      return None;
    }
    var (record, planned) := start.value;
    var entries := record.actions;
    ghost var intent := IntentOf(digest, executionId, APPLY, artifact);
    for i := 0 to |results|
      invariant |entries| == |results| == |planned|
      invariant forall k :: 0 <= k < i ==> results[k].index == k && results[k].action == planned[k]
      invariant forall k :: 0 <= k < |entries| ==>
                  entries[k] == if k < i then ResultEntry(redact, intent.actions[k], results[k]) else intent.actions[k]
    {
      if results[i].index != i || results[i].action != planned[i] {
        return None;
      }
      entries := entries[i := ResultEntry(redact, entries[i], results[i])];
    }
    record := record.(actions := entries);
    assert entries == ExecutionRecord(redact, intent, results).actions;
    return if ValidRecord(record) then Some(record) else None;
  }

  lemma IntendHasPlan(digest: Digest, executionId: string, mode: Mode, artifact: Artifact)
    ensures CanIntend(digest, executionId, mode, artifact) ==>
              && |artifact.repositories| == 1 && Plans(artifact).Some? && |Plans(artifact).value| == 1
              && |Plans(artifact).value[0].actions| == |artifact.repositories[0].actions| ==
                   |IntentOf(digest, executionId, mode, artifact).actions|
  {
    hide ValidArtifact, ValidRecord;
  }

  method FromPreflight(redact: Redact, digest: Digest, executionId: string, artifact: Artifact,
                       results: seq<ActionResult>, passed: bool)
    returns (r: Option<Record>)
    ensures r.Some? <==>
              && CanIntend(digest, executionId, DRY_RUN, artifact)
              && Describes(results, Plans(artifact).value[0].actions)
              && Consistent(results, passed)
              && ValidRecord(PreflightRecord(redact, IntentOf(digest, executionId, DRY_RUN, artifact), results, passed))
    ensures r.Some? ==>
              r.value == PreflightRecord(redact, IntentOf(digest, executionId, DRY_RUN, artifact), results, passed)
    ensures r.Some? ==> IsAbout(results, artifact)
    ensures r.Some? ==> TriedOnly(results, passed)
  {
    hide ValidArtifact, ValidRecord, PreflightEntry, CanIntend, Unmarked, IntentOf, Plans, IsAbout, TriedOnly;
    IntendHasPlan(digest, executionId, DRY_RUN, artifact);
    DescribedIsAbout(digest, executionId, DRY_RUN, artifact, results);
    ConsistentSays(results, passed);
    var start := ResultRecord(digest, executionId, DRY_RUN, artifact, results);
    if start.None? {
      return None;
    }
    var (record, planned) := start.value;
    var entries, failedAction := record.actions, false;
    ghost var intent := IntentOf(digest, executionId, DRY_RUN, artifact);
    for i := 0 to |results|
      invariant |entries| == |results| == |planned|
      invariant forall k :: 0 <= k < i ==> results[k].index == k && results[k].action == planned[k]
      invariant forall k :: 0 <= k < |entries| ==>
                  entries[k] == if k < i then PreflightEntry(redact, intent.actions[k], results[k], passed)
                                else intent.actions[k]
      invariant passed ==> forall k :: 0 <= k < i ==> Unmarked(results[k])
      invariant !passed ==> forall k :: 0 <= k < i ==> results[k].outcome != Applied
      invariant !passed ==> (failedAction <==> exists k :: 0 <= k < i && results[k].outcome == Failed)
    {
      if results[i].index != i || results[i].action != planned[i] {
        return None;
      }
      if passed && !Unmarked(results[i]) {
        return None;
      }
      if !passed && results[i].outcome == Applied {
        return None;
      }
      failedAction := failedAction || results[i].outcome == Failed;
      entries := entries[i := PreflightEntry(redact, entries[i], results[i], passed)];
    }
    if !passed && !failedAction {
      return None;
    }
    record := record.(actions := entries);
    assert entries == PreflightRecord(redact, intent, results, passed).actions;
    return if ValidRecord(record) then Some(record) else None;
  }

  // ---------------------------------------------------------------------
  // Once INTENT exists, every outcome can be recorded.
  // ---------------------------------------------------------------------

  /** What the executor can return for a plan: a refusal of preflight, or one result for each push it made. */
  ghost predicate Returned(refs: map<string, Oid>, bindings: Bindings, actions: seq<PlannedAction>,
                           reaches: (Oid, Oid) -> bool, schedule: Schedule, start: nat, w: World, e: Execution,
                           events: seq<Event>) {
    if Passes(refs, bindings, actions) then
      && AllBound(bindings, actions) && |e.results| == |actions|
      && Ran(reaches, bindings, actions, schedule, start, w, e.results, events)
    else
      e.error.Some? && Preflights(refs, bindings, actions, e)
  }

  /** One piece of evidence the executor can return for one action. */
  predicate Possible(e: ActionResult, i: nat, a: PlannedAction) {
    && e.index == i && e.action == a
    && (e.outcome == Applied ==> e.afterOid == a.expectedSource)
  }

  lemma ReturnedIsPossible(refs: map<string, Oid>, bindings: Bindings, actions: seq<PlannedAction>,
                           reaches: (Oid, Oid) -> bool, schedule: Schedule, start: nat, w: World, e: Execution,
                           events: seq<Event>)
    requires Returned(refs, bindings, actions, reaches, schedule, start, w, e, events)
    ensures |e.results| == |actions| && forall i :: 0 <= i < |actions| ==> Possible(e.results[i], i, actions[i])
  {
    hide Passes, AttemptAt, Preflights;
    if !Passes(refs, bindings, actions) {
      PreflightResults(refs, bindings, actions, e);
    }
  }

  lemma OidIsTrimmed(s: string)
    requires IsOid(s)
    ensures TrimSpace(s) == s
  {
    assert !IsSpace(s[0]) && !IsSpace(s[|s| - 1]);
    TrimmedStays(s);
  }

  /** An entry with possible evidence is a valid RESULT entry. */
  lemma EvidenceIsValid(redact: Redact, version: int, mode: Mode, entry: Entry, i: nat, a: PlannedAction,
                        e: ActionResult)
    requires version >= RECORD_VERSION && ValidReviewed(version, entry) && Shows(entry, i, a) && Possible(e, i, a)
    requires entry.after == "" && entry.error == "" && (mode == DRY_RUN ==> e.outcome != Applied)
    ensures ValidReviewed(version, ResultEntry(redact, entry, e))
    ensures ValidEvidence(version, RESULT, mode, ResultEntry(redact, entry, e))
    ensures Shows(ResultEntry(redact, entry, e), i, a)
  {
    hide ValidRecordRef, IsOid, UnsafeDiagnostic, SafeDiagnostic, FromRef;
    OidIsTrimmed(entry.desired);
    assert !UnsafeDiagnostic(SafeDiagnostic(redact, e.error));
    assert IsOid(entry.desired) ==> entry.desired != "" by { hide *; OidIsNotEmpty(entry.desired); }
  }

  lemma OidIsNotEmpty(s: string)
    ensures IsOid(s) ==> s != ""
  {
  }

  lemma IntentEntry(digest: Digest, executionId: string, mode: Mode, artifact: Artifact, i: nat)
    requires CanIntend(digest, executionId, mode, artifact) && i < |artifact.repositories[0].actions|
    ensures var entry, version := IntentOf(digest, executionId, mode, artifact).actions[i],
              IntentOf(digest, executionId, mode, artifact).version;
            && version >= RECORD_VERSION && ValidReviewed(version, entry)
            && entry == PlannedEntry(i, artifact.repositories[0].actions[i])
  {
    hide ValidArtifact, ValidReviewed, ValidHeader;
    assert ValidRecord(IntentOf(digest, executionId, mode, artifact));
  }

  /** The header of a RESULT record is that of the INTENT record. */
  lemma ResultHeader(intent: Record, entries: seq<Entry>)
    requires ValidRecord(intent) && intent.phase == INTENT
    ensures ValidHeader(intent.(phase := RESULT, actions := entries))
  {
    hide ValidIdentifier, IsDigest;
  }

  /**
   * Possible evidence of an apply run whose INTENT was built makes a valid RESULT, entry by entry about its own
   * action.
   */
  lemma PossibleIsRecorded(redact: Redact, digest: Digest, executionId: string, artifact: Artifact,
                           results: seq<ActionResult>)
    requires CanIntend(digest, executionId, APPLY, artifact)
    requires |results| == |Plans(artifact).value[0].actions|
    requires forall i :: 0 <= i < |results| ==> Possible(results[i], i, Plans(artifact).value[0].actions[i])
    ensures Describes(results, Plans(artifact).value[0].actions)
    ensures |IntentOf(digest, executionId, APPLY, artifact).actions| == |results|
    ensures var record, actions := ExecutionRecord(redact, IntentOf(digest, executionId, APPLY, artifact), results),
              Plans(artifact).value[0].actions;
            && ValidRecord(record)
            && forall i :: 0 <= i < |actions| ==> Shows(record.actions[i], i, actions[i])
  {
    hide ValidArtifact, ValidReviewed, ValidHeader, ValidEvidence, ResultEntry, IntentOf, CanIntend, Possible, Shows,
         Plans;
    IntendHasPlan(digest, executionId, APPLY, artifact);
    var actions, intent := Plans(artifact).value[0].actions, IntentOf(digest, executionId, APPLY, artifact);
    var record := ExecutionRecord(redact, intent, results);
    IntentIsValid(digest, executionId, APPLY, artifact);
    ResultHeader(intent, record.actions);
    forall i | 0 <= i < |actions|
      ensures record.actions[i].index == i && results[i].index == i && results[i].action == actions[i]
      ensures ValidReviewed(record.version, record.actions[i])
      ensures ValidEvidence(record.version, RESULT, APPLY, record.actions[i])
      ensures Shows(record.actions[i], i, actions[i])
    {
      EntryIsRecorded(redact, digest, executionId, APPLY, artifact, results[i], i);
    }
  }

  /** Whatever the executor returns, an apply run whose INTENT was built has a valid RESULT. */
  lemma ApplyIsRecorded(redact: Redact, digest: Digest, executionId: string, artifact: Artifact, refs: map<string, Oid>,
                        bindings: Bindings, reaches: (Oid, Oid) -> bool, schedule: Schedule, start: nat, w: World,
                        e: Execution, events: seq<Event>)
    requires CanIntend(digest, executionId, APPLY, artifact)
    requires Returned(refs, bindings, Plans(artifact).value[0].actions, reaches, schedule, start, w, e, events)
    ensures Describes(e.results, Plans(artifact).value[0].actions)
    ensures |IntentOf(digest, executionId, APPLY, artifact).actions| == |e.results|
    ensures var record, actions := ExecutionRecord(redact, IntentOf(digest, executionId, APPLY, artifact), e.results),
              Plans(artifact).value[0].actions;
            && ValidRecord(record)
            && forall i :: 0 <= i < |actions| ==> Shows(record.actions[i], i, actions[i])
  {
    hide ValidArtifact, ValidRecord, ResultEntry, Returned, IntentOf, CanIntend, Possible, Shows, Plans,
         ExecutionRecord;
    IntendHasPlan(digest, executionId, APPLY, artifact);
    ReturnedIsPossible(refs, bindings, Plans(artifact).value[0].actions, reaches, schedule, start, w, e, events);
    PossibleIsRecorded(redact, digest, executionId, artifact, e.results);
  }

  lemma IntentIsValid(digest: Digest, executionId: string, mode: Mode, artifact: Artifact)
    requires CanIntend(digest, executionId, mode, artifact)
    ensures ValidRecord(IntentOf(digest, executionId, mode, artifact))
    ensures IntentOf(digest, executionId, mode, artifact).phase == INTENT
    ensures IntentOf(digest, executionId, mode, artifact).mode == mode
  {
    hide ValidRecord;
  }

  lemma EntryIsRecorded(redact: Redact, digest: Digest, executionId: string, mode: Mode, artifact: Artifact,
                        e: ActionResult, i: nat)
    requires CanIntend(digest, executionId, mode, artifact) && i < |artifact.repositories[0].actions|
    requires i < |Plans(artifact).value[0].actions| && Possible(e, i, Plans(artifact).value[0].actions[i])
    requires mode == DRY_RUN ==> e.outcome != Applied
    ensures i < |IntentOf(digest, executionId, mode, artifact).actions|
    ensures var intent := IntentOf(digest, executionId, mode, artifact);
            var entry := ResultEntry(redact, intent.actions[i], e);
            && entry.index == i && e.index == i && e.action == Plans(artifact).value[0].actions[i]
            && ValidReviewed(intent.version, entry) && ValidEvidence(intent.version, RESULT, mode, entry)
            && Shows(entry, i, Plans(artifact).value[0].actions[i])
            && Shows(intent.actions[i], i, Plans(artifact).value[0].actions[i])
  {
    hide ValidArtifact, ValidReviewed, ValidHeader, ValidEvidence, ResultEntry, IntentOf, CanIntend;
    IntendHasPlan(digest, executionId, mode, artifact);
    IntentEntry(digest, executionId, mode, artifact, i);
    IntentDescribesPlan(digest, executionId, mode, artifact, i);
    var intent := IntentOf(digest, executionId, mode, artifact);
    EvidenceIsValid(redact, intent.version, mode, intent.actions[i], i, Plans(artifact).value[0].actions[i], e);
  }

  /** What a dry run says of action i. */
  function CheckedOutcome(error: Option<ExecutionError>, i: nat): Recorded {
    match error
    case None => VALIDATED
    case Some(PreflightFailed(k, stale)) => if i != k then SKIPPED else if stale then STALE else FAILED
    case Some(_) => FAILED
  }

  /** After a preflight, too: every action VALIDATED, or one of them STALE or FAILED and the rest SKIPPED. */
  lemma DryRunIsRecorded(redact: Redact, digest: Digest, executionId: string, artifact: Artifact,
                         refs: map<string, Oid>, bindings: Bindings, e: Execution)
    requires CanIntend(digest, executionId, DRY_RUN, artifact)
    requires Preflights(refs, bindings, Plans(artifact).value[0].actions, e)
    ensures Describes(e.results, Plans(artifact).value[0].actions) && Consistent(e.results, e.error.None?)
    ensures |IntentOf(digest, executionId, DRY_RUN, artifact).actions| == |e.results|
    ensures var record, actions :=
              PreflightRecord(redact, IntentOf(digest, executionId, DRY_RUN, artifact), e.results, e.error.None?),
              Plans(artifact).value[0].actions;
            && ValidRecord(record)
            && (forall i :: 0 <= i < |actions| ==> Shows(record.actions[i], i, actions[i]))
            && (forall i :: 0 <= i < |actions| ==> record.actions[i].outcome == CheckedOutcome(e.error, i))
  {
    hide ValidArtifact, ValidReviewed, ValidHeader, ValidEvidence, ResultEntry, IntentOf, CanIntend, Shows, Plans,
         Preflights;
    IntendHasPlan(digest, executionId, DRY_RUN, artifact);
    var actions, intent := Plans(artifact).value[0].actions, IntentOf(digest, executionId, DRY_RUN, artifact);
    PreflightResults(refs, bindings, actions, e);
    var record := PreflightRecord(redact, intent, e.results, e.error.None?);
    IntentIsValid(digest, executionId, DRY_RUN, artifact);
    ResultHeader(intent, record.actions);
    forall i | 0 <= i < |actions|
      ensures record.actions[i].index == i
      ensures ValidReviewed(record.version, record.actions[i])
      ensures ValidEvidence(record.version, RESULT, DRY_RUN, record.actions[i])
      ensures Shows(record.actions[i], i, actions[i])
      ensures record.actions[i].outcome ==
                if e.results[i].outcome == Failed then if e.results[i].stale then STALE else FAILED
                else if e.error.None? then VALIDATED else SKIPPED
    {
      EntryIsRecorded(redact, digest, executionId, DRY_RUN, artifact, e.results[i], i);
      OutcomeOfEntry(redact, intent.actions[i], e.results[i]);
      if e.error.None? {
        IntentEntry(digest, executionId, DRY_RUN, artifact, i);
        ValidatedIsValid(intent.version, intent.actions[i], i, actions[i]);
      }
    }
  }

  lemma OutcomeOfEntry(redact: Redact, entry: Entry, e: ActionResult)
    ensures ResultEntry(redact, entry, e).outcome ==
            match e.outcome
            case Applied => APPLIED
            case Failed => if e.stale then STALE else FAILED
            case Skipped => SKIPPED
  {
  }

  lemma ValidatedIsValid(version: int, entry: Entry, i: nat, a: PlannedAction)
    requires version >= RECORD_VERSION && ValidReviewed(version, entry) && Shows(entry, i, a) && entry.after == ""
    requires entry.error == ""
    ensures var r := entry.(outcome := VALIDATED);
            ValidReviewed(version, r) && ValidEvidence(version, RESULT, DRY_RUN, r) && Shows(r, i, a)
  {
    hide ValidRecordRef, IsOid, FromRef;
  }

  lemma PreflightResults(refs: map<string, Oid>, bindings: Bindings, actions: seq<PlannedAction>, e: Execution)
    requires Preflights(refs, bindings, actions, e)
    ensures Describes(e.results, actions) && Consistent(e.results, e.error.None?)
    ensures e.error.None? || e.error.value.PreflightFailed?
    ensures forall i :: 0 <= i < |actions| ==> Possible(e.results[i], i, actions[i]) && e.results[i].outcome != Applied
    ensures forall i :: 0 <= i < |actions| ==>
              && (e.results[i].outcome == Failed <==> e.error.Some? && e.error.value.index == i)
              && (e.results[i].outcome == Failed ==> e.results[i].stale == e.error.value.stale)
  {
    hide Passes, FirstMalformed, FirstStale;
    match e.error
    case None =>
    case Some(PreflightFailed(k, stale)) =>
      PreflightIndex(refs, bindings, actions, e);
      assert e.results[k].outcome == Failed;
  }

  lemma PreflightIndex(refs: map<string, Oid>, bindings: Bindings, actions: seq<PlannedAction>, e: Execution)
    requires Preflights(refs, bindings, actions, e) && e.error.Some?
    ensures e.error.value.PreflightFailed? && e.error.value.index < |actions|
  {
    hide Runnable, Current;
  }

  /** An apply RESULT says APPLIED of exactly the pushes Git acknowledged, with the reviewed commit as evidence. */
  lemma RecordedOutcomeIsTrue(redact: Redact, digest: Digest, executionId: string, artifact: Artifact,
                              refs: map<string, Oid>, bindings: Bindings, reaches: (Oid, Oid) -> bool,
                              schedule: Schedule, start: nat, w: World, e: Execution, events: seq<Event>, i: nat)
    requires CanIntend(digest, executionId, APPLY, artifact)
    requires Returned(refs, bindings, Plans(artifact).value[0].actions, reaches, schedule, start, w, e, events)
    requires i < |Plans(artifact).value[0].actions|
    ensures |IntentOf(digest, executionId, APPLY, artifact).actions| == |e.results| ==
              |Plans(artifact).value[0].actions|
    ensures var actions := Plans(artifact).value[0].actions;
            var entry := ExecutionRecord(redact, IntentOf(digest, executionId, APPLY, artifact), e.results).actions[i];
            if Passes(refs, bindings, actions) then
              var acknowledged := AttemptAt(reaches, bindings, actions, schedule, start, w, i).error.None?;
              && entry.outcome == (if acknowledged then APPLIED else FAILED)
              && entry.after == (if acknowledged then entry.desired else "")
            else
              && e.error.Some? && e.error.value.PreflightFailed?
              && entry.outcome == (if i != e.error.value.index then SKIPPED
                                   else if e.error.value.stale then STALE else FAILED)
              && entry.after == ""
  {
    hide ValidArtifact, ValidRecord, Plans, CanIntend, IntentOf, ResultEntry, Shows, Passes, Preflights, AttemptAt;
    IntendHasPlan(digest, executionId, APPLY, artifact);
    var actions := Plans(artifact).value[0].actions;
    ReturnedIsPossible(refs, bindings, actions, reaches, schedule, start, w, e, events);
    IntentEntry(digest, executionId, APPLY, artifact, i);
    IntentDescribesPlan(digest, executionId, APPLY, artifact, i);
    var entry := IntentOf(digest, executionId, APPLY, artifact).actions[i];
    AfterOfEntry(redact, entry, i, actions[i], e.results[i]);
    OutcomeOfEntry(redact, entry, e.results[i]);
    if Passes(refs, bindings, actions) {
      assert e.results[i] == ResultOf(i, actions[i], AttemptAt(reaches, bindings, actions, schedule, start, w, i));
    } else {
      PreflightResults(refs, bindings, actions, e);
    }
  }

  lemma AfterOfEntry(redact: Redact, entry: Entry, i: nat, a: PlannedAction, e: ActionResult)
    requires IsOid(entry.desired) && Shows(entry, i, a) && Possible(e, i, a) && entry.after == ""
    ensures ResultEntry(redact, entry, e).after == if e.outcome == Applied then entry.desired else ""
    ensures ResultEntry(redact, entry, e).desired == entry.desired
  {
    hide IsOid, SafeDiagnostic;
    OidIsTrimmed(entry.desired);
  }
}
