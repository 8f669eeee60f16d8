/** Evidence of a README apply run: INTENT before any object is made, RESULT for every way the run can end. */
module ManagedJournal {
  import opened Text
  import opened Permutations
  import opened CommitGraph
  import opened PlanArtifact
  import GitTree
  import Pushing = MirrorExecution
  import opened ExecutionJournal
  import opened ManagedPlan
  import opened ManagedBuild
  import opened ManagedPreflight
  import opened ManagedCommit
  import opened ManagedPush

  const MANAGED_RECORD_VERSION := 1
  const MANAGED_RECORD_KIND := "repora.io/managed-artifact-execution-record"

  datatype Stage = NoStage | PREPARE | PUSH | STALE_STAGE

  datatype Recording = Recording(
    uid: string, id: string, provider: string, path: string, branch: string, baseOid: Oid, desiredMode: string,
    desiredSha256: string, preparedCommit: string, pushed: bool, outcome: Recorded)

  datatype ManagedRecord = ManagedRecord(
    version: int, kind: string, executionId: string, phase: Phase, mode: Mode, plan: PlanRef, outcome: Recorded,
    stage: Stage, repositories: seq<Recording>)

  /** The digest of a serialised plan. */
  type PlanDigest = ManagedPlan.Plan -> string

  // ---------------------------------------------------------------------
  // Validation.
  // ---------------------------------------------------------------------

  /** What a recording repeats from the plan. */
  predicate ValidPlanned(r: Recording) {
    && ValidIdentifier(r.uid) && ValidIdentifier(r.id) && ValidIdentifier(r.provider)
    && ValidProviderPath(r.path) && ValidBranch(r.branch)
    && IsOid(r.baseOid) && IsDigest(r.desiredSha256) && GitTree.BlobMode(r.desiredMode)
  }

  predicate ValidOutcome(phase: Phase, r: Recording) {
    && (r.preparedCommit == "" || IsOid(r.preparedCommit))
    && (if phase == INTENT then r.outcome == PLANNED && r.preparedCommit == "" && !r.pushed
        else
          && r.outcome in [APPLIED, FAILED, SKIPPED, STALE]
          && (r.pushed <==> r.outcome == APPLIED)
          && (r.pushed ==> r.preparedCommit != ""))
  }

  predicate ValidManagedHeader(r: ManagedRecord) {
    && r.version == MANAGED_RECORD_VERSION && r.kind == MANAGED_RECORD_KIND
    && ValidIdentifier(r.executionId) && r.phase != NO_PHASE && r.mode == APPLY
    && r.plan.version == PLAN_VERSION && r.plan.kind == PLAN_KIND && IsDigest(r.plan.sha256)
    && r.repositories != []
    && (if r.phase == INTENT then r.outcome == PLANNED && r.stage == NoStage
        else r.outcome in [APPLIED, FAILED, STALE] && (r.outcome == APPLIED ==> r.stage == NoStage))
  }

  predicate AllHave(repositories: seq<Recording>, outcome: Recorded) {
    forall i :: 0 <= i < |repositories| ==> repositories[i].outcome == outcome
  }

  predicate DistinctUids(repositories: seq<Recording>) {
    forall i, j :: 0 <= i < j < |repositories| ==> repositories[i].uid != repositories[j].uid
  }

  predicate ValidManagedRecord(r: ManagedRecord) {
    && ValidManagedHeader(r)
    && DistinctUids(r.repositories)
    && (forall i :: 0 <= i < |r.repositories| ==>
          ValidPlanned(r.repositories[i]) && ValidOutcome(r.phase, r.repositories[i]))
    && (r.phase == RESULT ==>
          && (r.outcome == APPLIED ==> AllHave(r.repositories, APPLIED))
          && (r.outcome == STALE ==> AllHave(r.repositories, STALE))
          && (r.outcome == FAILED ==> !AllHave(r.repositories, APPLIED)))
  }

  function CountOf(repositories: seq<Recording>, outcome: Recorded): (n: nat)
    ensures n <= |repositories|
    ensures n == |repositories| <==> AllHave(repositories, outcome)
  {
    if repositories == [] then 0
    else
      var front, last := repositories[..|repositories| - 1], repositories[|repositories| - 1];
      assert AllHave(repositories, outcome) <==> AllHave(front, outcome) && last.outcome == outcome by {
        assert repositories == front + [last];
        if AllHave(repositories, outcome) {
          assert forall i :: 0 <= i < |front| ==> front[i] == repositories[i];
        }
      }
      CountOf(front, outcome) + (if last.outcome == outcome then 1 else 0)
  }

  /** One pass with counters and a set of seen ids. */
  method ValidateRecord(r: ManagedRecord) returns (ok: bool)
    ensures ok <==> ValidManagedRecord(r)
  {
    hide ValidPlanned, ValidOutcome, ValidManagedHeader, AllHave, CountOf;
    if !ValidManagedHeader(r) {
      return false;
    }
    var seen: set<string> := {};
    var applied, stale := 0, 0;
    CountNone();
    for i := 0 to |r.repositories|
      invariant seen == set k | 0 <= k < i :: r.repositories[k].uid
      invariant forall j, k :: 0 <= j < k < i ==> r.repositories[j].uid != r.repositories[k].uid
      invariant forall k :: 0 <= k < i ==> ValidPlanned(r.repositories[k]) && ValidOutcome(r.phase, r.repositories[k])
      invariant applied == CountOf(r.repositories[..i], APPLIED) && stale == CountOf(r.repositories[..i], STALE)
    {
      var repo := r.repositories[i];
      if !ValidPlanned(repo) || repo.uid in seen || !ValidOutcome(r.phase, repo) {
        return false;
      }
      seen := seen + {repo.uid};
      assert r.repositories[..i + 1] == r.repositories[..i] + [repo];
      CountMore(r.repositories[..i], repo, APPLIED);
      CountMore(r.repositories[..i], repo, STALE);
      if repo.outcome == APPLIED {
        applied := applied + 1;
      }
      if repo.outcome == STALE {
        stale := stale + 1;
      }
    }
    assert r.repositories[..|r.repositories|] == r.repositories;
    CountsAll(r.repositories, APPLIED);
    CountsAll(r.repositories, STALE);
    if r.phase == RESULT {
      return && !(r.outcome == APPLIED && applied != |r.repositories|)
             && !(r.outcome == STALE && stale != |r.repositories|)
             && !(r.outcome == FAILED && applied == |r.repositories|);
    }
    return true;
  }

  lemma CountNone()
    ensures CountOf([], APPLIED) == 0 && CountOf([], STALE) == 0
  {
  }

  lemma CountMore(repositories: seq<Recording>, last: Recording, outcome: Recorded)
    ensures CountOf(repositories + [last], outcome) ==
              CountOf(repositories, outcome) + if last.outcome == outcome then 1 else 0
  {
    hide AllHave;
    assert (repositories + [last])[..|repositories|] == repositories;
  }

  lemma CountsAll(repositories: seq<Recording>, outcome: Recorded)
    ensures CountOf(repositories, outcome) == |repositories| <==> AllHave(repositories, outcome)
  {
    hide AllHave;
  }

  // ---------------------------------------------------------------------
  // INTENT.
  // ---------------------------------------------------------------------

  function Planned(r: RepositoryPlan): (planned: Recording)
    requires |r.actions| == 1
    ensures planned.uid == r.uid && planned.preparedCommit == "" && !planned.pushed
  {
    Recording(r.uid, r.id, r.target.provider, r.target.path, r.target.branch, r.baseOid, r.actions[0].desired.mode,
              r.actions[0].desired.sha256, "", false, PLANNED)
  }

  lemma PlannedIsValid(sha: ManagedPlan.Digest, r: RepositoryPlan)
    requires ManagedPlan.ValidRepository(sha, r)
    ensures ValidPlanned(Planned(r)) && ValidOutcome(INTENT, Planned(r))
  {
    hide ValidIdentifier, ValidProviderPath, ValidBranch, PlanIdentifier, ValidTarget, ValidObserved, IsOid, IsDigest;
    PlanTextIsRecordText(sha, r);
    DigestOfDesired(sha, r);
  }

  lemma DigestOfDesired(sha: ManagedPlan.Digest, r: RepositoryPlan)
    requires ManagedPlan.ValidRepository(sha, r)
    ensures |r.actions| == 1 && IsDigest(r.actions[0].desired.sha256) && GitTree.BlobMode(r.actions[0].desired.mode)
  {
    hide PlanIdentifier, ValidTarget, ValidObserved, IsOid, IsDigest;
  }

  ghost predicate OneActionEach(p: ManagedPlan.Plan) {
    forall i :: 0 <= i < |p.repositories| ==> |p.repositories[i].actions| == 1
  }

  lemma ValidPlanHasActions(sha: ManagedPlan.Digest, p: ManagedPlan.Plan)
    requires ValidPlan(sha, p)
    ensures OneActionEach(p)
    ensures forall i :: 0 <= i < |p.repositories| ==> ManagedPlan.ValidRepository(sha, p.repositories[i])
    ensures forall i, j :: 0 <= i < j < |p.repositories| ==> p.repositories[i].uid != p.repositories[j].uid
    ensures p.kind == PLAN_KIND && p.version == PLAN_VERSION
  {
    hide ManagedPlan.ValidAction, PlanIdentifier, ValidTarget, IsOid, TargetKey;
  }

  ghost predicate IntentFor(digest: PlanDigest, executionId: string, p: ManagedPlan.Plan, r: ManagedRecord) {
    && r.(repositories := []) == ManagedRecord(MANAGED_RECORD_VERSION, MANAGED_RECORD_KIND, executionId, INTENT, APPLY,
                                               PlanRef(p.version, p.kind, digest(p)), PLANNED, NoStage, [])
    && |r.repositories| == |p.repositories|
    && forall i :: 0 <= i < |p.repositories| ==>
         |p.repositories[i].actions| == 1 && r.repositories[i] == Planned(p.repositories[i])
  }

  /** INTENT can be built for every valid plan with repositories, given a symbolic id and a well-formed digest. */
  method ManagedArtifactIntent(sha: ManagedPlan.Digest, digest: PlanDigest, executionId: string, p: ManagedPlan.Plan)
    returns (r: Option<ManagedRecord>)
    ensures r.Some? <==>
              ValidPlan(sha, p) && p.repositories != [] && ValidIdentifier(executionId) && IsDigest(digest(p))
    ensures r.Some? ==> IntentFor(digest, executionId, p, r.value) && ValidManagedRecord(r.value)
  {
    hide ValidPlan, ValidPlanned, ValidOutcome, ValidIdentifier, IsDigest, Planned, ManagedPlan.ValidRepository,
         AllHave;
    var valid := ManagedPlan.Validate(sha, p);
    if !valid {
      return None;
    }
    ValidPlanHasActions(sha, p);
    var repositories := Recordings(p);
    forall i | 0 <= i < |repositories| ensures ValidPlanned(repositories[i]) && ValidOutcome(INTENT, repositories[i]) {
      PlannedIsValid(sha, p.repositories[i]);
    }
    PlannedUids(p, repositories);
    var record := ManagedRecord(MANAGED_RECORD_VERSION, MANAGED_RECORD_KIND, executionId, INTENT, APPLY,
                                PlanRef(p.version, p.kind, digest(p)), PLANNED, NoStage, repositories);
    var ok := ValidateRecord(record);
    return if ok then Some(record) else None;
  }

  method Recordings(p: ManagedPlan.Plan) returns (repositories: seq<Recording>)
    requires OneActionEach(p)
    ensures |repositories| == |p.repositories|
    ensures forall i :: 0 <= i < |repositories| ==> repositories[i] == Planned(p.repositories[i])
  {
    hide Planned;
    repositories := [];
    for i := 0 to |p.repositories|
      invariant |repositories| == i && forall k :: 0 <= k < i ==> repositories[k] == Planned(p.repositories[k])
    {
      repositories := repositories + [Planned(p.repositories[i])];
    }
  }

  lemma PlannedUids(p: ManagedPlan.Plan, repositories: seq<Recording>)
    requires OneActionEach(p) && |repositories| == |p.repositories|
    requires forall i :: 0 <= i < |repositories| ==> repositories[i] == Planned(p.repositories[i])
    requires forall i, j :: 0 <= i < j < |p.repositories| ==> p.repositories[i].uid != p.repositories[j].uid
    ensures DistinctUids(repositories)
  {
  }

  // ---------------------------------------------------------------------
  // Evidence.
  // ---------------------------------------------------------------------

  function PlanUid(r: RepositoryPlan): string {
    r.uid
  }

  function PreparedUid(c: PreparedCommit): string {
    c.uid
  }

  function PushUid(p: PushResult): string {
    p.uid
  }

  predicate GoodCandidate(planned: map<string, RepositoryPlan>, c: PreparedCommit) {
    c.uid in planned && PreparedFor(c, planned[c.uid]) && IdsAreOids(c)
  }

  predicate GoodPush(planned: map<string, RepositoryPlan>, prepared: map<string, PreparedCommit>, p: PushResult) {
    && p.uid in planned && p.uid in prepared
    && p == ResultFor(planned[p.uid], prepared[p.uid], p.pushed)
  }

  /** The evidence fits the plan: known and distinct repositories, reviewed bases, pushes only of what was prepared. */
  predicate Fits(p: ManagedPlan.Plan, prepared: seq<PreparedCommit>, pushes: seq<PushResult>, failed: bool) {
    var planned, candidates := IndexBy(PlanUid, p.repositories), IndexBy(PreparedUid, prepared);
    && NoDuplicates(Map(PreparedUid, prepared))
    && (forall i :: 0 <= i < |prepared| ==> GoodCandidate(planned, prepared[i]))
    && NoDuplicates(Map(PushUid, pushes))
    && (forall i :: 0 <= i < |pushes| ==> GoodPush(planned, candidates, pushes[i]))
    && (!failed ==> |prepared| == |p.repositories| == |pushes| && forall i :: 0 <= i < |pushes| ==> pushes[i].pushed)
  }

  method ValidateEvidence(p: ManagedPlan.Plan, prepared: seq<PreparedCommit>, pushes: seq<PushResult>, failed: bool)
    returns (ok: bool)
    ensures ok <==> Fits(p, prepared, pushes, failed)
  {
    hide IndexBy, Map, NoDuplicates, GoodCandidate, GoodPush;
    var planned := BuildIndex(PlanUid, p.repositories);
    var candidates := DistinctPrepared(planned, prepared);
    if candidates.None? {
      return false;
    }
    ok := DistinctPushes(planned, candidates.value, pushes);
    if !ok {
      return false;
    }
    if !failed {
      if |prepared| != |p.repositories| || |pushes| != |p.repositories| {
        return false;
      }
      for i := 0 to |pushes|
        invariant forall k :: 0 <= k < i ==> pushes[k].pushed
      {
        if !pushes[i].pushed {
          return false;
        }
      }
    }
    return true;
  }

  method DistinctPrepared(planned: map<string, RepositoryPlan>, prepared: seq<PreparedCommit>)
    returns (index: Option<map<string, PreparedCommit>>)
    ensures index.Some? <==>
              && NoDuplicates(Map(PreparedUid, prepared))
              && forall i :: 0 <= i < |prepared| ==> GoodCandidate(planned, prepared[i])
    ensures index.Some? ==> index.value == IndexBy(PreparedUid, prepared)
  {
    hide IndexBy, Map, NoDuplicates, GoodCandidate;
    var byUid: map<string, PreparedCommit> := map[];
    EmptyHasNoDuplicates(PreparedUid);
    for i := 0 to |prepared|
      invariant byUid == IndexBy(PreparedUid, prepared[..i]) && NoDuplicates(Map(PreparedUid, prepared[..i]))
      invariant forall k :: 0 <= k < i ==> GoodCandidate(planned, prepared[k])
    {
      NextKey(PreparedUid, prepared, i);
      if prepared[i].uid in byUid || !GoodCandidate(planned, prepared[i]) {
        return None;
      }
      byUid := byUid[prepared[i].uid := prepared[i]];
    }
    assert prepared[..|prepared|] == prepared;
    return Some(byUid);
  }

  method DistinctPushes(planned: map<string, RepositoryPlan>, candidates: map<string, PreparedCommit>,
                        pushes: seq<PushResult>) returns (ok: bool)
    ensures ok <==>
              && NoDuplicates(Map(PushUid, pushes))
              && forall i :: 0 <= i < |pushes| ==> GoodPush(planned, candidates, pushes[i])
  {
    hide IndexBy, Map, NoDuplicates, GoodPush;
    var byUid: map<string, PushResult> := map[];
    EmptyHasNoDuplicates(PushUid);
    for i := 0 to |pushes|
      invariant byUid == IndexBy(PushUid, pushes[..i]) && NoDuplicates(Map(PushUid, pushes[..i]))
      invariant forall k :: 0 <= k < i ==> GoodPush(planned, candidates, pushes[k])
    {
      NextKey(PushUid, pushes, i);
      if pushes[i].uid in byUid || !GoodPush(planned, candidates, pushes[i]) {
        return false;
      }
      byUid := byUid[pushes[i].uid := pushes[i]];
    }
    assert pushes[..|pushes|] == pushes;
    return true;
  }

  /** One more value with a key not seen before keeps keys distinct; one with a known key never will. */
  lemma NextKey<K, V>(key: V -> K, values: seq<V>, i: nat)
    requires i < |values| && NoDuplicates(Map(key, values[..i]))
    ensures IndexBy(key, values[..i + 1]) == IndexBy(key, values[..i])[key(values[i]) := values[i]]
    ensures key(values[i]) in IndexBy(key, values[..i]) ==> !NoDuplicates(Map(key, values))
    ensures key(values[i]) !in IndexBy(key, values[..i]) ==> NoDuplicates(Map(key, values[..i + 1]))
  {
    hide Map, NoDuplicates;
    assert values[..i + 1][..i] == values[..i];
    IndexOfDistinct(key, values[..i]);
    LastKeyRepeats(key, values[..i + 1]);
    if NoDuplicates(Map(key, values)) {
      DuplicatesStay(key, values, i + 1);
    }
  }

  // ---------------------------------------------------------------------
  // RESULT.
  // ---------------------------------------------------------------------

  function OverallOutcome(prepared: seq<PreparedCommit>, error: Option<ApplyError>): (Recorded, Stage) {
    match error
    case None => (APPLIED, NoStage)
    case Some(StaleError) => (STALE, STALE_STAGE)
    case Some(OtherError) => (FAILED, if prepared == [] then PREPARE else PUSH)
  }

  /** What a RESULT says of one repository; without a push result a successful run has nothing to say. */
  function Outcome(base: Recording, candidate: Option<PreparedCommit>, push: Option<PushResult>,
                   error: Option<ApplyError>): Option<Recording> {
    var r := if candidate.Some? then base.(preparedCommit := candidate.value.commitOid) else base;
    if push.Some? then Some(r.(pushed := push.value.pushed, outcome := if push.value.pushed then APPLIED else FAILED))
    else match error
      case None => None
      case Some(StaleError) => Some(r.(outcome := STALE))
      case Some(OtherError) => Some(r.(outcome := if candidate.Some? then SKIPPED else FAILED))
  }

  function Lookup<V>(index: map<string, V>, key: string): Option<V> {
    if key in index then Some(index[key]) else None
  }

  ghost predicate ResultFits(digest: PlanDigest, executionId: string, p: ManagedPlan.Plan,
                             prepared: seq<PreparedCommit>, pushes: seq<PushResult>, error: Option<ApplyError>,
                             r: ManagedRecord) {
    var (outcome, stage) := OverallOutcome(prepared, error);
    && r.(repositories := []) == ManagedRecord(MANAGED_RECORD_VERSION, MANAGED_RECORD_KIND, executionId, RESULT, APPLY,
                                               PlanRef(p.version, p.kind, digest(p)), outcome, stage, [])
    && |r.repositories| == |p.repositories|
    && forall i :: 0 <= i < |p.repositories| ==>
         Decides(p.repositories[i], IndexBy(PreparedUid, prepared), IndexBy(PushUid, pushes), error, r.repositories[i])
  }

  predicate Decides(planned: RepositoryPlan, prepared: map<string, PreparedCommit>, pushes: map<string, PushResult>,
                    error: Option<ApplyError>, r: Recording) {
    |planned.actions| == 1 && Some(r) == Outcome(Planned(planned), Lookup(prepared, planned.uid),
                                                 Lookup(pushes, planned.uid), error)
  }

  method ManagedArtifactResult(sha: ManagedPlan.Digest, digest: PlanDigest, executionId: string, p: ManagedPlan.Plan,
                               prepared: seq<PreparedCommit>, pushes: seq<PushResult>, error: Option<ApplyError>)
    returns (r: Option<ManagedRecord>)
    ensures r.Some? ==>
              && ValidPlan(sha, p) && Fits(p, prepared, pushes, error.Some?) && ValidManagedRecord(r.value)
              && ResultFits(digest, executionId, p, prepared, pushes, error, r.value)
    ensures r.None? ==>
              || !ValidPlan(sha, p) || !Fits(p, prepared, pushes, error.Some?)
              || forall record :: ResultFits(digest, executionId, p, prepared, pushes, error, record) ==>
                   !ValidManagedRecord(record)
  {
    hide ValidPlan, Fits, ValidManagedRecord, IndexBy, Decides, OverallOutcome, ResultFits;
    var valid := ManagedPlan.Validate(sha, p);
    if !valid {
      return None;
    }
    ValidPlanHasActions(sha, p);
    var fits := ValidateEvidence(p, prepared, pushes, error.Some?);
    if !fits {
      return None;
    }
    var preparedByUid := BuildIndex(PreparedUid, prepared);
    var pushByUid := BuildIndex(PushUid, pushes);
    var repositories, undecided := DecideAll(p, preparedByUid, pushByUid, error);
    if repositories.None? {
      NoResultFits(digest, executionId, p, prepared, pushes, error, undecided);
      return None;
    }
    var (outcome, stage) := OverallOutcome(prepared, error);
    var record := ManagedRecord(MANAGED_RECORD_VERSION, MANAGED_RECORD_KIND, executionId, RESULT, APPLY,
                                PlanRef(p.version, p.kind, digest(p)), outcome, stage, repositories.value);
    DecidedFits(digest, executionId, p, prepared, pushes, error, repositories.value);
    forall other | ResultFits(digest, executionId, p, prepared, pushes, error, other) ensures other == record {
      OneResultFits(digest, executionId, p, prepared, pushes, error, record, other);
    }
    var ok := ValidateRecord(record);
    return if ok then Some(record) else None;
  }

  lemma NoResultFits(digest: PlanDigest, executionId: string, p: ManagedPlan.Plan, prepared: seq<PreparedCommit>,
                     pushes: seq<PushResult>, error: Option<ApplyError>, i: nat)
    requires i < |p.repositories|
    requires forall r :: !Decides(p.repositories[i], IndexBy(PreparedUid, prepared), IndexBy(PushUid, pushes), error, r)
    ensures forall record :: !ResultFits(digest, executionId, p, prepared, pushes, error, record)
  {
    hide IndexBy, Decides, OverallOutcome;
    assert forall record :: ResultFits(digest, executionId, p, prepared, pushes, error, record) ==>
        Decides(p.repositories[i], IndexBy(PreparedUid, prepared), IndexBy(PushUid, pushes), error,
                record.repositories[i]);
  }

  lemma DecidedFits(digest: PlanDigest, executionId: string, p: ManagedPlan.Plan, prepared: seq<PreparedCommit>,
                    pushes: seq<PushResult>, error: Option<ApplyError>, repositories: seq<Recording>)
    requires |repositories| == |p.repositories|
    requires forall i :: 0 <= i < |p.repositories| ==>
               Decides(p.repositories[i], IndexBy(PreparedUid, prepared), IndexBy(PushUid, pushes), error,
                       repositories[i])
    ensures var overall := OverallOutcome(prepared, error);
            ResultFits(digest, executionId, p, prepared, pushes, error,
                       ManagedRecord(MANAGED_RECORD_VERSION, MANAGED_RECORD_KIND, executionId, RESULT, APPLY,
                                     PlanRef(p.version, p.kind, digest(p)), overall.0, overall.1, repositories))
  {
    hide IndexBy, Decides, OverallOutcome;
  }

  method DecideAll(p: ManagedPlan.Plan, prepared: map<string, PreparedCommit>, pushes: map<string, PushResult>,
                   error: Option<ApplyError>)
    returns (r: Option<seq<Recording>>, ghost undecided: nat)
    requires OneActionEach(p)
    ensures r.Some? ==>
              && |r.value| == |p.repositories|
              && forall i :: 0 <= i < |p.repositories| ==>
                   Decides(p.repositories[i], prepared, pushes, error, r.value[i])
    ensures r.None? ==>
              && undecided < |p.repositories|
              && forall recording :: !Decides(p.repositories[undecided], prepared, pushes, error, recording)
  {
    hide Planned, Outcome, Lookup;
    var repositories := Recordings(p);
    for i := 0 to |repositories|
      invariant |repositories| == |p.repositories|
      invariant forall k :: 0 <= k < i ==> Decides(p.repositories[k], prepared, pushes, error, repositories[k])
      invariant forall k :: i <= k < |repositories| ==> repositories[k] == Planned(p.repositories[k])
    {
      var decided :=
        Outcome(repositories[i], Lookup(prepared, repositories[i].uid), Lookup(pushes, repositories[i].uid), error);
      if decided.None? {
        return None, i;
      }
      repositories := repositories[i := decided.value];
    }
    return Some(repositories), 0;
  }

  lemma OneResultFits(digest: PlanDigest, executionId: string, p: ManagedPlan.Plan, prepared: seq<PreparedCommit>,
                      pushes: seq<PushResult>, error: Option<ApplyError>, one: ManagedRecord, two: ManagedRecord)
    requires ResultFits(digest, executionId, p, prepared, pushes, error, one)
    requires ResultFits(digest, executionId, p, prepared, pushes, error, two)
    ensures one == two
  {
    hide Planned, Outcome, Lookup, IndexBy, OverallOutcome;
    assert one.repositories == two.repositories;
    assert one == one.(repositories := []).(repositories := one.repositories);
    assert two == two.(repositories := []).(repositories := two.repositories);
  }

  // ---------------------------------------------------------------------
  // Every outcome of Prepare and Push can be recorded.
  // ---------------------------------------------------------------------

  /** Prepare failed, or every candidate was made and Push pushed a prefix of them. */
  predicate CanHappen(p: ManagedPlan.Plan, prepared: seq<PreparedCommit>, pushes: seq<PushResult>,
                      error: Option<ApplyError>) {
    && (prepared == [] || |prepared| == |p.repositories|)
    && (forall i :: 0 <= i < |prepared| ==> PreparedFor(prepared[i], p.repositories[i]))
    && |pushes| <= |prepared|
    && (forall i :: 0 <= i < |pushes| ==>
          && pushes[i] == ResultFor(p.repositories[i], prepared[i], pushes[i].pushed)
          && (i < |pushes| - 1 ==> pushes[i].pushed))
    && (error == Some(StaleError) ==> pushes == [])
    && (error.None? <==> |pushes| == |p.repositories| && forall i :: 0 <= i < |pushes| ==> pushes[i].pushed)
  }

  predicate AllIdsAreOids(prepared: seq<PreparedCommit>) {
    forall i :: 0 <= i < |prepared| ==> IdsAreOids(prepared[i])
  }

  lemma {:induction false} AlignedIndex<V>(key: V -> string, values: seq<V>, uids: seq<string>)
    requires |values| <= |uids| && NoDuplicates(uids)
    requires forall i :: 0 <= i < |values| ==> key(values[i]) == uids[i]
    ensures NoDuplicates(Map(key, values))
    ensures forall i :: 0 <= i < |uids| ==>
              Lookup(IndexBy(key, values), uids[i]) == if i < |values| then Some(values[i]) else None
  {
    hide IndexBy;
    IndexOfDistinctKeys(key, values, uids);
    IndexOfDistinct(key, values);
    forall k | k in IndexBy(key, values) ensures exists j :: 0 <= j < |values| && uids[j] == k {
      var v := IndexBy(key, values)[k];
      var j :| 0 <= j < |values| && values[j] == v;
      assert uids[j] == k;
    }
    forall i | 0 <= i < |values| ensures Lookup(IndexBy(key, values), uids[i]) == Some(values[i]) {
      assert values[i] in values;
    }
  }

  lemma IndexOfDistinctKeys<V>(key: V -> string, values: seq<V>, uids: seq<string>)
    requires |values| <= |uids| && NoDuplicates(uids)
    requires forall i :: 0 <= i < |values| ==> key(values[i]) == uids[i]
    ensures NoDuplicates(Map(key, values))
  {
  }

  function Uids(p: ManagedPlan.Plan): (r: seq<string>)
    ensures |r| == |p.repositories|
  {
    seq(|p.repositories|, i requires 0 <= i < |p.repositories| => p.repositories[i].uid)
  }

  lemma DistinctPlanUids(sha: ManagedPlan.Digest, p: ManagedPlan.Plan)
    requires ValidPlan(sha, p)
    ensures NoDuplicates(Uids(p))
  {
    hide ManagedPlan.ValidRepository, TargetKey;
  }

  /** What can happen fits the plan exactly when the candidates' ids are object ids. */
  lemma PossibleEvidenceFits(sha: ManagedPlan.Digest, p: ManagedPlan.Plan, prepared: seq<PreparedCommit>,
                             pushes: seq<PushResult>, error: Option<ApplyError>)
    requires ValidPlan(sha, p) && CanHappen(p, prepared, pushes, error)
    ensures Fits(p, prepared, pushes, error.Some?) <==> AllIdsAreOids(prepared)
    ensures forall i :: 0 <= i < |p.repositories| ==>
              && Lookup(IndexBy(PreparedUid, prepared), p.repositories[i].uid) ==
                   (if prepared == [] then None else Some(prepared[i]))
              && Lookup(IndexBy(PushUid, pushes), p.repositories[i].uid) ==
                   (if i < |pushes| then Some(pushes[i]) else None)
  {
    hide ValidPlan, IndexBy, Map, NoDuplicates, IdsAreOids;
    var uids := Uids(p);
    DistinctPlanUids(sha, p);
    AlignedIndex(PlanUid, p.repositories, uids);
    AlignedIndex(PreparedUid, prepared, uids);
    AlignedIndex(PushUid, pushes, uids);
    var planned, candidates := IndexBy(PlanUid, p.repositories), IndexBy(PreparedUid, prepared);
    forall i | 0 <= i < |prepared| ensures GoodCandidate(planned, prepared[i]) <==> IdsAreOids(prepared[i]) {
      assert uids[i] == prepared[i].uid;
    }
    forall i | 0 <= i < |pushes| ensures GoodPush(planned, candidates, pushes[i]) {
      assert uids[i] == pushes[i].uid;
    }
    forall i | 0 <= i < |p.repositories|
      ensures Lookup(candidates, p.repositories[i].uid) == (if prepared == [] then None else Some(prepared[i]))
      ensures Lookup(IndexBy(PushUid, pushes), p.repositories[i].uid) ==
                if i < |pushes| then Some(pushes[i]) else None
    {
      assert uids[i] == p.repositories[i].uid;
    }
  }

  /** What a RESULT says of the i-th repository of a run. */
  function TrueOutcome(i: nat, prepared: seq<PreparedCommit>, pushes: seq<PushResult>,
                       error: Option<ApplyError>): Recorded {
    if i < |pushes| then (if pushes[i].pushed then APPLIED else FAILED)
    else if error == Some(StaleError) then STALE
    else if prepared != [] then SKIPPED
    else FAILED
  }

  /** The recordings of a run: planned parts repeated, candidates named, outcomes as they were. */
  ghost predicate TellsTruth(p: ManagedPlan.Plan, prepared: seq<PreparedCommit>, pushes: seq<PushResult>,
                             error: Option<ApplyError>, r: ManagedRecord) {
    && |r.repositories| == |p.repositories|
    && forall i :: 0 <= i < |p.repositories| ==>
         && |p.repositories[i].actions| == 1
         && (prepared != [] ==> i < |prepared|)
         && r.repositories[i] == Planned(p.repositories[i]).(
              preparedCommit := if prepared == [] then "" else prepared[i].commitOid,
              pushed := i < |pushes| && pushes[i].pushed,
              outcome := TrueOutcome(i, prepared, pushes, error))
  }

  lemma ResultTellsTruth(sha: ManagedPlan.Digest, digest: PlanDigest, executionId: string, p: ManagedPlan.Plan,
                         prepared: seq<PreparedCommit>, pushes: seq<PushResult>, error: Option<ApplyError>,
                         r: ManagedRecord)
    requires ValidPlan(sha, p) && CanHappen(p, prepared, pushes, error)
    requires ResultFits(digest, executionId, p, prepared, pushes, error, r)
    ensures TellsTruth(p, prepared, pushes, error, r)
  {
    hide ValidPlan, IndexBy, Fits, IdsAreOids;
    PossibleEvidenceFits(sha, p, prepared, pushes, error);
  }

  /** Some record fits: no repository of a successful run lacks its push result. */
  lemma SomeResultFits(sha: ManagedPlan.Digest, digest: PlanDigest, executionId: string, p: ManagedPlan.Plan,
                       prepared: seq<PreparedCommit>, pushes: seq<PushResult>, error: Option<ApplyError>)
    returns (r: ManagedRecord)
    requires ValidPlan(sha, p) && CanHappen(p, prepared, pushes, error)
    ensures ResultFits(digest, executionId, p, prepared, pushes, error, r)
  {
    hide ValidPlan, IndexBy, Fits, IdsAreOids, Planned, TrueOutcome, Decides, OverallOutcome, PreparedFor, ResultFor;
    ValidPlanHasActions(sha, p);
    var (outcome, stage) := OverallOutcome(prepared, error);
    r := ManagedRecord(MANAGED_RECORD_VERSION, MANAGED_RECORD_KIND, executionId, RESULT, APPLY,
                       PlanRef(p.version, p.kind, digest(p)), outcome, stage,
      seq(|p.repositories|, i requires 0 <= i < |p.repositories| && |p.repositories[i].actions| == 1 =>
        Planned(p.repositories[i]).(
          preparedCommit := if prepared == [] then "" else prepared[i].commitOid,
          pushed := i < |pushes| && pushes[i].pushed,
          outcome := TrueOutcome(i, prepared, pushes, error))));
    forall i | 0 <= i < |p.repositories|
      ensures Decides(p.repositories[i], IndexBy(PreparedUid, prepared), IndexBy(PushUid, pushes), error,
                      r.repositories[i])
    {
      DecidesTruly(sha, i, p, prepared, pushes, error, r.repositories[i]);
    }
  }

  lemma DecidesTruly(sha: ManagedPlan.Digest, i: nat, p: ManagedPlan.Plan, prepared: seq<PreparedCommit>,
                     pushes: seq<PushResult>, error: Option<ApplyError>, r: Recording)
    requires ValidPlan(sha, p) && CanHappen(p, prepared, pushes, error) && i < |p.repositories|
    requires |p.repositories[i].actions| == 1
    requires r == Planned(p.repositories[i]).(preparedCommit := if prepared == [] then "" else prepared[i].commitOid,
                                              pushed := i < |pushes| && pushes[i].pushed,
                                              outcome := TrueOutcome(i, prepared, pushes, error))
    ensures Decides(p.repositories[i], IndexBy(PreparedUid, prepared), IndexBy(PushUid, pushes), error, r)
  {
    hide ValidPlan, IndexBy, Fits, IdsAreOids, Planned, Outcome, TrueOutcome, PreparedFor, ResultFor;
    PossibleEvidenceFits(sha, p, prepared, pushes, error);
    OutcomeIsTrue(Planned(p.repositories[i]), i, p, prepared, pushes, error);
  }

  lemma OutcomeIsTrue(base: Recording, i: nat, p: ManagedPlan.Plan, prepared: seq<PreparedCommit>,
                      pushes: seq<PushResult>, error: Option<ApplyError>)
    requires CanHappen(p, prepared, pushes, error) && i < |p.repositories| && base.preparedCommit == "" && !base.pushed
    ensures Outcome(base, if prepared == [] then None else Some(prepared[i]),
                    if i < |pushes| then Some(pushes[i]) else None, error)
            == Some(base.(preparedCommit := if prepared == [] then "" else prepared[i].commitOid,
                          pushed := i < |pushes| && pushes[i].pushed,
                          outcome := TrueOutcome(i, prepared, pushes, error)))
  {
    hide ResultFor, PreparedFor;
  }

  /** Such a record is valid. */
  lemma TrueRecordIsValid(sha: ManagedPlan.Digest, digest: PlanDigest, executionId: string, p: ManagedPlan.Plan,
                          prepared: seq<PreparedCommit>, pushes: seq<PushResult>, error: Option<ApplyError>,
                          r: ManagedRecord)
    requires ValidPlan(sha, p) && p.repositories != [] && CanHappen(p, prepared, pushes, error)
    requires AllIdsAreOids(prepared)
    requires ValidIdentifier(executionId) && IsDigest(digest(p))
    requires ResultFits(digest, executionId, p, prepared, pushes, error, r)
    ensures ValidManagedRecord(r)
    ensures r.outcome == APPLIED <==> error.None?
  {
    hide ValidPlan, CanHappen, ValidPlanned, ValidOutcome, ValidIdentifier, IsDigest, AllHave, TellsTruth,
         ValidManagedHeader, ResultFits, AllIdsAreOids, DistinctUids, ValidProviderPath, ValidBranch, IsOid;
    ResultTellsTruth(sha, digest, executionId, p, prepared, pushes, error, r);
    assert p.kind == PLAN_KIND && p.version == PLAN_VERSION by {
      ValidPlanHasActions(sha, p);
    }
    HeaderOfResult(digest, executionId, p, prepared, pushes, error, r);
    assert (AllHave(r.repositories, APPLIED) <==> error.None?)
           && (error == Some(StaleError) ==> AllHave(r.repositories, STALE)) by {
      AppliedExactly(p, prepared, pushes, error, r);
    }
    RecordingsAreValid(sha, p, prepared, pushes, error, r);
  }

  lemma HeaderOfResult(digest: PlanDigest, executionId: string, p: ManagedPlan.Plan, prepared: seq<PreparedCommit>,
                       pushes: seq<PushResult>, error: Option<ApplyError>, r: ManagedRecord)
    requires p.kind == PLAN_KIND && p.version == PLAN_VERSION && p.repositories != [] && ValidIdentifier(executionId)
    requires IsDigest(digest(p))
    requires ResultFits(digest, executionId, p, prepared, pushes, error, r)
    ensures ValidManagedHeader(r) && r.phase == RESULT
    ensures r.outcome == match error case None => APPLIED case Some(StaleError) => STALE case Some(OtherError) => FAILED
  {
    hide ValidIdentifier, IsDigest, Outcome, IndexBy, Planned;
  }

  lemma RecordingsAreValid(sha: ManagedPlan.Digest, p: ManagedPlan.Plan, prepared: seq<PreparedCommit>,
                           pushes: seq<PushResult>, error: Option<ApplyError>, r: ManagedRecord)
    requires ValidPlan(sha, p) && CanHappen(p, prepared, pushes, error) && AllIdsAreOids(prepared)
    requires TellsTruth(p, prepared, pushes, error, r)
    ensures DistinctUids(r.repositories)
    ensures forall i :: 0 <= i < |r.repositories| ==>
              ValidPlanned(r.repositories[i]) && ValidOutcome(RESULT, r.repositories[i])
  {
    hide ValidPlan, ValidPlanned, ValidOutcome, IsOid, Planned, ResultFor, PreparedFor, ManagedPlan.ValidRepository;
    ValidPlanHasActions(sha, p);
    forall i | 0 <= i < |r.repositories|
      ensures ValidPlanned(r.repositories[i]) && ValidOutcome(RESULT, r.repositories[i]) {
      PlannedIsValid(sha, p.repositories[i]);
      assert prepared != [] ==> IdsAreOids(prepared[i]);
      OidIsNotEmpty(r.repositories[i].preparedCommit);
      RecordingIsValid(Planned(p.repositories[i]), r.repositories[i]);
    }
  }

  /** The parts a run fills in do not touch what came from the plan. */
  lemma RecordingIsValid(base: Recording, r: Recording)
    requires ValidPlanned(base)
    requires r == base.(preparedCommit := r.preparedCommit, pushed := r.pushed, outcome := r.outcome)
    requires r.preparedCommit == "" || IsOid(r.preparedCommit)
    requires r.outcome in [APPLIED, FAILED, SKIPPED, STALE] && (r.pushed <==> r.outcome == APPLIED)
    requires (r.pushed ==> r.preparedCommit != "")
    ensures ValidPlanned(r) && ValidOutcome(RESULT, r)
  {
    hide ValidIdentifier, ValidProviderPath, ValidBranch, IsDigest, IsOid;
  }

  lemma AppliedExactly(p: ManagedPlan.Plan, prepared: seq<PreparedCommit>, pushes: seq<PushResult>,
                       error: Option<ApplyError>, r: ManagedRecord)
    requires p.repositories != [] && CanHappen(p, prepared, pushes, error) && TellsTruth(p, prepared, pushes, error, r)
    ensures AllHave(r.repositories, APPLIED) <==> error.None?
    ensures error == Some(StaleError) ==> AllHave(r.repositories, STALE)
    ensures forall i :: 0 <= i < |p.repositories| ==>
              (r.repositories[i].outcome == APPLIED <==> i < |pushes| && pushes[i].pushed)
    ensures forall i, j :: 0 <= i < j < |p.repositories| && r.repositories[j].outcome == APPLIED ==>
              r.repositories[i].outcome == APPLIED
  {
    hide Planned;
    if AllHave(r.repositories, APPLIED) {
      forall i | 0 <= i < |p.repositories| ensures i < |pushes| && pushes[i].pushed {
        assert r.repositories[i].outcome == APPLIED;
      }
      var last := |p.repositories| - 1;
      assert r.repositories[last].outcome == APPLIED;
    }
  }

  // ---------------------------------------------------------------------
  // The whole run.
  // ---------------------------------------------------------------------

  /** Where records go; each write is accepted or refused. */
  class Writer {
    const refuses: nat -> bool
    var attempts: nat
    var log: seq<ManagedRecord>

    constructor (refuses: nat -> bool)
      ensures this.refuses == refuses && attempts == 0 && log == []
    {
      this.refuses, attempts, log := refuses, 0, [];
    }

    method WriteManagedArtifact(record: ManagedRecord) returns (ok: bool)
      modifies this
      ensures ok == !refuses(old(attempts)) && attempts == old(attempts) + 1
      ensures log == if ok then old(log) + [record] else old(log)
    {
      ok := !refuses(attempts);
      attempts := attempts + 1;
      if ok {
        log := log + [record];
      }
    }
  }

  datatype RepositoryReport = RepositoryReport(
    uid: string, id: string, branch: string, baseOid: Oid, commitOid: string, pushed: bool, outcome: Recorded)

  datatype ApplyReport = ApplyReport(
    outcome: Option<Recorded>, stage: Stage, repositories: seq<RepositoryReport>, intent: bool, result: bool,
    error: Option<ApplyFailure>)

  datatype ApplyFailure =
    | InvalidPlanFailure
    | NoAudit
    | NoIntentRecord
    | IntentNotPersisted
    | Run(error: Option<ApplyError>, journal: Option<JournalFailure>)

  datatype JournalFailure = NotCreated | NotPersisted

  function Projected(r: Recording): RepositoryReport {
    RepositoryReport(r.uid, r.id, r.branch, r.baseOid, r.preparedCommit, r.pushed, r.outcome)
  }

  method ProjectRecord(report: ApplyReport, record: ManagedRecord) returns (projected: ApplyReport)
    ensures |projected.repositories| == |record.repositories|
    ensures forall i :: 0 <= i < |record.repositories| ==>
              projected.repositories[i] == Projected(record.repositories[i])
    ensures projected == report.(outcome := Some(record.outcome), stage := record.stage,
                                 repositories := projected.repositories)
  {
    var repositories := [];
    for i := 0 to |record.repositories|
      invariant |repositories| == i && forall k :: 0 <= k < i ==> repositories[k] == Projected(record.repositories[k])
    {
      repositories := repositories + [Projected(record.repositories[i])];
    }
    projected := report.(outcome := Some(record.outcome), stage := record.stage, repositories := repositories);
  }

  /**
   * What one run needs besides the plan: configuration and canonical state before preparing and again before pushing.
   */
  datatype Situation = Situation(spec: seq<Repo>, before: Source, now: Source, digest: PlanDigest, executionId: string)

  /** The observer is truthful, and object ids are well formed and trustworthy for the plan. */
  ghost predicate Trusted(p: ManagedPlan.Plan, q: Situation, git: Plumbing, o: Objects) {
    WellFormedIds(git) && TrustedIds(git, o, p) && SeesTruly(q.before, q.spec, p, o)
  }

  /** Nothing but the remotes can get in the way: both preflights pass and Git does its part. */
  ghost predicate Unhindered(p: ManagedPlan.Plan, q: Situation, git: Plumbing, o: Objects) {
    && AbleForAll(git, o, p) && Trusted(p, q, git, o)
    && Holds(q.before, q.spec, p) && Holds(q.now, q.spec, p)
  }

  lemma WhenUnhindered(p: ManagedPlan.Plan, q: Situation, git: Plumbing, o: Objects)
    ensures Unhindered(p, q, git, o) ==>
              AbleForAll(git, o, p) && Trusted(p, q, git, o) && Holds(q.before, q.spec, p) && Holds(q.now, q.spec, p)
  {
    hide AbleForAll, Trusted, Holds;
  }

  /** What a run made of an admitted plan: what it prepared and pushed, and where that left the remotes. */
  ghost predicate Executed(p: ManagedPlan.Plan, q: Situation, git: Plumbing, was: Objects, now: Objects,
                           schedule: Pushing.Schedule, start: nat, w: Pushing.World, end: Pushing.World,
                           prepared: seq<PreparedCommit>, pushes: seq<PushResult>, error: Option<ApplyError>,
                           events: seq<Pushing.Event>) {
    && CanHappen(p, prepared, pushes, error)
    && (WellFormedIds(git) ==> AllIdsAreOids(prepared))
    && (Unhindered(p, q, git, was) ==> pushes != [])
    && (pushes == [] ==> events == [] && end == w)
    && (pushes != [] ==>
          && Holds(q.now, q.spec, p) && AllTrustworthy(git, now, q.now.sha, p, prepared)
          && PushedInOrder(schedule, start, w, p.repositories, prepared, pushes, events)
          && end == WorldAfterPushes(schedule, start, w, p.repositories, prepared, |pushes|)
          && (error.Some? ==> !pushes[|pushes| - 1].pushed))
  }

  /** Prepares, then pushes what was prepared. */
  method PrepareAndPush(p: ManagedPlan.Plan, q: Situation, store: Store, remote: Canonical)
    returns (prepared: seq<PreparedCommit>, pushes: seq<PushResult>, error: Option<ApplyError>)
    requires Honest(store.git) && q.now.sha == q.before.sha && p.repositories != []
    modifies store, remote
    ensures old(remote.events) <= remote.events
    ensures Executed(p, q, store.git, old(store.objects), store.objects, remote.schedule, old(remote.turn),
                     old(remote.world), remote.world, prepared, pushes, error,
                     remote.events[|old(remote.events)|..])
    ensures PlanVerdict(q.before, q.spec, p) != Passed ==>
              prepared == [] && error == Some(if PlanVerdict(q.before, q.spec, p) == StalePlan then StaleError
                                              else OtherError)
    ensures Trusted(p, q, store.git,
                    old(store.objects)) && prepared != [] && PlanVerdict(q.now, q.spec, p) != Passed ==>
              error == Some(if PlanVerdict(q.now, q.spec, p) == StalePlan then StaleError else OtherError)
  {
    hide Unhindered, AbleForAll, PlanVerdict, SeesTruly, TrustedIds, OnBase, Made, Holds, AllTrustworthy, PushedInOrder,
         WellFormedIds, IdsAreOids, SetsOnlyReadme, ManagedPlan.ValidRepository, WorldAfterPushes, ResultFor,
         PreparedFor;
    prepared, error := Prepare(q.before, q.spec, p, store);
    pushes := [];
    PassedExactlyWhenHolds(q.before, q.spec, p);
    PassedExactlyWhenHolds(q.now, q.spec, p);
    WhenUnhindered(p, q, store.git, old(store.objects));
    if error.Some? {
      return;
    }
    if Trusted(p, q, store.git, old(store.objects)) {
      MadeIsTrustworthy(store.git, store.objects, q.now.sha, p, prepared);
    }
    pushes, error := Push(q.now, q.spec, p, prepared, store, remote);
    if pushes == [] {
      return;
    }
    PushesFit(remote.schedule, old(remote.turn), old(remote.world), p.repositories, prepared, pushes,
              remote.events[|old(remote.events)|..]);
  }

  lemma PushesFit(schedule: Pushing.Schedule, start: nat, w: Pushing.World, repos: seq<RepositoryPlan>,
                  prepared: seq<PreparedCommit>, results: seq<PushResult>, events: seq<Pushing.Event>)
    requires PushedInOrder(schedule, start, w, repos, prepared, results, events)
    ensures |results| == |events| <= |repos| == |prepared|
    ensures forall i :: 0 <= i < |results| ==>
              results[i] == ResultFor(repos[i], prepared[i],
                                      results[i].pushed) && (i < |results| - 1 ==> results[i].pushed)
  {
    hide PushAt;
  }

  predicate Admitted(p: ManagedPlan.Plan, q: Situation) {
    ValidPlan(q.before.sha, p) && p.repositories != [] && ValidIdentifier(q.executionId) && IsDigest(q.digest(p))
  }

  /** What happened between INTENT and RESULT. */
  datatype Trace = Trace(
    intent: ManagedRecord, prepared: seq<PreparedCommit>, pushes: seq<PushResult>, error: Option<ApplyError>,
    record: ManagedRecord)

  /** The RESULT of a run: valid, true of the run, offered to the journal, and told to the caller. */
  ghost predicate Concluded(p: ManagedPlan.Plan, q: Situation, t: Trace, refused: bool, r: ApplyReport,
                            log: seq<ManagedRecord>) {
    && ResultFits(q.digest, q.executionId, p, t.prepared, t.pushes, t.error, t.record)
    && ValidManagedRecord(t.record) && TellsTruth(p, t.prepared, t.pushes, t.error, t.record)
    && (t.record.outcome == APPLIED <==> t.error.None?)
    && log == [t.intent] + (if refused then [] else [t.record])
    && r.outcome == Some(t.record.outcome) && r.stage == t.record.stage
    && |r.repositories| == |t.record.repositories|
    && (forall i :: 0 <= i < |r.repositories| ==> r.repositories[i] == Projected(t.record.repositories[i]))
    && (r.error.None? <==> t.error.None? && !refused)
  }

  method Finish(p: ManagedPlan.Plan, q: Situation, report: ApplyReport, t: Trace, writer: Writer)
    returns (r: ApplyReport, record: Option<ManagedRecord>)
    requires Admitted(p, q) && CanHappen(p, t.prepared, t.pushes, t.error)
    modifies writer
    ensures record.Some? <==> AllIdsAreOids(t.prepared)
    ensures record.Some? ==>
              && writer.attempts == old(writer.attempts) + 1
              && Concluded(p, q, t.(record := record.value), writer.refuses(old(writer.attempts)), r,
                           [t.intent] + (if writer.refuses(old(writer.attempts)) then [] else [record.value]))
              && writer.log == old(writer.log) + (if writer.refuses(old(writer.attempts)) then [] else [record.value])
    ensures record.None? ==>
              writer.log == old(writer.log) && r == report.(error := Some(Run(t.error, Some(NotCreated))))
  {
    hide Admitted, CanHappen, ResultFits, ValidManagedRecord, TellsTruth, AllIdsAreOids, Fits, ValidPlan, Projected;
    AdmittedResult(p, q, t);
    record := ManagedArtifactResult(q.before.sha, q.digest, q.executionId, p, t.prepared, t.pushes, t.error);
    if record.None? {
      return report.(error := Some(Run(t.error, Some(NotCreated)))), None;
    }
    r := ProjectRecord(report, record.value);
    ResultTellsTruthWhenAdmitted(p, q, t, record.value);
    var written := writer.WriteManagedArtifact(record.value);
    r := r.(result := written,
            error := if t.error.None? && written then None
                     else Some(Run(t.error, if written then None else Some(NotPersisted))));
  }

  /** After an admitted run, RESULT can be created exactly when the prepared object ids are well formed. */
  lemma AdmittedResult(p: ManagedPlan.Plan, q: Situation, t: Trace)
    requires Admitted(p, q) && CanHappen(p, t.prepared, t.pushes, t.error)
    ensures ValidPlan(q.before.sha, p)
    ensures Fits(p, t.prepared, t.pushes, t.error.Some?) <==> AllIdsAreOids(t.prepared)
    ensures AllIdsAreOids(t.prepared) ==>
              exists record :: ResultFits(q.digest, q.executionId, p, t.prepared, t.pushes, t.error,
                                          record) && ValidManagedRecord(record)
  {
    hide ValidPlan, CanHappen, ResultFits, ValidManagedRecord, AllIdsAreOids, Fits, ValidIdentifier, IsDigest;
    PossibleEvidenceFits(q.before.sha, p, t.prepared, t.pushes, t.error);
    var record := SomeResultFits(q.before.sha, q.digest, q.executionId, p, t.prepared, t.pushes, t.error);
    if AllIdsAreOids(t.prepared) {
      TrueRecordIsValid(q.before.sha, q.digest, q.executionId, p, t.prepared, t.pushes, t.error, record);
    }
  }

  lemma ResultTellsTruthWhenAdmitted(p: ManagedPlan.Plan, q: Situation, t: Trace, record: ManagedRecord)
    requires Admitted(p, q) && CanHappen(p, t.prepared, t.pushes, t.error) && AllIdsAreOids(t.prepared)
    requires ResultFits(q.digest, q.executionId, p, t.prepared, t.pushes, t.error, record)
    ensures TellsTruth(p, t.prepared, t.pushes, t.error, record) && (record.outcome == APPLIED <==> t.error.None?)
  {
    hide ValidPlan, CanHappen, ResultFits, ValidManagedRecord, AllIdsAreOids, ValidIdentifier, IsDigest, TellsTruth;
    ResultTellsTruth(q.before.sha, q.digest, q.executionId, p, t.prepared, t.pushes, t.error, record);
    TrueRecordIsValid(q.before.sha, q.digest, q.executionId, p, t.prepared, t.pushes, t.error, record);
  }

  /**
   * Applies a reviewed plan. Without an accepted INTENT nothing is made or pushed. After one, RESULT is created
   * whenever Git's object ids are well formed, whatever Prepare and Push ran into.
   */
  method Execute(p: ManagedPlan.Plan, q: Situation, store: Store, remote: Canonical, writer: Writer)
    returns (r: ApplyReport, ghost t: Trace)
    requires Honest(store.git) && q.now.sha == q.before.sha
    modifies store, remote, writer
    ensures !Admitted(p, q) || writer.refuses(old(writer.attempts)) ==>
              && store.objects == old(store.objects) && remote.world == old(remote.world)
              && remote.events == old(remote.events)
              && writer.log == old(writer.log)
    ensures Admitted(p, q) && !writer.refuses(old(writer.attempts)) ==>
              && old(writer.log) <= writer.log && old(remote.events) <= remote.events
              && IntentFor(q.digest, q.executionId, p, t.intent) && ValidManagedRecord(t.intent)
              && Executed(p, q, store.git, old(store.objects), store.objects, remote.schedule, old(remote.turn),
                          old(remote.world), remote.world, t.prepared, t.pushes, t.error,
                          remote.events[|old(remote.events)|..])
              && (if AllIdsAreOids(t.prepared) then
                    Concluded(p, q, t, writer.refuses(old(writer.attempts) + 1), r, writer.log[|old(writer.log)|..])
                  else writer.log == old(writer.log) + [t.intent] && r.outcome == None && r.error.Some?)
  {
    hide Unhindered, PlanVerdict, Honest, Holds, AllTrustworthy, PushedInOrder, WellFormedIds, AllIdsAreOids, ValidPlan,
         ValidManagedRecord, IntentFor, CanHappen, Concluded, ValidIdentifier, IsDigest;
    r := ApplyReport(None, NoStage, [], false, false, None);
    ghost var none := ManagedRecord(0, "", "", INTENT, APPLY, PlanRef(0, "", ""), PLANNED, NoStage, []);
    t := Trace(none, [], [], None, none);
    var valid := ManagedPlan.Validate(q.before.sha, p);
    if !valid {
      return r.(error := Some(InvalidPlanFailure)), t;
    }
    if p.repositories == [] {
      return r.(outcome := Some(SKIPPED)), t;
    }
    if q.executionId == "" {
      NoIdentifier();
      return r.(error := Some(NoAudit)), t;
    }
    var intent := ManagedArtifactIntent(q.before.sha, q.digest, q.executionId, p);
    if intent.None? {
      return r.(error := Some(NoIntentRecord)), t;
    }
    var written := writer.WriteManagedArtifact(intent.value);
    if !written {
      return r.(error := Some(IntentNotPersisted)), t;
    }
    r := r.(intent := true);
    ghost var base := writer.log;
    var prepared, pushes, error := PrepareAndPush(p, q, store, remote);
    var trace := Trace(intent.value, prepared, pushes, error, intent.value);
    var record;
    r, record := Finish(p, q, r, trace, writer);
    t := if record.Some? then trace.(record := record.value) else trace;
    assert base == old(writer.log) + [t.intent];
    if record.Some? {
      assert writer.log[|old(writer.log)|..] ==
             [t.intent] + if writer.refuses(old(writer.attempts) + 1) then [] else [record.value];
    }
  }

  lemma NoIdentifier()
    ensures !ValidIdentifier("")
  {
  }
}
