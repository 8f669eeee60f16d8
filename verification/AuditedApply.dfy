/** Applying one reviewed artifact: every check, then INTENT, then the pushes, then RESULT. */
module AuditedApply {
  import opened Text
  import opened CommitGraph
  import opened MirrorStatus
  import opened PlanArtifact
  import opened MirrorPlan
  import opened MirrorPreflight
  import opened MirrorExecution
  import opened ExecutionJournal
  import Safety = MirrorSafety

  // ---------------------------------------------------------------------
  // The journal.
  // ---------------------------------------------------------------------

  /** Where records go; each write is accepted or refused. */
  class Journal {
    const refuses: nat -> bool
    var attempts: nat
    var log: seq<Record>

    constructor (refuses: nat -> bool)
      ensures this.refuses == refuses && attempts == 0 && log == []
    {
      this.refuses, attempts, log := refuses, 0, [];
    }

    method Write(record: Record) returns (ok: bool)
      modifies this
      ensures ok == !refuses(old(attempts)) && attempts == old(attempts) + 1
      ensures log == if ok then old(log) + [record] else old(log)
    {
      ok := !refuses(attempts);
      attempts := attempts + 1;
      if ok {
        log := log + [record];
      }
    }
  }

  // ---------------------------------------------------------------------
  // Current default branches.
  // ---------------------------------------------------------------------

  /** An action's branches are still the default branches its bound remotes show. */
  predicate OnDefaultBranches(heads: map<string, string>, bindings: Bindings, a: PlannedAction) {
    && bindings.source in heads && !Blank(heads[bindings.source])
    && StableId(a.target) in bindings.targets && bindings.targets[StableId(a.target)] in heads
    && var canonical, mirror := TrimSpace(heads[bindings.source]),
         TrimSpace(heads[bindings.targets[StableId(a.target)]]);
       a.source.branch == canonical && a.target.branch == if mirror == "" then canonical else mirror
  }

  predicate InScope(heads: map<string, string>, bindings: Bindings, actions: seq<PlannedAction>) {
    && bindings.source in heads && !Blank(heads[bindings.source])
    && forall i :: 0 <= i < |actions| ==> OnDefaultBranches(heads, bindings, actions[i])
  }

  method ValidateBoundDefaultBranches(heads: map<string, string>, bindings: Bindings, actions: seq<PlannedAction>)
    returns (ok: bool)
    ensures ok <==> InScope(heads, bindings, actions)
  {
    hide StableId, Blank;
    if bindings.source !in heads {
      return false;
    }
    var canonicalBranch := TrimSpace(heads[bindings.source]);
    BlankIsEmptyTrimmed(heads[bindings.source]);
    if canonicalBranch == "" {
      return false;
    }
    for i := 0 to |actions|
      invariant forall k :: 0 <= k < i ==> OnDefaultBranches(heads, bindings, actions[k])
    {
      var target := StableId(actions[i].target);
      if target !in bindings.targets || bindings.targets[target] !in heads {
        return false;
      }
      var mirrorBranch := TrimSpace(heads[bindings.targets[target]]);
      if mirrorBranch == "" {
        mirrorBranch := canonicalBranch;
      }
      if actions[i].source.branch != canonicalBranch || actions[i].target.branch != mirrorBranch {
        return false;
      }
    }
    return true;
  }

  // ---------------------------------------------------------------------
  // The public result.
  // ---------------------------------------------------------------------

  datatype DetailedAction = DetailedAction(
    source: string, target: string, force: bool, before: string, desired: string, after: string, outcome: Recorded,
    error: string)

  function PublicDiagnostic(redact: Redact, value: string): string {
    var trimmed := TrimSpace(value);
    if trimmed == "" then "execution failed"
    else
      var redacted := redact(trimmed);
      if LooksUnsafe(ToLower(redacted)) || Contains(ToLower(redacted), "authorization:")
      then "execution diagnostic redacted" else redacted
  }

  /** What is shown is never unsafe: the diagnostic without paths, or a fixed text for an empty or unsafe one. */
  lemma PublicDiagnosticSays(redact: Redact, value: string)
    ensures Blank(value) ==> PublicDiagnostic(redact, value) == "execution failed"
    ensures !Blank(value) ==>
              var shown := redact(TrimSpace(value));
              PublicDiagnostic(redact, value) ==
                if Contains(ToLower(shown), "authorization:") || LooksUnsafe(ToLower(shown))
                then "execution diagnostic redacted" else shown
  {
    hide TrimSpace, Contains, LooksUnsafe, ToLower;
    BlankIsEmptyTrimmed(value);
  }

  function PlannedDetail(a: PlannedAction): DetailedAction {
    DetailedAction(StableId(a.source) + "/" + a.source.branch, StableId(a.target) + "/" + a.target.branch, a.force,
                   a.expectedOldTarget, a.expectedSource, "", PLANNED, "")
  }

  function Detail(redact: Redact, a: PlannedAction, e: ActionResult, validated: bool): DetailedAction {
    var planned := PlannedDetail(a);
    match e.outcome
    case Applied => planned.(outcome := APPLIED, after := TrimSpace(e.afterOid))
    case Failed => planned.(outcome := if e.stale then STALE else FAILED, error := PublicDiagnostic(redact, e.error))
    case Skipped => planned.(outcome := if validated then VALIDATED else SKIPPED)
  }

  /** A public action names both ends by provider, path and branch, and the reviewed commits; failures have an error. */
  lemma DetailSays(redact: Redact, a: PlannedAction, e: ActionResult, validated: bool)
    ensures var shown := Detail(redact, a, e, validated);
            && shown.source == StableId(a.source) + "/" + a.source.branch
            && shown.target == StableId(a.target) + "/" + a.target.branch
            && shown.before == a.expectedOldTarget && shown.desired == a.expectedSource && shown.force == a.force
            && shown.after == (if e.outcome == Applied then TrimSpace(e.afterOid) else "")
            && shown.error == (if e.outcome == Failed then PublicDiagnostic(redact, e.error) else "")
            && shown == PlannedDetail(a).(outcome := shown.outcome, after := shown.after, error := shown.error)
            && PlannedDetail(a).outcome == PLANNED && PlannedDetail(a).after == "" && PlannedDetail(a).error == ""
  {
    hide StableId, TrimSpace, PublicDiagnostic;
  }

  method PlannedDetailedActions(actions: seq<PlannedAction>) returns (details: seq<DetailedAction>)
    ensures |details| == |actions| && forall i :: 0 <= i < |details| ==> details[i] == PlannedDetail(actions[i])
  {
    hide PlannedDetail;
    details := [];
    for i := 0 to |actions|
      invariant |details| == i && forall k :: 0 <= k < i ==> details[k] == PlannedDetail(actions[k])
    {
      details := details + [PlannedDetail(actions[i])];
    }
  }

  method DetailedActions(redact: Redact, actions: seq<PlannedAction>, results: seq<ActionResult>, validated: bool)
    returns (details: seq<DetailedAction>)
    ensures |details| == |actions|
    ensures forall i :: 0 <= i < |details| ==>
              details[i] == if |results| == |actions| then Detail(redact, actions[i], results[i], validated)
                            else PlannedDetail(actions[i])
  {
    hide PlannedDetail, Detail;
    details := PlannedDetailedActions(actions);
    if |results| != |actions| {
      return;
    }
    for i := 0 to |results|
      invariant |details| == |actions|
      invariant forall k :: 0 <= k < |details| ==>
                  details[k] == if k < i then Detail(redact, actions[k], results[k], validated)
                                else PlannedDetail(actions[k])
    {
      details := details[i := Detail(redact, actions[i], results[i], validated)];
    }
  }

  /** The public result and the journal never disagree about an action. */
  lemma PublicAgreesWithJournal(redact: Redact, entry: Entry, i: nat, a: PlannedAction, e: ActionResult,
                                validated: bool)
    requires Shows(entry, i, a) && entry.after == "" && (validated ==> Unmarked(e))
    ensures var recorded, public := PreflightEntry(redact, entry, e, validated), Detail(redact, a, e, validated);
            && public.outcome == recorded.outcome && public.after == recorded.after
            && public.before == recorded.before && public.desired == recorded.desired && public.force == recorded.force
  {
    hide StableId, SafeDiagnostic, PublicDiagnostic, TrimSpace;
  }

  // ---------------------------------------------------------------------
  // One audited run.
  // ---------------------------------------------------------------------

  datatype Request = Request(
    repo: Repo, observed: RepositoryResult, artifact: Artifact, allowForce: bool, dryRun: bool, executionId: string)

  /** What the run finds around it: a cache directory, the current default branches, a digest, path redaction. */
  datatype Host = Host(hasCache: bool, heads: map<string, string>, digest: Digest, redact: Redact)

  datatype Stop =
    | NoExecutionId
    | NoWriter
    | NotAccepted
    | ForceRequired
    | NoCache
    | OutOfScope
    | NoIntent
    | IntentRefused

  datatype DetailedResult = DetailedResult(
    state: Option<State>, applied: bool, details: seq<DetailedAction>, stopped: Option<Stop>,
    executionError: Option<ExecutionError>, resultMissing: bool)

  function ModeOf(q: Request): Mode {
    if q.dryRun then DRY_RUN else APPLY
  }

  predicate RequiresForce(actions: seq<PlannedAction>) {
    exists i :: 0 <= i < |actions| && actions[i].force
  }

  /** The check that stops a run before it writes or pushes anything, if one does. */
  function Gate(q: Request, host: Host, hasWriter: bool): Option<Stop> {
    if Blank(q.executionId) then Some(NoExecutionId)
    else if !hasWriter then Some(NoWriter)
    else if !Accepts(q.repo, q.observed, q.artifact) then Some(NotAccepted)
    else
      var actions := PlanFor(q.repo, q.artifact).value.actions;
      if !q.dryRun && RequiresForce(actions) && !q.allowForce then Some(ForceRequired)
      else if actions != [] && !host.hasCache then Some(NoCache)
      else if actions != [] && !InScope(host.heads, Bind(q.repo), actions) then Some(OutOfScope)
      else if !CanIntend(host.digest, q.executionId, ModeOf(q), q.artifact) then Some(NoIntent)
      else None
  }

  /** Some action of the artifact is marked forced. */
  predicate AsksForce(artifact: Artifact) {
    exists i, k :: 0 <= i < |artifact.repositories| && 0 <= k < |artifact.repositories[i].actions|
                   && artifact.repositories[i].actions[k].force
  }

  /** Some action of the artifact is not on the default branches its remotes show now. */
  predicate OffDefaultBranches(heads: map<string, string>, bindings: Bindings, artifact: Artifact) {
    exists i, k :: 0 <= i < |artifact.repositories| && 0 <= k < |artifact.repositories[i].actions|
                   && !OnDefaultBranches(heads, bindings, FromAction(artifact.repositories[i].actions[k]))
  }

  predicate HasActions(artifact: Artifact) {
    exists i :: 0 <= i < |artifact.repositories| && artifact.repositories[i].actions != []
  }

  /** The actions that run are those of the artifact, with its force marks. */
  lemma ActionsOfArtifact(repo: Repo, observed: RepositoryResult, artifact: Artifact)
    requires Accepts(repo, observed, artifact)
    ensures |artifact.repositories| == 1
    ensures PlanFor(repo, artifact).value.actions ==
              seq(|artifact.repositories[0].actions|, k requires 0 <= k < |artifact.repositories[0].actions| =>
                    FromAction(artifact.repositories[0].actions[k]))
    ensures RequiresForce(PlanFor(repo, artifact).value.actions) <==> AsksForce(artifact)
    ensures PlanFor(repo, artifact).value.actions != [] <==> HasActions(artifact)
  {
    hide ValidArtifact, Observes, ActionsAgree, RepositoryPath, Normalize;
    var actions := PlanFor(repo, artifact).value.actions;
    if k :| 0 <= k < |actions| && actions[k].force {
      assert artifact.repositories[0].actions[k].force;
    }
    if i, k :| 0 <= i < |artifact.repositories| && 0 <= k < |artifact.repositories[i].actions|
                && artifact.repositories[i].actions[k].force {
      assert actions[k].force;
    }
  }

  /**
   * Which check stops a run, in terms of request, artifact and host: the first of these that fails. A forced action
   * needs consent unless the run is dry.
   */
  lemma GateSays(q: Request, host: Host, hasWriter: bool)
    ensures var stop := Gate(q, host, hasWriter);
            && (stop == Some(NoExecutionId) <==> Blank(q.executionId))
            && (stop == Some(NoWriter) <==> !Blank(q.executionId) && !hasWriter)
            && (stop == Some(NotAccepted) <==>
                  !Blank(q.executionId) && hasWriter && !Accepts(q.repo, q.observed, q.artifact))
            && (!Blank(q.executionId) && hasWriter && Accepts(q.repo, q.observed, q.artifact) ==>
                  var unconsented := !q.dryRun && !q.allowForce && AsksForce(q.artifact);
                  var scoped := HasActions(q.artifact) ==>
                      host.hasCache && !OffDefaultBranches(host.heads, Bind(q.repo), q.artifact);
                  && (stop == Some(ForceRequired) <==> unconsented)
                  && (stop == Some(NoCache) <==> !unconsented && HasActions(q.artifact) && !host.hasCache)
                  && (stop == Some(OutOfScope) <==>
                        !unconsented && HasActions(q.artifact) && host.hasCache
                        && OffDefaultBranches(host.heads, Bind(q.repo), q.artifact))
                  && (stop == Some(NoIntent) <==>
                        !unconsented && scoped && !CanIntend(host.digest, q.executionId, ModeOf(q), q.artifact))
                  && (stop.None? <==>
                        !unconsented && scoped && CanIntend(host.digest, q.executionId, ModeOf(q), q.artifact)))
  {
    hide Accepts, CanIntend, Blank, OnDefaultBranches, RequiresForce, AsksForce, PlanFor, Bind;
    if Accepts(q.repo, q.observed, q.artifact) {
      PlanOfArtifact(q.repo, q.observed, q.artifact);
      ActionsOfArtifact(q.repo, q.observed, q.artifact);
      var actions := PlanFor(q.repo, q.artifact).value.actions;
      if HasActions(q.artifact) {
        assert InScope(host.heads, Bind(q.repo), actions) <==>
          !OffDefaultBranches(host.heads, Bind(q.repo), q.artifact) by {
          ScopeOfArtifact(host.heads, Bind(q.repo), actions, q.artifact);
        }
      }
    }
  }

  lemma ScopeOfArtifact(heads: map<string, string>, bindings: Bindings, actions: seq<PlannedAction>, artifact: Artifact)
    requires |artifact.repositories| == 1 && actions != []
    requires actions == seq(|artifact.repositories[0].actions|,
                            k requires 0 <= k < |artifact.repositories[0].actions| =>
                              FromAction(artifact.repositories[0].actions[k]))
    ensures InScope(heads, bindings, actions) <==> !OffDefaultBranches(heads, bindings, artifact)
  {
    hide StableId, Blank, TrimSpace;
    if InScope(heads, bindings, actions) {
      forall i, k | 0 <= i < |artifact.repositories| && 0 <= k < |artifact.repositories[i].actions|
        ensures OnDefaultBranches(heads, bindings, FromAction(artifact.repositories[i].actions[k])) {
        assert OnDefaultBranches(heads, bindings, actions[k]);
      }
    }
    if !OffDefaultBranches(heads, bindings, artifact) {
      forall k | 0 <= k < |actions| ensures OnDefaultBranches(heads, bindings, actions[k]) {
        assert actions[k] == FromAction(artifact.repositories[0].actions[k]);
      }
      assert OnDefaultBranches(heads, bindings, actions[0]);
    }
  }

  /** What an admitted run does to Git and what its executor returns. */
  ghost predicate Performed(q: Request, actions: seq<PlannedAction>, bindings: Bindings, reaches: (Oid, Oid) -> bool,
                            schedule: Schedule, start: nat, w: World, now: World, e: Execution, events: seq<Event>) {
    if q.dryRun then
      now == w && events == [] && Preflights(w.refs, bindings, actions, e)
    else
      && Returned(w.refs, bindings, actions, reaches, schedule, start, w, e, events)
      && (if Passes(w.refs, bindings, actions) then
            && now == WorldAfter(reaches, bindings, actions, schedule, start, w, |actions|)
            && (e.error.None? <==> CountFailed(e.results) == 0)
          else now == w && events == [])
  }

  method Perform(q: Request, actions: seq<PlannedAction>, git: Git, bindings: Bindings) returns (e: Execution)
    modifies git
    ensures old(git.events) <= git.events
    ensures q.dryRun ==> git.world == old(git.world) && git.events == old(git.events)
    ensures Performed(q, actions, bindings, git.reaches, git.schedule, old(git.turn), old(git.world), git.world, e,
                      git.events[|old(git.events)|..])
  {
    hide Passes, Preflights, CountFailed, Ran, Runnable, AllSkipped;
    e := Execution([], None);
    assert git.events[|git.events|..] == [];
    NothingToPerform(q, bindings, git.reaches, git.schedule, git.turn, git.world);
    if actions != [] {
      if q.dryRun {
        e := PreflightPlan(actions, git, bindings);
      } else {
        e := ExecuteActions(actions, git, bindings);
        assert git.events == old(git.events) ==> git.events[|old(git.events)|..] == [];
      }
    }
  }

  lemma NothingToPerform(q: Request, bindings: Bindings, reaches: (Oid, Oid) -> bool, schedule: Schedule, start: nat,
                         w: World)
    ensures Performed(q, [], bindings, reaches, schedule, start, w, w, Execution([], None), [])
  {
    assert AllSkipped([]) == [];
    assert Passes(w.refs, bindings, []);
  }

  function ResultRecordOf(q: Request, host: Host, e: Execution): Record
    requires |q.artifact.repositories| == 1
    requires |e.results| == |IntentOf(host.digest, q.executionId, ModeOf(q), q.artifact).actions|
  {
    var intent := IntentOf(host.digest, q.executionId, ModeOf(q), q.artifact);
    if q.dryRun then PreflightRecord(host.redact, intent, e.results, e.error.None?)
    else ExecutionRecord(host.redact, intent, e.results)
  }

  method RecordResult(q: Request, host: Host, e: Execution) returns (r: Option<Record>)
    requires CanIntend(host.digest, q.executionId, ModeOf(q), q.artifact)
    requires Describes(e.results, Plans(q.artifact).value[0].actions)
    requires |e.results| == |IntentOf(host.digest, q.executionId, ModeOf(q), q.artifact).actions|
    requires q.dryRun ==> Consistent(e.results, e.error.None?)
    requires ValidRecord(ResultRecordOf(q, host, e))
    ensures r == Some(ResultRecordOf(q, host, e))
  {
    hide ValidRecord, CanIntend, Describes, Consistent, IntentOf, ExecutionRecord, PreflightRecord, Plans;
    if q.dryRun {
      r := FromPreflight(host.redact, host.digest, q.executionId, q.artifact, e.results, e.error.None?);
    } else {
      r := FromExecution(host.redact, host.digest, q.executionId, q.artifact, e.results);
    }
  }

  /** Whatever an admitted run met, its RESULT exists, is valid, and speaks of its plan entry by entry. */
  lemma EveryRunIsRecorded(q: Request, host: Host, bindings: Bindings, reaches: (Oid, Oid) -> bool, schedule: Schedule,
                           start: nat, w: World, now: World, e: Execution, events: seq<Event>)
    requires CanIntend(host.digest, q.executionId, ModeOf(q), q.artifact)
    requires Performed(q, Plans(q.artifact).value[0].actions, bindings, reaches, schedule, start, w, now, e, events)
    ensures Describes(e.results, Plans(q.artifact).value[0].actions)
    ensures |e.results| == |IntentOf(host.digest, q.executionId, ModeOf(q), q.artifact).actions|
    ensures q.dryRun ==> Consistent(e.results, e.error.None?)
    ensures ValidRecord(ResultRecordOf(q, host, e))
    ensures forall i :: 0 <= i < |e.results| ==>
              Shows(ResultRecordOf(q, host, e).actions[i], i, Plans(q.artifact).value[0].actions[i])
  {
    hide ValidRecord, CanIntend, Consistent, IntentOf, ExecutionRecord, PreflightRecord, Plans, Passes, Preflights,
         Returned, Shows;
    IntendHasPlan(host.digest, q.executionId, ModeOf(q), q.artifact);
    if q.dryRun {
      DryRunIsRecorded(host.redact, host.digest, q.executionId, q.artifact, w.refs, bindings, e);
    } else {
      ApplyIsRecorded(host.redact, host.digest, q.executionId, q.artifact, w.refs, bindings, reaches, schedule, start,
                      w, e, events);
    }
  }

  /**
   * Every push of an admitted run, safe whoever else writes: none in a dry run, none without a full preflight, no lease
   * without consent.
   */
  lemma EveryPushIsSafe(q: Request, host: Host, reaches: (Oid, Oid) -> bool, schedule: Schedule, start: nat, w: World,
                        now: World, e: Execution, events: seq<Event>, n: nat)
    requires Gate(q, host, true).None?
    requires Performed(q, PlanFor(q.repo, q.artifact).value.actions, Bind(q.repo), reaches, schedule, start, w, now, e,
                       events)
    requires n < |events|
    ensures var actions, bindings := PlanFor(q.repo, q.artifact).value.actions, Bind(q.repo);
            && !q.dryRun && Passes(w.refs, bindings, actions) && AllBound(bindings, actions) && |events| == |actions|
            && events[n].target == TargetBranchOf(bindings, actions[n])
            && events[n].lease == if actions[n].force then Some(actions[n].expectedOldTarget) else None
    ensures SafeEvent(reaches, events[n])
    ensures events[n].lease.Some? ==> q.allowForce
  {
    hide Passes, Performed, TargetBranchOf, StableId, SafeEvent, Gate, PlanFor, Bind;
    ConsentWasGiven(q, host);
    PushOfRunIsSafe(q, PlanFor(q.repo, q.artifact).value.actions, Bind(q.repo), reaches, schedule, start, w, now, e,
                    events, n);
  }

  lemma PushOfRunIsSafe(q: Request, actions: seq<PlannedAction>, bindings: Bindings, reaches: (Oid, Oid) -> bool,
                        schedule: Schedule, start: nat, w: World, now: World, e: Execution, events: seq<Event>, n: nat)
    requires Performed(q, actions, bindings, reaches, schedule, start, w, now, e, events) && n < |events|
    ensures !q.dryRun && Passes(w.refs, bindings, actions) && AllBound(bindings, actions) && |events| == |actions|
    ensures SafeEvent(reaches, events[n]) && events[n].target == TargetBranchOf(bindings, actions[n])
    ensures events[n].lease == if actions[n].force then Some(actions[n].expectedOldTarget) else None
  {
    hide Passes, Preflights, AttemptAt, TargetBranchOf, StableId, SafeEvent;
    Safety.RunIsSafe(reaches, bindings, actions, schedule, start, w, e.results, events, n);
  }

  lemma ConsentWasGiven(q: Request, host: Host)
    requires Gate(q, host, true).None?
    ensures PlanFor(q.repo, q.artifact).Some?
    ensures q.dryRun || q.allowForce || !RequiresForce(PlanFor(q.repo, q.artifact).value.actions)
  {
    hide Accepts, InScope, CanIntend, Blank, Bind, RequiresForce;
    PlanOfArtifact(q.repo, q.observed, q.artifact);
  }

  lemma NothingLeased(q: Request, host: Host, reaches: (Oid, Oid) -> bool, schedule: Schedule, start: nat, w: World,
                      now: World, e: Execution, events: seq<Event>)
    requires Gate(q, host, true).None?
    requires Performed(q, PlanFor(q.repo, q.artifact).value.actions, Bind(q.repo), reaches, schedule, start, w, now, e,
                       events)
    ensures !q.allowForce ==> forall n :: 0 <= n < |events| ==> events[n].lease == None
  {
    hide Gate, Performed, SafeEvent, PlanFor, Bind, Passes;
    forall n | 0 <= n < |events| ensures events[n].lease.Some? ==> q.allowForce {
      EveryPushIsSafe(q, host, reaches, schedule, start, w, now, e, events, n);
    }
  }

  /**
   * Applies or dry-runs one artifact. A failed check leaves no trace; a refused INTENT stops before the first
   * push; after an accepted INTENT exactly one RESULT is offered, valid for whatever happened.
   */
  method ExecuteRepositoryArtifactAudited(q: Request, host: Host, git: Git, writer: Journal?)
    returns (r: DetailedResult, ghost e: Execution)
    modifies git, writer
    ensures old(git.events) <= git.events
    ensures !q.allowForce ==> forall n :: |old(git.events)| <= n < |git.events| ==> git.events[n].lease == None
    ensures q.dryRun ==> git.world == old(git.world) && git.events == old(git.events)
    ensures !Blank(q.executionId) && writer != null && Accepts(q.repo, q.observed, q.artifact)
            && AsksForce(q.artifact) && !q.dryRun && !q.allowForce ==>
              r.stopped == Some(ForceRequired)
    ensures r.stopped.Some? ==>
              && !r.applied && git.world == old(git.world) && git.events == old(git.events)
              && (writer != null ==> writer.log == old(writer.log))
    ensures Gate(q, host, writer != null).Some? ==>
              && r.stopped == Gate(q, host, writer != null) && !r.applied
              && git.world == old(git.world) && git.events == old(git.events)
              && (writer != null ==> writer.log == old(writer.log))
    ensures Gate(q, host, writer != null).None? && writer.refuses(old(writer.attempts)) ==>
              && r.stopped == Some(IntentRefused) && !r.applied
              && git.world == old(git.world) && git.events == old(git.events) && writer.log == old(writer.log)
    ensures Gate(q, host, writer != null).None? && !writer.refuses(old(writer.attempts)) ==>
              && r.stopped == None
              && old(git.events) <= git.events
              && var actions, intent := PlanFor(q.repo, q.artifact).value.actions,
                   IntentOf(host.digest, q.executionId, ModeOf(q), q.artifact);
                 && Performed(q, actions, Bind(q.repo), git.reaches, git.schedule, old(git.turn), old(git.world),
                              git.world, e, git.events[|old(git.events)|..])
                 && |e.results| == |intent.actions| == |actions| == |r.details|
                 && r.resultMissing == writer.refuses(old(writer.attempts) + 1)
                 && writer.log == old(writer.log) + [intent]
                                  + (if r.resultMissing then [] else [ResultRecordOf(q, host, e)])
                 && ValidRecord(intent) && ValidRecord(ResultRecordOf(q, host, e))
                 && r.executionError == e.error
                 && r.applied == (!q.dryRun && forall i :: 0 <= i < |actions| ==> e.results[i].outcome == Applied)
                 && (forall i :: 0 <= i < |actions| ==>
                       r.details[i] == Detail(host.redact, actions[i], e.results[i], q.dryRun && e.error.None?))
  {
    hide Accepts, InScope, CanIntend, ValidRecord, Performed, IntentOf, Plans, PlanFor, Detail, RequiresForce,
         ResultRecordOf, Describes, Blank, Aggregate, Bind, PlannedDetail, AsksForce, HasActions, OffDefaultBranches;
    GateSays(q, host, writer != null);
    e := Execution([], None);
    r := DetailedResult(None, false, [], None, None, false);
    if Blank(q.executionId) {
      return r.(stopped := Some(NoExecutionId)), e;
    }
    if writer == null {
      return r.(stopped := Some(NoWriter)), e;
    }
    var accepted := ValidateRepositoryArtifact(q.repo, q.observed, q.artifact);
    if accepted.None? {
      return r.(stopped := Some(NotAccepted)), e;
    }
    var Accepted(planned, bindings, aggregate) := accepted.value;
    var details := PlannedDetailedActions(planned.actions);
    r := r.(state := Some(aggregate), details := details);
    if !q.dryRun && RequiresForce(planned.actions) && !q.allowForce {
      return r.(stopped := Some(ForceRequired)), e;
    }
    if planned.actions != [] {
      if !host.hasCache {
        return r.(stopped := Some(NoCache)), e;
      }
      var current := ValidateBoundDefaultBranches(host.heads, bindings, planned.actions);
      if !current {
        return r.(stopped := Some(OutOfScope)), e;
      }
    }
    var intent := FromPlan(host.digest, q.executionId, ModeOf(q), q.artifact);
    if intent.None? {
      return r.(stopped := Some(NoIntent)), e;
    }
    var written := writer.Write(intent.value);
    if !written {
      return r.(stopped := Some(IntentRefused)), e;
    }
    PlanOfArtifact(q.repo, q.observed, q.artifact);
    ghost var seen := |git.events|;
    var executed := Perform(q, planned.actions, git, bindings);
    e := executed;
    NothingLeased(q, host, git.reaches, git.schedule, old(git.turn), old(git.world), git.world, e, git.events[seen..]);
    EveryRunIsRecorded(q, host, bindings, git.reaches, git.schedule, old(git.turn), old(git.world), git.world, e,
                       git.events[seen..]);
    DescribedLength(q, host, e);
    details := DetailedActions(host.redact, planned.actions, executed.results, q.dryRun && executed.error.None?);
    var result := RecordResult(q, host, executed);
    var recorded := writer.Write(result.value);
    IntentIsValid(host.digest, q.executionId, ModeOf(q), q.artifact);
    r := r.(details := details, applied := !q.dryRun && (planned.actions == [] || AllApplied(executed.results)),
            executionError := executed.error, resultMissing := !recorded);
  }

  lemma PlanOfArtifact(repo: Repo, observed: RepositoryResult, artifact: Artifact)
    requires Accepts(repo, observed, artifact)
    ensures PlanFor(repo, artifact).Some?
    ensures Plans(artifact).Some? && |Plans(artifact).value| == 1
    ensures PlanFor(repo, artifact).value == Plans(artifact).value[0]
  {
    hide Plans, Observes, RepositoryPath, Normalize;
  }

  lemma DescribedLength(q: Request, host: Host, e: Execution)
    requires Plans(q.artifact).Some? && |Plans(q.artifact).value| == 1
    requires Describes(e.results, Plans(q.artifact).value[0].actions)
    ensures |e.results| == |Plans(q.artifact).value[0].actions|
  {
    hide Plans;
  }
}
