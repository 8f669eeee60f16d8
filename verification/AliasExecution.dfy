/** The executor of plans that name their own remotes: the same preflight, but the first failed push ends the run. */
module AliasExecution {
  import opened Text
  import opened CommitGraph
  import opened PlanArtifact
  import opened MirrorPlan
  import opened MirrorPreflight
  import opened MirrorExecution
  import opened ExecutionJournal
  import Safety = MirrorSafety

  /** The remotes an action itself names. */
  function OwnNames(a: PlannedAction): Bindings {
    Bindings(a.source.name, map[StableId(a.target) := a.target.name])
  }

  lemma OwnNamesBind(a: PlannedAction)
    ensures StableId(a.target) in OwnNames(a).targets
    ensures WellFormedAction(a) <==> Runnable(OwnNames(a), a)
    ensures SourceRef(OwnNames(a), a) == TrackingRef(a.source.name, a.source.branch)
    ensures TargetBranchOf(OwnNames(a), a) == Branch(a.target.name, a.target.branch)
  {
    hide StableId, TrackingRef, Blank;
  }

  /** Both refs of an action still resolve to what was reviewed, under the names the action gives. */
  predicate Fresh(refs: map<string, Oid>, a: PlannedAction) {
    Runnable(OwnNames(a), a) && Current(refs, OwnNames(a), a)
  }

  /** A fresh action is a push whose refs, under the remotes it names itself, still name the reviewed commits. */
  lemma FreshIsReviewed(refs: map<string, Oid>, a: PlannedAction)
    requires Fresh(refs, a)
    ensures a.kind == PUSH_BRANCH && !Blank(a.expectedSource) && !Blank(a.expectedOldTarget)
    ensures var source, target := TrackingRef(a.source.name, a.source.branch),
              TrackingRef(a.target.name, a.target.branch);
            && source in refs && TrimSpace(refs[source]) == TrimSpace(a.expectedSource)
            && target in refs && TrimSpace(refs[target]) == TrimSpace(a.expectedOldTarget)
  {
    hide StableId, TrackingRef, Blank, TrimSpace;
  }

  ghost predicate Malformed(actions: seq<PlannedAction>, i: nat) {
    i < |actions| && !WellFormedAction(actions[i]) && forall k :: 0 <= k < i ==> WellFormedAction(actions[k])
  }

  ghost predicate Stale(refs: map<string, Oid>, actions: seq<PlannedAction>, i: nat) {
    && i < |actions| && (forall k :: 0 <= k < |actions| ==> WellFormedAction(actions[k]))
    && !Fresh(refs, actions[i]) && forall k :: 0 <= k < i ==> Fresh(refs, actions[k])
  }

  method PreflightOwn(actions: seq<PlannedAction>, git: Git) returns (e: Execution)
    ensures e.error.None? ==>
              e.results == AllSkipped(actions) && forall i :: 0 <= i < |actions| ==> Fresh(git.world.refs, actions[i])
    ensures e.error.Some? ==>
              && e.error.value.PreflightFailed? && e.error.value.index < |actions|
              && (if e.error.value.stale then Stale(git.world.refs, actions, e.error.value.index)
                  else Malformed(actions, e.error.value.index))
              && e == FailPreflight(actions, e.error.value.index, e.error.value.stale)
  {
    hide WellFormedAction, Current, StableId, AllSkipped, Bound;
    for i := 0 to |actions|
      invariant forall k :: 0 <= k < i ==> WellFormedAction(actions[k])
    {
      if !WellFormedAction(actions[i]) {
        return FailPreflight(actions, i, false);
      }
    }
    for i := 0 to |actions|
      invariant forall k :: 0 <= k < i ==> Fresh(git.world.refs, actions[k])
    {
      OwnNamesBind(actions[i]);
      var current := ValidateCurrentRefs(actions[i], git, OwnNames(actions[i]));
      if !current {
        return FailPreflight(actions, i, true);
      }
    }
    return Execution(AllSkipped(actions), None);
  }

  // ---------------------------------------------------------------------
  // The push loop.
  // ---------------------------------------------------------------------

  function OwnTry(reaches: (Oid, Oid) -> bool, a: PlannedAction, w: World, t: Turn): Attempt {
    Try(reaches, OwnNames(a), a, w, t)
  }

  /** The world after the first `n` pushes. */
  function WorldAfterOwn(reaches: (Oid, Oid) -> bool, actions: seq<PlannedAction>, schedule: Schedule, start: nat,
                         w: World, n: nat): World
    requires n <= |actions|
  {
    if n == 0 then w
    else OwnTry(reaches, actions[n - 1], WorldAfterOwn(reaches, actions, schedule, start, w, n - 1),
                schedule(start + n - 1)).world
  }

  function OwnAttempt(reaches: (Oid, Oid) -> bool, actions: seq<PlannedAction>, schedule: Schedule, start: nat,
                      w: World, n: nat): Attempt
    requires n < |actions|
  {
    OwnTry(reaches, actions[n], WorldAfterOwn(reaches, actions, schedule, start, w, n), schedule(start + n))
  }

  /** `pushed` attempts were made, all but perhaps the last acknowledged; the actions after it are skipped. */
  ghost predicate RanUntilFailure(reaches: (Oid, Oid) -> bool, actions: seq<PlannedAction>, schedule: Schedule,
                                  start: nat, w: World, pushed: nat, results: seq<ActionResult>, events: seq<Event>) {
    && |results| == |actions| && |events| == pushed <= |actions|
    && (forall n :: 0 <= n < pushed ==>
          && results[n] == ResultOf(n, actions[n], OwnAttempt(reaches, actions, schedule, start, w, n))
          && events[n] == OwnAttempt(reaches, actions, schedule, start, w, n).event
          && (n < pushed - 1 ==> results[n].outcome == Applied))
    && (forall n :: pushed <= n < |actions| ==> results[n] == ActionResult(n, actions[n], Skipped, "", false, ""))
    && (pushed < |actions| ==> pushed > 0 && results[pushed - 1].outcome == Failed)
  }

  method ExecutePlan(actions: seq<PlannedAction>, git: Git) returns (e: Execution, ghost pushed: nat)
    modifies git
    ensures (exists i :: 0 <= i < |actions| && !Fresh(old(git.world.refs), actions[i])) ==>
              && git.world == old(git.world) && git.events == old(git.events)
              && e.error.Some? && e.error.value.PreflightFailed? && e.error.value.index < |actions|
              && e == FailPreflight(actions, e.error.value.index, e.error.value.stale)
    ensures (forall i :: 0 <= i < |actions| ==> Fresh(old(git.world.refs), actions[i])) ==>
              && old(git.events) <= git.events
              && RanUntilFailure(git.reaches, actions, git.schedule, old(git.turn), old(git.world), pushed, e.results,
                                 git.events[|old(git.events)|..])
              && git.world == WorldAfterOwn(git.reaches, actions, git.schedule, old(git.turn), old(git.world), pushed)
              && (e.error.None? <==> forall i :: 0 <= i < |actions| ==> e.results[i].outcome == Applied)
  {
    hide Fresh, RanUntilFailure, OwnTry, StableId, WellFormedAction;
    pushed := 0;
    e := PreflightOwn(actions, git);
    PreflightOwnDecides(git.world.refs, actions, e);
    if e.error.Some? {
      return;
    }
    e, pushed := PushUntilFailure(actions, git, e.results);
  }

  method PushUntilFailure(actions: seq<PlannedAction>, git: Git, skipped: seq<ActionResult>)
    returns (e: Execution, ghost pushed: nat)
    requires skipped == AllSkipped(actions)
    modifies git
    ensures old(git.events) <= git.events
    ensures RanUntilFailure(git.reaches, actions, git.schedule, old(git.turn), old(git.world), pushed, e.results,
                            git.events[|old(git.events)|..])
    ensures git.world == WorldAfterOwn(git.reaches, actions, git.schedule, old(git.turn), old(git.world), pushed)
    ensures e.error.None? <==> forall i :: 0 <= i < |actions| ==> e.results[i].outcome == Applied
  {
    hide RanUntilFailure, OwnTry, StableId, AppliedSoFar;
    ghost var w, start, seen := git.world, git.turn, |git.events|;
    var results := skipped;
    assert git.events[seen..] == [];
    NothingApplied(git.reaches, actions, git.schedule, start, w);
    for i := 0 to |actions|
      invariant git.turn == start + i && old(git.events) <= git.events && |results| == |actions|
      invariant git.world == WorldAfterOwn(git.reaches, actions, git.schedule, start, w, i)
      invariant AppliedSoFar(git.reaches, actions, git.schedule, start, w, i, results, git.events[seen..])
    {
      ghost var before := git.events;
      OneMoreOwn(git.reaches, actions, git.schedule, start, w, i, results, git.events[seen..]);
      var err := PushOwn(actions[i], git);
      assert git.events[seen..] == before[seen..] + [git.events[|before|]];
      if err.Some? {
        results := results[i := results[i].(outcome := Failed, error := err.value)];
        pushed := i + 1;
        FailedIsNotApplied(git.reaches, actions, git.schedule, start, w, pushed, results, git.events[seen..]);
        return Execution(results, Some(PushesFailed(1))), pushed;
      }
      results := results[i := results[i].(outcome := Applied, afterOid := actions[i].expectedSource)];
    }
    AppliedThroughout(git.reaches, actions, git.schedule, start, w, results, git.events[seen..]);
    return Execution(results, None), |actions|;
  }

  lemma NothingApplied(reaches: (Oid, Oid) -> bool, actions: seq<PlannedAction>, schedule: Schedule, start: nat,
                       w: World)
    ensures AppliedSoFar(reaches, actions, schedule, start, w, 0, AllSkipped(actions), [])
  {
  }

  lemma PreflightOwnDecides(refs: map<string, Oid>, actions: seq<PlannedAction>, e: Execution)
    requires e.error.Some? ==>
               && e.error.value.PreflightFailed? && e.error.value.index < |actions|
               && (if e.error.value.stale then Stale(refs, actions, e.error.value.index)
                   else Malformed(actions, e.error.value.index))
    requires e.error.None? ==> forall i :: 0 <= i < |actions| ==> Fresh(refs, actions[i])
    ensures e.error.None? <==> forall i :: 0 <= i < |actions| ==> Fresh(refs, actions[i])
  {
    hide WellFormedAction, Current, StableId, Bound;
    if e.error.Some? {
      OwnNamesBind(actions[e.error.value.index]);
    }
  }

  /** The first `i` pushes were acknowledged and nothing else has happened. */
  ghost predicate AppliedSoFar(reaches: (Oid, Oid) -> bool, actions: seq<PlannedAction>, schedule: Schedule, start: nat,
                               w: World, i: nat, results: seq<ActionResult>, events: seq<Event>) {
    && |results| == |actions| && |events| == i <= |actions|
    && (forall n :: 0 <= n < i ==>
          && results[n] == ResultOf(n, actions[n], OwnAttempt(reaches, actions, schedule, start, w, n))
          && events[n] == OwnAttempt(reaches, actions, schedule, start, w, n).event
          && results[n].outcome == Applied)
    && (forall n :: i <= n < |actions| ==> results[n] == ActionResult(n, actions[n], Skipped, "", false, ""))
  }

  lemma OneMoreOwn(reaches: (Oid, Oid) -> bool, actions: seq<PlannedAction>, schedule: Schedule, start: nat, w: World,
                   i: nat, results: seq<ActionResult>, events: seq<Event>)
    requires AppliedSoFar(reaches, actions, schedule, start, w, i, results, events) && i < |actions|
    ensures results[i] == ActionResult(i, actions[i], Skipped, "", false, "")
    ensures var attempt := OwnAttempt(reaches, actions, schedule, start, w, i);
            var now := results[i := ResultOf(i, actions[i], attempt)];
            if attempt.error.None?
            then AppliedSoFar(reaches, actions, schedule, start, w, i + 1, now, events + [attempt.event])
            else RanUntilFailure(reaches, actions, schedule, start, w, i + 1, now, events + [attempt.event])
  {
    hide OwnAttempt;
  }

  lemma AppliedThroughout(reaches: (Oid, Oid) -> bool, actions: seq<PlannedAction>, schedule: Schedule, start: nat,
                          w: World, results: seq<ActionResult>, events: seq<Event>)
    requires AppliedSoFar(reaches, actions, schedule, start, w, |actions|, results, events)
    ensures RanUntilFailure(reaches, actions, schedule, start, w, |actions|, results, events)
    ensures forall i :: 0 <= i < |actions| ==> results[i].outcome == Applied
  {
    hide OwnAttempt;
  }

  lemma FailedIsNotApplied(reaches: (Oid, Oid) -> bool, actions: seq<PlannedAction>, schedule: Schedule, start: nat,
                           w: World, pushed: nat, results: seq<ActionResult>, events: seq<Event>)
    requires RanUntilFailure(reaches, actions, schedule, start, w, pushed, results, events) && 0 < pushed
    requires results[pushed - 1].outcome == Failed
    ensures exists i :: 0 <= i < |actions| && results[i].outcome != Applied
  {
    hide OwnAttempt;
    assert results[pushed - 1].outcome != Applied;
  }

  method PushOwn(action: PlannedAction, git: Git) returns (error: Option<string>)
    modifies git
    ensures var attempt := OwnTry(git.reaches, action, old(git.world), git.schedule(old(git.turn)));
            git.world == attempt.world && error == attempt.error && git.events == old(git.events) + [attempt.event]
              && git.turn == old(git.turn) + 1
  {
    OwnNamesBind(action);
    error := MirrorExecution.PushAction(action, git, OwnNames(action));
  }

  // ---------------------------------------------------------------------
  // What holds of every run.
  // ---------------------------------------------------------------------

  /** Every push of such a run, too, goes where its action says and replaces only what it may. */
  lemma OwnRunIsSafe(reaches: (Oid, Oid) -> bool, actions: seq<PlannedAction>, schedule: Schedule, start: nat, w: World,
                     pushed: nat, results: seq<ActionResult>, events: seq<Event>, n: nat)
    requires RanUntilFailure(reaches, actions, schedule, start, w, pushed, results, events) && n < pushed
    ensures SafeEvent(reaches, events[n])
    ensures events[n].target == Branch(actions[n].target.name, actions[n].target.branch)
    ensures events[n].lease == if actions[n].force then Some(actions[n].expectedOldTarget) else None
    ensures results[n].outcome == Applied ==> events[n].after.Some? && events[n].after == events[n].source
  {
    hide PushDuring, StableId, TrackingRef, WorldAfterOwn;
    OwnNamesBind(actions[n]);
    PushIsSafe(reaches, WorldAfterOwn(reaches, actions, schedule, start, w, n),
               SourceRef(OwnNames(actions[n]), actions[n]),
               TargetBranchOf(OwnNames(actions[n]), actions[n]), LeaseOf(actions[n]), schedule(start + n));
  }

  /** A run that stopped early is recorded like any other: a valid RESULT, skipped actions included. */
  lemma StoppedRunIsRecorded(redact: Redact, digest: Digest, executionId: string, artifact: Artifact,
                             reaches: (Oid, Oid) -> bool, schedule: Schedule, start: nat, w: World, pushed: nat,
                             results: seq<ActionResult>, events: seq<Event>)
    requires CanIntend(digest, executionId, APPLY, artifact)
    requires RanUntilFailure(reaches, Plans(artifact).value[0].actions, schedule, start, w, pushed, results, events)
    ensures Describes(results, Plans(artifact).value[0].actions)
    ensures |IntentOf(digest, executionId, APPLY, artifact).actions| == |results|
    ensures ValidRecord(ExecutionRecord(redact, IntentOf(digest, executionId, APPLY, artifact), results))
  {
    hide ValidArtifact, ValidRecord, IntentOf, CanIntend, Plans, ExecutionRecord, OwnAttempt, Shows;
    IntendHasPlan(digest, executionId, APPLY, artifact);
    PossibleIsRecorded(redact, digest, executionId, artifact, results);
  }
}
