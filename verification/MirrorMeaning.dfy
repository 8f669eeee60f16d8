/** What planning, acceptance, preflight and scope mean for each mirror, in terms of configuration and observation. */
module MirrorMeaning {
  import opened Text
  import opened Permutations
  import opened CommitGraph
  import opened MirrorStatus
  import opened PlanArtifact
  import opened MirrorPlan
  import opened MirrorPreflight
  import opened MirrorExecution
  import opened ExecutionJournal
  import opened AuditedApply

  // ---------------------------------------------------------------------
  // Observation.
  // ---------------------------------------------------------------------

  /** The result of a configured mirror is the one with its identity. */
  predicate IsResultOf(m: MirrorResult, endpoint: Endpoint) {
    TargetId(endpoint) == Some(TrimSpace(m.target))
  }

  /** A mirror that was observed without an error, in one of the four relationships. */
  predicate Usable(m: MirrorResult) {
    Blank(m.error) && m.state in {Equal, Behind, Ahead, Diverged}
  }

  /** One result for each configured mirror, of this repository, with nothing left unobserved. */
  ghost predicate Complete(repo: Repo, observed: RepositoryResult) {
    && repo.mirrors != [] && |observed.mirrors| == |repo.mirrors| && Blank(observed.error)
    && observed.id in {"", repo.id} && observed.uid in {"", DurableId(repo)}
    && (forall i :: 0 <= i < |observed.mirrors| ==> !Blank(observed.mirrors[i].target))
    && (forall i, j :: 0 <= i < j < |observed.mirrors| ==>
          TrimSpace(observed.mirrors[i].target) != TrimSpace(observed.mirrors[j].target))
    && forall i :: 0 <= i < |repo.mirrors| ==> HasUsable(observed, repo.mirrors[i])
  }

  ghost predicate HasUsable(observed: RepositoryResult, endpoint: Endpoint) {
    exists m :: m in observed.mirrors && IsResultOf(m, endpoint) && Usable(m)
  }

  lemma {:induction false} ObservesWhenComplete(repo: Repo, observed: RepositoryResult)
    ensures Complete(repo, observed) <==>
              Observes(observed, repo) && forall i :: 0 <= i < |repo.mirrors| ==> HasUsable(observed, repo.mirrors[i])
  {
    hide TrimSpace, TargetId, HasUsable;
    forall i | 0 <= i < |observed.mirrors|
      ensures TargetOf(observed.mirrors[i]) != "" <==> !Blank(observed.mirrors[i].target) {
      BlankIsEmptyTrimmed(observed.mirrors[i].target);
    }
    var targets := Map(TargetOf, observed.mirrors);
    assert forall i :: 0 <= i < |targets| ==> targets[i] == TrimSpace(observed.mirrors[i].target);
  }

  /** With the right policy a mirror is judged exactly when its result is usable, by that result's state. */
  lemma {:induction false} JudgedByItsResult(repo: Repo, observed: RepositoryResult, endpoint: Endpoint)
    requires Observes(observed, repo) && Normalize(repo.policy).Some?
    ensures var d := Judge(repo, ObservedIndex(observed), endpoint);
            && (d.Some? <==> HasUsable(observed, endpoint))
            && forall m :: m in observed.mirrors && IsResultOf(m, endpoint) && d.Some? ==>
                 && Usable(m)
                 && (d.value.action <==> m.state != Equal)
                 && (d.value.force <==> m.state == Ahead || m.state == Diverged)
  {
    hide TrimSpace, IndexBy, Map, NoDuplicates, TargetId, Normalize, Blank;
    IndexOfDistinct(TargetOf, observed.mirrors);
    var index := ObservedIndex(observed);
    if TargetId(endpoint).Some? && TargetId(endpoint).value in index {
      var m := index[TargetId(endpoint).value];
      assert m in observed.mirrors && IsResultOf(m, endpoint);
    }
  }

  // ---------------------------------------------------------------------
  // Planning.
  // ---------------------------------------------------------------------

  /** The branch a mirror is pushed to: its own default, or the canonical one when it has none. */
  function DefaultOf(cache: Cache, remote: string, canonical: string): string {
    if remote in cache.heads && !Blank(cache.heads[remote]) then TrimSpace(cache.heads[remote]) else canonical
  }

  /** The cache knows the default branch of a mirror, the head of that branch, and the canonical head. */
  predicate Cached(repo: Repo, cache: Cache, branch: string, i: nat)
    requires i < |repo.mirrors|
  {
    var name := MirrorRemoteName(|repo.mirrors|, i);
    && name in cache.heads
    && TrackingRef("canonical", branch) in cache.refs
    && TrackingRef(name, DefaultOf(cache, name, branch)) in cache.refs
  }

  /** The push of the canonical head to one mirror, from what the cache shows of both. */
  predicate IsPushTo(a: PlannedAction, repo: Repo, cache: Cache, branch: string, i: nat, state: State)
    requires i < |repo.mirrors|
  {
    var name := MirrorRemoteName(|repo.mirrors|, i);
    && Cached(repo, cache, branch, i)
    && a.kind == PUSH_BRANCH
    && a.source.provider == repo.canonical.provider && Some(a.source.path) == RepositoryPath(repo.canonical)
    && a.source.name == "canonical" && a.source.branch == branch
    && a.target.provider == repo.mirrors[i].provider && Some(a.target.path) == RepositoryPath(repo.mirrors[i])
    && a.target.name == name && a.target.branch == DefaultOf(cache, name, branch)
    && a.expectedSource == TrimSpace(cache.refs[TrackingRef("canonical", branch)])
    && a.expectedOldTarget == TrimSpace(cache.refs[TrackingRef(name, DefaultOf(cache, name, branch))])
    && (a.force <==> state == Ahead || state == Diverged)
  }

  /** What the plan does about one mirror depends on its usable result and the cache alone. */
  lemma {:induction false} StepOfResult(repo: Repo, observed: RepositoryResult, cache: Cache, branch: string, i: nat,
                                        m: MirrorResult)
    requires Observes(observed, repo) && Normalize(repo.policy).Some? && RepositoryPath(repo.canonical).Some?
    requires i < |repo.mirrors| && m in observed.mirrors && IsResultOf(m, repo.mirrors[i])
    ensures var step := PlanMirror(repo, ObservedIndex(observed), cache, branch, i);
            && (step.Refused? <==> !Usable(m) || (m.state != Equal && !Cached(repo, cache, branch, i)))
            && (step.NoAction? <==> Usable(m) && m.state == Equal)
            && (step.Act? ==> IsPushTo(step.action, repo, cache, branch, i, m.state))
  {
    hide Judge, IndexBy, Map, NoDuplicates, TargetId, Normalize, Observes, MirrorRemoteName, TrackingRef,
         RepositoryPath,
         TrimSpace, Usable, Blank;
    JudgedByItsResult(repo, observed, repo.mirrors[i]);
    OnlyResult(repo, observed, i, m);
    PathOfTarget(repo.mirrors[i]);
    var name := MirrorRemoteName(|repo.mirrors|, i);
    if name in cache.heads {
      BlankIsEmptyTrimmed(cache.heads[name]);
    }
  }

  lemma {:induction false} PathOfTarget(e: Endpoint)
    ensures TargetId(e).Some? ==> RepositoryPath(e).Some?
  {
  }

  lemma {:induction false} OnlyResult(repo: Repo, observed: RepositoryResult, i: nat, m: MirrorResult)
    requires Observes(observed, repo) && i < |repo.mirrors| && m in observed.mirrors && IsResultOf(m, repo.mirrors[i])
    ensures HasUsable(observed, repo.mirrors[i]) <==> Usable(m)
  {
    hide IndexBy, Map, NoDuplicates, TargetId, TrimSpace, Blank;
    IndexOfDistinct(TargetOf, observed.mirrors);
    assert forall other :: other in observed.mirrors && IsResultOf(other, repo.mirrors[i]) ==> other == m;
  }

  /** The mirror whose result was not Equal needs the cache. */
  ghost predicate CacheSuffices(repo: Repo, observed: RepositoryResult, cache: Cache, branch: string) {
    forall i :: 0 <= i < |repo.mirrors| ==> CacheSufficesAt(repo, observed, cache, branch, i)
  }

  ghost predicate CacheSufficesAt(repo: Repo, observed: RepositoryResult, cache: Cache, branch: string, i: nat)
    requires i < |repo.mirrors|
  {
    forall m :: m in observed.mirrors && IsResultOf(m, repo.mirrors[i]) ==>
      m.state == Equal || Cached(repo, cache, branch, i)
  }

  lemma {:induction false} NoStepRefused(repo: Repo, index: map<string, MirrorResult>, cache: Cache, branch: string,
                                         k: nat)
    requires k <= |repo.mirrors| && RepositoryPath(repo.canonical).Some?
    ensures PlanMirrors(repo, index, cache, branch, k).Some? <==>
              forall i :: 0 <= i < k ==> !PlanMirror(repo, index, cache, branch, i).Refused?
  {
    hide PlanMirror;
    if k > 0 {
      NoStepRefused(repo, index, cache, branch, k - 1);
    }
  }

  /**
   * A plan exists exactly for a complete observation under the one policy, with a canonical path and default branch,
   * and a cache that knows what the actions need.
   */
  lemma {:induction false} PlanExistsExactly(repo: Repo, observed: RepositoryResult, cache: Cache)
    ensures BuildPlan(repo, observed, cache).Some? <==>
              && Complete(repo, observed) && Normalize(repo.policy).Some? && RepositoryPath(repo.canonical).Some?
              && "canonical" in cache.heads && !Blank(cache.heads["canonical"])
              && CacheSuffices(repo, observed, cache, TrimSpace(cache.heads["canonical"]))
  {
    hide PlanMirror, IndexBy, Map, NoDuplicates, TargetId, Normalize, Observes, MirrorRemoteName, RepositoryPath,
         TrimSpace, Usable, Blank, Complete, Cached;
    ObservesWhenComplete(repo, observed);
    if "canonical" in cache.heads {
      BlankIsEmptyTrimmed(cache.heads["canonical"]);
      if Observes(observed, repo) && Normalize(repo.policy).Some? && RepositoryPath(repo.canonical).Some? {
        var branch := TrimSpace(cache.heads["canonical"]);
        StepsOfResults(repo, observed, cache, branch);
        NoStepRefused(repo, ObservedIndex(observed), cache, branch, |repo.mirrors|);
      }
    }
  }

  lemma {:induction false} StepsOfResults(repo: Repo, observed: RepositoryResult, cache: Cache, branch: string)
    requires Observes(observed, repo) && Normalize(repo.policy).Some? && RepositoryPath(repo.canonical).Some?
    ensures (forall i :: 0 <= i < |repo.mirrors| ==>
               !PlanMirror(repo, ObservedIndex(observed), cache, branch, i).Refused?) <==>
            (forall i :: 0 <= i < |repo.mirrors| ==> HasUsable(observed, repo.mirrors[i]))
            && CacheSuffices(repo, observed, cache, branch)
  {
    hide PlanMirror, TargetId, Normalize, Observes, RepositoryPath, Usable, Cached, IsResultOf, HasUsable,
         CacheSufficesAt, ObservedIndex;
    forall i | 0 <= i < |repo.mirrors|
      ensures !PlanMirror(repo, ObservedIndex(observed), cache, branch, i).Refused? <==>
                HasUsable(observed, repo.mirrors[i]) && CacheSufficesAt(repo, observed, cache, branch, i) {
      StepOfMirror(repo, observed, cache, branch, i);
    }
  }

  lemma {:induction false} StepOfMirror(repo: Repo, observed: RepositoryResult, cache: Cache, branch: string, i: nat)
    requires Observes(observed, repo) && Normalize(repo.policy).Some? && RepositoryPath(repo.canonical).Some?
    requires i < |repo.mirrors|
    ensures !PlanMirror(repo, ObservedIndex(observed), cache, branch, i).Refused? <==>
              HasUsable(observed, repo.mirrors[i]) && CacheSufficesAt(repo, observed, cache, branch, i)
  {
    hide PlanMirror, TargetId, Normalize, Observes, RepositoryPath, Usable, Cached, IsResultOf, ObservedIndex;
    if !HasUsable(observed, repo.mirrors[i]) {
      UnusableIsRefused(repo, observed, cache, branch, i);
    }
    forall m | m in observed.mirrors && IsResultOf(m, repo.mirrors[i])
      ensures PlanMirror(repo, ObservedIndex(observed), cache, branch, i).Refused? <==>
                !Usable(m) || (m.state != Equal && !Cached(repo, cache, branch, i))
      ensures HasUsable(observed, repo.mirrors[i]) <==> Usable(m) {
      StepOfResult(repo, observed, cache, branch, i, m);
      OnlyResult(repo, observed, i, m);
    }
  }

  lemma {:induction false} UnusableIsRefused(repo: Repo, observed: RepositoryResult, cache: Cache, branch: string,
                                             i: nat)
    requires Observes(observed, repo) && Normalize(repo.policy).Some? && RepositoryPath(repo.canonical).Some?
    requires i < |repo.mirrors| && !HasUsable(observed, repo.mirrors[i])
    ensures PlanMirror(repo, ObservedIndex(observed), cache, branch, i).Refused?
  {
    hide Judge, TargetId, Normalize, Observes, RepositoryPath, HasUsable, IndexBy;
    JudgedByItsResult(repo, observed, repo.mirrors[i]);
  }

  /** The actions of a plan are exactly the pushes to the mirrors that were not observed Equal. */
  lemma {:induction false} PlanSays(repo: Repo, observed: RepositoryResult, cache: Cache)
    requires BuildPlan(repo, observed, cache).Some?
    ensures var plan, branch := BuildPlan(repo, observed, cache).value, TrimSpace(cache.heads["canonical"]);
            && plan.id == repo.id && plan.uid == DurableId(repo)
            && (forall a :: a in plan.actions ==>
                  exists i, m :: 0 <= i < |repo.mirrors| && m in observed.mirrors && IsResultOf(m, repo.mirrors[i])
                                 && m.state != Equal && IsPushTo(a, repo, cache, branch, i, m.state))
            && (forall i, m :: 0 <= i < |repo.mirrors| && m in observed.mirrors && IsResultOf(m, repo.mirrors[i])
                               && m.state != Equal ==>
                  exists a :: a in plan.actions && IsPushTo(a, repo, cache, branch, i, m.state))
  {
    hide PlanMirror, TargetId, Normalize, Observes, RepositoryPath, Usable, Cached, IsResultOf, IsPushTo, IndexBy,
         PlanMirrors, HasUsable, TrimSpace;
    var index, branch := ObservedIndex(observed), TrimSpace(cache.heads["canonical"]);
    var actions := BuildPlan(repo, observed, cache).value.actions;
    PlannedActionsOf(repo, index, cache, branch, |repo.mirrors|);
    NoStepRefused(repo, index, cache, branch, |repo.mirrors|);
    forall i, m | 0 <= i < |repo.mirrors| && m in observed.mirrors && IsResultOf(m, repo.mirrors[i])
      ensures var step := PlanMirror(repo, index, cache, branch, i);
              && (step.Act? <==> m.state != Equal)
              && (step.Act? ==> IsPushTo(step.action, repo, cache, branch, i, m.state)) {
      StepOfResult(repo, observed, cache, branch, i, m);
    }
    forall a | a in actions
      ensures exists i, m :: 0 <= i < |repo.mirrors| && m in observed.mirrors && IsResultOf(m, repo.mirrors[i])
                             && m.state != Equal && IsPushTo(a, repo, cache, branch, i, m.state) {
      var i :| 0 <= i < |repo.mirrors| && PlanMirror(repo, index, cache, branch, i) == Act(a);
      var m := ResultOfStep(repo, observed, cache, branch, i);
      assert IsPushTo(a, repo, cache, branch, i, m.state);
    }
  }

  /** A mirror that is not refused has a usable result. */
  lemma {:induction false} ResultOfStep(repo: Repo, observed: RepositoryResult, cache: Cache, branch: string, i: nat)
    returns (m: MirrorResult)
    requires Observes(observed, repo) && Normalize(repo.policy).Some? && RepositoryPath(repo.canonical).Some?
    requires i < |repo.mirrors| && !PlanMirror(repo, ObservedIndex(observed), cache, branch, i).Refused?
    ensures m in observed.mirrors && IsResultOf(m, repo.mirrors[i]) && Usable(m)
  {
    hide PlanMirror, TargetId, Normalize, Observes, RepositoryPath, Usable, IsResultOf;
    if !HasUsable(observed, repo.mirrors[i]) {
      UnusableIsRefused(repo, observed, cache, branch, i);
    }
    m :| m in observed.mirrors && IsResultOf(m, repo.mirrors[i]) && Usable(m);
  }

  // ---------------------------------------------------------------------
  // Acceptance.
  // ---------------------------------------------------------------------

  /** The one repository of a valid version 2 artifact, with this repository's durable id. */
  predicate IsOf(artifact: Artifact, repo: Repo) {
    && artifact.version == 2 && ValidArtifact(artifact)
    && |artifact.repositories| == 1 && artifact.repositories[0].uid == DurableId(repo)
  }

  /** An action starts at the configured canonical repository. */
  predicate StartsAtCanonical(a: Action, repo: Repo) {
    a.source.provider == repo.canonical.provider && Some(a.source.path) == RepositoryPath(repo.canonical)
  }

  /** An action goes to a configured mirror, under the very provider and path of its configuration. */
  predicate GoesTo(a: Action, endpoint: Endpoint) {
    a.target.provider == endpoint.provider && Some(a.target.path) == RepositoryPath(endpoint)
  }

  /** The artifact does about one mirror what its result asks for: nothing, a push, or a forced push. */
  ghost predicate ActsOn(actions: seq<Action>, endpoint: Endpoint, m: MirrorResult) {
    if m.state == Equal then forall a :: a in actions ==> !Targets(a, endpoint)
    else
      exists a :: a in actions && Targets(a, endpoint) && GoesTo(a, endpoint)
                  && (a.force <==> m.state == Ahead || m.state == Diverged)
  }

  /** An action names the identity of a mirror. */
  predicate Targets(a: Action, endpoint: Endpoint) {
    TargetId(endpoint) == Some(StableId(FromRef(a.target)))
  }

  /** Every mirror has a usable result, and the artifact does what that result asks for. */
  ghost predicate Answers(repo: Repo, observed: RepositoryResult, actions: seq<Action>) {
    forall i :: 0 <= i < |repo.mirrors| ==> Answered(observed, actions, repo.mirrors[i])
  }

  ghost predicate Answered(observed: RepositoryResult, actions: seq<Action>, endpoint: Endpoint) {
    exists m :: m in observed.mirrors && IsResultOf(m, endpoint) && Usable(m) && ActsOn(actions, endpoint, m)
  }

  predicate TargetsMirror(a: Action, repo: Repo) {
    exists e :: e in repo.mirrors && Targets(a, e)
  }

  /** Every action starts at the canonical repository and goes to a configured mirror, no two to the same one. */
  ghost predicate WellAimed(repo: Repo, actions: seq<Action>) {
    && (forall k :: 0 <= k < |actions| ==> StartsAtCanonical(actions[k], repo))
    && (forall k :: 0 <= k < |actions| ==> TargetsMirror(actions[k], repo))
    && (forall j, k :: 0 <= j < k < |actions| ==>
          StableId(FromRef(actions[j].target)) != StableId(FromRef(actions[k].target)))
  }

  /**
   * An artifact is accepted exactly when it is this repository's, the observation is complete, every action starts at
   * the canonical repository and goes to a mirror of its own, and every mirror gets what its result asks for.
   */
  lemma {:induction false} AcceptedExactly(repo: Repo, observed: RepositoryResult, artifact: Artifact)
    ensures Accepts(repo, observed, artifact) <==>
              && IsOf(artifact, repo) && Complete(repo, observed) && Normalize(repo.policy).Some?
              && RepositoryPath(repo.canonical).Some?
              && WellAimed(repo, artifact.repositories[0].actions)
              && Answers(repo, observed, artifact.repositories[0].actions)
  {
    hide ValidArtifact, Observes, ActionsAgree, RepositoryPath, Normalize, Complete, Answers, StableId, TargetId,
         WellAimed;
    ObservesWhenComplete(repo, observed);
    if IsOf(artifact, repo) {
      if Observes(observed, repo) && Normalize(repo.policy).Some? {
        AgreesExactly(repo, observed, artifact);
      }
      if Answers(repo, observed, artifact.repositories[0].actions) {
        AnsweredIsUsable(repo, observed, artifact.repositories[0].actions);
      }
    }
  }

  lemma {:induction false} AnsweredIsUsable(repo: Repo, observed: RepositoryResult, actions: seq<Action>)
    requires Answers(repo, observed, actions)
    ensures forall i :: 0 <= i < |repo.mirrors| ==> HasUsable(observed, repo.mirrors[i])
  {
    hide IsResultOf, Usable, ActsOn;
    forall i | 0 <= i < |repo.mirrors| ensures HasUsable(observed, repo.mirrors[i]) {
      assert Answered(observed, actions, repo.mirrors[i]);
    }
  }

  lemma {:induction false} AgreesExactly(repo: Repo, observed: RepositoryResult, artifact: Artifact)
    requires IsOf(artifact, repo) && Observes(observed, repo) && Normalize(repo.policy).Some?
    ensures PlanFor(repo, artifact).Some?
    ensures var actions := artifact.repositories[0].actions;
            ActionsAgree(repo, observed, PlanFor(repo, artifact).value.actions) <==>
              WellAimed(repo, actions) && Answers(repo, observed, actions)
  {
    hide ValidArtifact, Observes, RepositoryPath, Normalize, StableId, TargetId, MirrorAgrees, Map, NoDuplicates,
         Answered, WellAimed, ActionsAgree;
    var actions, planned := artifact.repositories[0].actions, PlanFor(repo, artifact).value.actions;
    assert |planned| == |actions| && forall k :: 0 <= k < |actions| ==> planned[k] == FromAction(actions[k]);
    AimedAs(repo, actions, planned);
    if NoDuplicates(Map(TargetOfAction, planned)) {
      forall i | 0 <= i < |repo.mirrors|
        ensures MirrorAgrees(repo, repo.mirrors[i], ObservedIndex(observed), ActionIndex(planned)) <==>
                  Answered(observed, actions, repo.mirrors[i]) {
        MirrorAgreesExactly(repo, observed, actions, planned, repo.mirrors[i]);
      }
    }
    AgreementParts(repo, observed, planned);
  }

  lemma {:induction false} AgreementParts(repo: Repo, observed: RepositoryResult, planned: seq<PlannedAction>)
    ensures ActionsAgree(repo, observed, planned) <==>
              && Aimed(repo, planned)
              && forall i :: 0 <= i < |repo.mirrors| ==>
                   MirrorAgrees(repo, repo.mirrors[i], ObservedIndex(observed), ActionIndex(planned))
  {
    hide SourceMatches, NoDuplicates, Map, MirrorAgrees, IsConfigured, ObservedIndex, ActionIndex;
  }

  ghost predicate Aimed(repo: Repo, planned: seq<PlannedAction>) {
    && (forall i :: 0 <= i < |planned| ==> SourceMatches(repo, planned[i]))
    && NoDuplicates(Map(TargetOfAction, planned))
    && (forall i :: 0 <= i < |planned| ==> IsConfigured(repo, TargetOfAction(planned[i])))
  }

  lemma {:induction false} AimedAs(repo: Repo, actions: seq<Action>, planned: seq<PlannedAction>)
    requires |planned| == |actions| && forall k :: 0 <= k < |actions| ==> planned[k] == FromAction(actions[k])
    ensures Aimed(repo, planned) <==> WellAimed(repo, actions)
  {
    hide StableId, TargetId, RepositoryPath, Map, NoDuplicates;
    forall k | 0 <= k < |actions|
      ensures SourceMatches(repo, planned[k]) <==> StartsAtCanonical(actions[k], repo)
      ensures IsConfigured(repo, TargetOfAction(planned[k])) <==> TargetsMirror(actions[k], repo) {
      ConfiguredMirror(repo, actions[k]);
    }
    TargetsOf(actions, planned);
  }

  lemma {:induction false} TargetsOf(actions: seq<Action>, planned: seq<PlannedAction>)
    requires |planned| == |actions| && forall k :: 0 <= k < |actions| ==> planned[k] == FromAction(actions[k])
    ensures NoDuplicates(Map(TargetOfAction, planned)) <==>
              forall j, k :: 0 <= j < k < |actions| ==>
                StableId(FromRef(actions[j].target)) != StableId(FromRef(actions[k].target))
  {
    hide StableId, Map;
    var targets := Map(TargetOfAction, planned);
    assert forall k :: 0 <= k < |targets| ==> targets[k] == StableId(FromRef(actions[k].target));
    if NoDuplicates(targets) {
      forall j, k | 0 <= j < k < |actions|
        ensures StableId(FromRef(actions[j].target)) != StableId(FromRef(actions[k].target)) {
        assert targets[j] != targets[k];
      }
    }
    if forall j, k :: 0 <= j < k < |actions| ==>
        StableId(FromRef(actions[j].target)) != StableId(FromRef(actions[k].target)) {
      forall j, k | 0 <= j < k < |targets| ensures targets[j] != targets[k] {
        assert StableId(FromRef(actions[j].target)) != StableId(FromRef(actions[k].target));
      }
      assert NoDuplicates(targets);
    }
  }

  lemma {:induction false} ConfiguredMirror(repo: Repo, a: Action)
    ensures IsConfigured(repo, TargetOfAction(FromAction(a))) <==> TargetsMirror(a, repo)
  {
    hide StableId, TargetId;
    if e :| e in repo.mirrors && Targets(a, e) {
      var i :| 0 <= i < |repo.mirrors| && repo.mirrors[i] == e;
    }
    if i :| 0 <= i < |repo.mirrors| && TargetId(repo.mirrors[i]) == Some(TargetOfAction(FromAction(a))) {
      assert repo.mirrors[i] in repo.mirrors;
    }
  }

  lemma {:induction false} MirrorAgreesExactly(repo: Repo, observed: RepositoryResult, actions: seq<Action>,
                                               planned: seq<PlannedAction>, endpoint: Endpoint)
    requires Observes(observed, repo) && Normalize(repo.policy).Some? && NoDuplicates(Map(TargetOfAction, planned))
    requires |planned| == |actions| && forall k :: 0 <= k < |actions| ==> planned[k] == FromAction(actions[k])
    ensures MirrorAgrees(repo, endpoint, ObservedIndex(observed), ActionIndex(planned)) <==>
              Answered(observed, actions, endpoint)
  {
    hide Observes, Normalize, StableId, TargetId, Judge, IndexBy, Map, NoDuplicates, RepositoryPath, Usable, Blank,
         TrimSpace, HasUsable;
    JudgedByItsResult(repo, observed, endpoint);
    PathOfTarget(endpoint);
    IndexOfDistinct(TargetOfAction, planned);
    assert HasUsable(observed, endpoint) <==>
      exists m :: m in observed.mirrors && IsResultOf(m, endpoint) && Usable(m) by {
      UsableResult(observed, endpoint);
    }
    forall m | m in observed.mirrors && IsResultOf(m, endpoint) && Usable(m)
      ensures MirrorAgrees(repo, endpoint, ObservedIndex(observed), ActionIndex(planned)) <==>
                ActsOn(actions, endpoint, m) {
      ActsAsJudged(repo, observed, actions, planned, endpoint, m);
    }
  }

  lemma {:induction false} UsableResult(observed: RepositoryResult, endpoint: Endpoint)
    ensures HasUsable(observed, endpoint) <==>
              exists m :: m in observed.mirrors && IsResultOf(m, endpoint) && Usable(m)
  {
  }

  lemma {:induction false} ActsAsJudged(repo: Repo, observed: RepositoryResult, actions: seq<Action>,
                                        planned: seq<PlannedAction>, endpoint: Endpoint, m: MirrorResult)
    requires Observes(observed, repo) && Normalize(repo.policy).Some? && NoDuplicates(Map(TargetOfAction, planned))
    requires |planned| == |actions| && forall k :: 0 <= k < |actions| ==> planned[k] == FromAction(actions[k])
    requires m in observed.mirrors && IsResultOf(m, endpoint) && Usable(m)
    ensures MirrorAgrees(repo, endpoint, ObservedIndex(observed), ActionIndex(planned)) <==>
              ActsOn(actions, endpoint, m)
  {
    hide Observes, Normalize, StableId, Judge, IndexBy, Map, NoDuplicates, RepositoryPath, Usable, Blank, TrimSpace,
         TargetId;
    JudgedByItsResult(repo, observed, endpoint);
    PathOfTarget(endpoint);
    IndexOfDistinct(TargetOfAction, planned);
    assert HasUsable(observed, endpoint);
    var target, index := TargetId(endpoint).value, ActionIndex(planned);
    if target in index {
      var k :| 0 <= k < |planned| && planned[k] == index[target];
      assert actions[k] in actions && Targets(actions[k], endpoint);
    }
    forall a | a in actions && Targets(a, endpoint)
      ensures target in index && index[target] == FromAction(a) {
      var k :| 0 <= k < |actions| && actions[k] == a;
      assert planned[k] in planned;
    }
  }

  // ---------------------------------------------------------------------
  // The state that is reported.
  // ---------------------------------------------------------------------

  /** A configured mirror was observed in a state. */
  ghost predicate SomeIs(observed: RepositoryResult, repo: Repo, state: State) {
    exists e, m :: e in repo.mirrors && m in observed.mirrors && IsResultOf(m, e) && m.state == state
  }

  /** The aggregate is the worst state of a configured mirror: DIVERGED, then AHEAD, then BEHIND, then EQUAL. */
  lemma {:induction false} AggregateIsWorst(repo: Repo, observed: RepositoryResult)
    requires Observes(observed, repo)
    ensures Aggregate(repo, ObservedIndex(observed), |repo.mirrors|) ==
              if SomeIs(observed, repo, Diverged) then Diverged
              else if SomeIs(observed, repo, Ahead) then Ahead
              else if SomeIs(observed, repo, Behind) then Behind else Equal
  {
    hide Observes, TargetId, SomeIs, IndexBy, TrimSpace;
    AggregateOfFirst(repo, ObservedIndex(observed), |repo.mirrors|);
    forall state | state in {Diverged, Ahead, Behind}
      ensures SomeIs(observed, repo, state) <==>
                exists i :: 0 <= i < |repo.mirrors| && StateOf(ObservedIndex(observed), repo.mirrors[i]) == state {
      SomeState(observed, repo, state);
    }
  }

  lemma {:induction false} SomeState(observed: RepositoryResult, repo: Repo, state: State)
    requires Observes(observed, repo) && state != ErrorState
    ensures SomeIs(observed, repo, state) <==>
              exists i :: 0 <= i < |repo.mirrors| && StateOf(ObservedIndex(observed), repo.mirrors[i]) == state
  {
    hide TargetId, IndexBy, TrimSpace, Map, NoDuplicates, Blank;
    IndexOfDistinct(TargetOf, observed.mirrors);
    if e, m :| e in repo.mirrors && m in observed.mirrors && IsResultOf(m, e) && m.state == state {
      var i :| 0 <= i < |repo.mirrors| && repo.mirrors[i] == e;
    }
    if i :| 0 <= i < |repo.mirrors| && StateOf(ObservedIndex(observed), repo.mirrors[i]) == state {
      var m := ObservedIndex(observed)[TargetId(repo.mirrors[i]).value];
      assert repo.mirrors[i] in repo.mirrors && m in observed.mirrors && IsResultOf(m, repo.mirrors[i]);
    }
  }

  lemma {:induction false} AggregateOfFirst(repo: Repo, index: map<string, MirrorResult>, k: nat)
    requires k <= |repo.mirrors|
    ensures var worst := Aggregate(repo, index, k);
            && worst in {Diverged, Ahead, Behind, Equal}
            && (worst == Diverged <==> exists i :: 0 <= i < k && StateOf(index, repo.mirrors[i]) == Diverged)
            && (worst == Ahead <==>
                  && (exists i :: 0 <= i < k && StateOf(index, repo.mirrors[i]) == Ahead)
                  && forall i :: 0 <= i < k ==> StateOf(index, repo.mirrors[i]) != Diverged)
            && (worst == Behind <==>
                  && (exists i :: 0 <= i < k && StateOf(index, repo.mirrors[i]) == Behind)
                  && forall i :: 0 <= i < k ==> StateOf(index, repo.mirrors[i]) !in {Diverged, Ahead})
  {
    hide StateOf;
    if k > 0 {
      AggregateOfFirst(repo, index, k - 1);
    }
  }

  // ---------------------------------------------------------------------
  // Preflight and scope.
  // ---------------------------------------------------------------------

  /** A cached ref names a commit, spaces aside. */
  predicate Names(refs: map<string, Oid>, ref: string, commit: string) {
    ref in refs && TrimSpace(refs[ref]) == TrimSpace(commit) && !Blank(commit)
  }

  /** An action that passes preflight is a push whose source and target refs still name the reviewed commits. */
  lemma {:induction false} PassedIsReviewed(refs: map<string, Oid>, bindings: Bindings, actions: seq<PlannedAction>,
                                            n: nat)
    requires Passes(refs, bindings, actions) && n < |actions|
    ensures var a := actions[n];
            && a.kind == PUSH_BRANCH && StableId(a.target) in bindings.targets
            && !Blank(a.source.name) && !Blank(a.target.name) && !Blank(a.source.branch) && !Blank(a.target.branch)
            && !Blank(bindings.source) && !Blank(bindings.targets[StableId(a.target)])
            && Names(refs, "refs/remotes/" + TrimSpace(bindings.source) + "/" + TrimSpace(a.source.branch),
                     a.expectedSource)
            && Names(refs, "refs/remotes/" + TrimSpace(bindings.targets[StableId(a.target)]) + "/"
                           + TrimSpace(a.target.branch), a.expectedOldTarget)
  {
    hide TrimSpace, Blank, StableId;
    assert Runnable(bindings, actions[n]) && Current(refs, bindings, actions[n]);
  }

  /** Every push of an admitted run goes to the default branch its remote shows now, or to the canonical one's name. */
  lemma {:induction false} PushedToDefaultBranch(q: Request, host: Host, reaches: (Oid, Oid) -> bool,
                                                 schedule: Schedule, start: nat, w: World, now: World, e: Execution,
                                                 events: seq<Event>, n: nat)
    requires Gate(q, host, true).None?
    requires Performed(q, PlanFor(q.repo, q.artifact).value.actions, Bind(q.repo), reaches, schedule, start, w, now, e,
                       events)
    requires n < |events|
    ensures var remote := events[n].target.remote;
            && remote in host.heads && "canonical" in host.heads && !Blank(host.heads["canonical"])
            && events[n].target.name == if Blank(host.heads[remote]) then TrimSpace(host.heads["canonical"])
                                        else TrimSpace(host.heads[remote])
  {
    hide Performed, Passes, StableId, PlanFor, BindTargets, TrimSpace, Blank, Gate;
    EveryPushIsSafe(q, host, reaches, schedule, start, w, now, e, events, n);
    AdmittedInScope(q, host);
    var actions := PlanFor(q.repo, q.artifact).value.actions;
    assert OnDefaultBranches(host.heads, Bind(q.repo), actions[n]);
    BlankIsEmptyTrimmed(host.heads[events[n].target.remote]);
  }

  lemma {:induction false} AdmittedInScope(q: Request, host: Host)
    requires Gate(q, host, true).None?
    ensures PlanFor(q.repo, q.artifact).Some?
    ensures var actions := PlanFor(q.repo, q.artifact).value.actions;
            actions != [] ==> InScope(host.heads, Bind(q.repo), actions)
  {
    hide Accepts, InScope, CanIntend, Blank, Bind, RequiresForce;
    PlanOfArtifact(q.repo, q.observed, q.artifact);
  }

  /** The policy allows a push from the canonical default branch to the mirror's own, or to its namesake, only. */
  lemma {:induction false} OnlyDefaultBranches(p: Policy, source: string, target: string, canonical: string,
                                               mirror: string)
    ensures ValidDefaultBranches(p, source, target, canonical, mirror) <==>
              && Normalize(p).Some? && !Blank(canonical) && TrimSpace(source) == TrimSpace(canonical)
              && TrimSpace(target) == TrimSpace(if Blank(mirror) then canonical else mirror)
  {
    hide TrimSpace, Normalize, Blank;
    BlankIsEmptyTrimmed(canonical);
    BlankIsEmptyTrimmed(mirror);
  }
}
