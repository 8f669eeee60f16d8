/** The check of an imported artifact against current configuration and observation. */
module MirrorPreflight {
  import opened Text
  import opened Permutations
  import opened CommitGraph
  import opened MirrorStatus
  import opened PlanArtifact
  import opened MirrorPlan

  /** Current local remote names for the durable targets of a plan. */
  datatype Bindings = Bindings(source: string, targets: map<string, string>)

  datatype Accepted = Accepted(plan: Plan, bindings: Bindings, aggregate: State)

  function TargetOfAction(a: PlannedAction): string {
    StableId(a.target)
  }

  function ActionIndex(actions: seq<PlannedAction>): map<string, PlannedAction> {
    IndexBy(TargetOfAction, actions)
  }

  /** The one plan of a version 2 artifact that names this repository. */
  function PlanFor(repo: Repo, a: Artifact): Option<Plan> {
    if a.version != VERSION || Plans(a).None? || |Plans(a).value| != 1 || Plans(a).value[0].uid != DurableId(repo)
    then None
    else Some(Plans(a).value[0])
  }

  /** A configured mirror has an action exactly when policy asks for one, with the same force and identity. */
  predicate MirrorAgrees(repo: Repo, endpoint: Endpoint, observed: map<string, MirrorResult>,
                         actions: map<string, PlannedAction>) {
    var decision := Judge(repo, observed, endpoint);
    && decision.Some?
    && var target := TargetId(endpoint).value;
       && (decision.value.action <==> target in actions)
       && (target in actions ==>
             && actions[target].force == decision.value.force
             && actions[target].target.provider == endpoint.provider
             && actions[target].target.path == RepositoryPath(endpoint).value)
  }

  predicate SourceMatches(repo: Repo, a: PlannedAction) {
    a.source.provider == repo.canonical.provider && Some(a.source.path) == RepositoryPath(repo.canonical)
  }

  predicate IsConfigured(repo: Repo, target: string) {
    exists i :: 0 <= i < |repo.mirrors| && TargetId(repo.mirrors[i]) == Some(target)
  }

  /** What it takes for an artifact to be executable against this configuration and observation. */
  predicate Accepts(repo: Repo, observed: RepositoryResult, artifact: Artifact) {
    && PlanFor(repo, artifact).Some?
    && Observes(observed, repo)
    && RepositoryPath(repo.canonical).Some? && Normalize(repo.policy).Some?
    && ActionsAgree(repo, observed, PlanFor(repo, artifact).value.actions)
  }

  /** Every action comes from the canonical repository and goes to a mirror of its own that agrees to it. */
  predicate ActionsAgree(repo: Repo, observed: RepositoryResult, actions: seq<PlannedAction>) {
    && (forall i :: 0 <= i < |actions| ==> SourceMatches(repo, actions[i]))
    && NoDuplicates(Map(TargetOfAction, actions))
    && (forall i :: 0 <= i < |repo.mirrors| ==>
          MirrorAgrees(repo, repo.mirrors[i], ObservedIndex(observed), ActionIndex(actions)))
    && (forall i :: 0 <= i < |actions| ==> IsConfigured(repo, TargetOfAction(actions[i])))
  }

  function CombineState(current: State, next: State): State {
    if next == Diverged || current == Diverged then Diverged
    else if next == Ahead || current == Ahead then Ahead
    else if next == Behind || current == Behind then Behind
    else Equal
  }

  /** The binding of each configured target, a later mirror replacing an earlier one of the same identity. */
  function BindTargets(repo: Repo, k: nat): map<string, string>
    requires k <= |repo.mirrors|
  {
    if k == 0 then map[]
    else if TargetId(repo.mirrors[k - 1]).None? then BindTargets(repo, k - 1)
    else BindTargets(repo, k - 1)[TargetId(repo.mirrors[k - 1]).value := MirrorRemoteName(|repo.mirrors|, k - 1)]
  }

  function Bind(repo: Repo): Bindings {
    Bindings("canonical", BindTargets(repo, |repo.mirrors|))
  }

  function StateOf(index: map<string, MirrorResult>, endpoint: Endpoint): State {
    if TargetId(endpoint).Some? && TargetId(endpoint).value in index then index[TargetId(endpoint).value].state
    else ErrorState
  }

  /** The worst state among the first `k` configured mirrors. */
  function Aggregate(repo: Repo, index: map<string, MirrorResult>, k: nat): State
    requires k <= |repo.mirrors|
  {
    if k == 0 then Equal else CombineState(Aggregate(repo, index, k - 1), StateOf(index, repo.mirrors[k - 1]))
  }

  method ValidateRepositoryArtifact(repo: Repo, observed: RepositoryResult, artifact: Artifact)
    returns (r: Option<Accepted>)
    ensures r.Some? <==> Accepts(repo, observed, artifact)
    ensures r.Some? ==>
              r.value == Accepted(PlanFor(repo, artifact).value, Bind(repo),
                                  Aggregate(repo, ObservedIndex(observed), |repo.mirrors|))
  {
    hide Plans, IndexBy, Map, NoDuplicates, MirrorAgrees, BindTargets, IsConfigured, RepositoryPath;
    var planned := PlanFor(repo, artifact);
    if planned.None? || repo.mirrors == [] {
      return None;
    }
    if (observed.id != "" && observed.id != repo.id) || (observed.uid != "" && observed.uid != DurableId(repo)) {
      return None;
    }
    if !Blank(observed.error) || |observed.mirrors| != |repo.mirrors| {
      return None;
    }
    if RepositoryPath(repo.canonical).None? || Normalize(repo.policy).None? {
      return None;
    }
    var observedByTarget := IndexDistinct(TargetOf, "", observed.mirrors);
    if observedByTarget.None? {
      return None;
    }
    var actions := planned.value.actions;
    var sourced := AllSourcesMatch(repo, actions);
    if !sourced {
      return None;
    }
    var actionsByTarget := IndexDistinct(TargetOfAction, "", actions);
    StableIdsAreNotEmpty(actions);
    if actionsByTarget.None? {
      return None;
    }
    var checked := CheckMirrors(repo, observedByTarget.value, actionsByTarget.value);
    if checked.None? {
      return None;
    }
    var known := AllTargetsBound(repo, actions, checked.value.0.targets);
    if !known {
      return None;
    }
    return Some(Accepted(planned.value, checked.value.0, checked.value.1));
  }

  method AllSourcesMatch(repo: Repo, actions: seq<PlannedAction>) returns (all: bool)
    ensures all <==> forall i :: 0 <= i < |actions| ==> SourceMatches(repo, actions[i])
  {
    hide SourceMatches;
    for i := 0 to |actions|
      invariant forall k :: 0 <= k < i ==> SourceMatches(repo, actions[k])
    {
      if !SourceMatches(repo, actions[i]) {
        return false;
      }
    }
    return true;
  }

  method AllTargetsBound(repo: Repo, actions: seq<PlannedAction>, targets: map<string, string>) returns (all: bool)
    requires targets == BindTargets(repo, |repo.mirrors|)
    ensures all <==> forall i :: 0 <= i < |actions| ==> IsConfigured(repo, TargetOfAction(actions[i]))
  {
    hide BindTargets, TargetId, TargetOfAction;
    for i := 0 to |actions|
      invariant forall k :: 0 <= k < i ==> IsConfigured(repo, TargetOfAction(actions[k]))
    {
      BoundTargets(repo, |repo.mirrors|, TargetOfAction(actions[i]));
      if TargetOfAction(actions[i]) !in targets {
        return false;
      }
    }
    return true;
  }

  lemma StableIdsAreNotEmpty(actions: seq<PlannedAction>)
    ensures forall i :: 0 <= i < |actions| ==> TargetOfAction(actions[i]) != ""
  {
  }

  method CheckMirrors(repo: Repo, observed: map<string, MirrorResult>, actions: map<string, PlannedAction>)
    returns (r: Option<(Bindings, State)>)
    ensures r.Some? <==> forall i :: 0 <= i < |repo.mirrors| ==> MirrorAgrees(repo, repo.mirrors[i], observed, actions)
    ensures r.Some? ==> r.value == (Bind(repo), Aggregate(repo, observed, |repo.mirrors|))
  {
    hide RepositoryPath, Decide, TrimSpace, Blank, CombineState;
    var aggregate := Equal;
    var targets: map<string, string> := map[];
    for i := 0 to |repo.mirrors|
      invariant forall k :: 0 <= k < i ==> MirrorAgrees(repo, repo.mirrors[k], observed, actions)
      invariant targets == BindTargets(repo, i) && aggregate == Aggregate(repo, observed, i)
    {
      var endpoint := repo.mirrors[i];
      var target := TargetId(endpoint);
      if target.None? {
        return None;
      }
      targets := targets[target.value := MirrorRemoteName(|repo.mirrors|, i)];
      var decision := Judge(repo, observed, endpoint);
      if decision.None? || decision.value.action != (target.value in actions) {
        return None;
      }
      if target.value in actions {
        var action := actions[target.value];
        if action.force != decision.value.force {
          return None;
        }
        if action.target.provider != endpoint.provider || action.target.path != RepositoryPath(endpoint).value {
          return None;
        }
      }
      aggregate := CombineState(aggregate, observed[target.value].state);
    }
    return Some((Bindings("canonical", targets), aggregate));
  }

  /** Exactly the configured targets are bound, each to the remote name of a mirror with that identity. */
  lemma {:induction false} BoundTargets(repo: Repo, k: nat, target: string)
    requires k <= |repo.mirrors|
    ensures target in BindTargets(repo, k) <==> exists i :: 0 <= i < k && TargetId(repo.mirrors[i]) == Some(target)
    ensures target in BindTargets(repo, k) ==>
              exists i :: 0 <= i < k && TargetId(repo.mirrors[i]) == Some(target)
                          && BindTargets(repo, k)[target] == MirrorRemoteName(|repo.mirrors|, i)
  {
    hide TargetId, MirrorRemoteName;
    if k > 0 {
      BoundTargets(repo, k - 1, target);
    }
  }

  // ---------------------------------------------------------------------
  // What acceptance means, mirror by mirror.
  // ---------------------------------------------------------------------

  /** Configuration validation rejects two mirrors with one identity. */
  predicate DistinctMirrors(repo: Repo) {
    forall i, j :: 0 <= i < j < |repo.mirrors| && TargetId(repo.mirrors[i]).Some? ==>
      TargetId(repo.mirrors[i]) != TargetId(repo.mirrors[j])
  }

  /** One action for a mirror whose state is not EQUAL and none otherwise, forced exactly for AHEAD and DIVERGED. */
  ghost predicate DecidedAs(state: State, target: string, actions: seq<PlannedAction>) {
    && ((exists a :: a in actions && TargetOfAction(a) == target) <==> state != Equal)
    && (forall a :: a in actions && TargetOfAction(a) == target ==> (a.force <==> state == Ahead || state == Diverged))
    && (forall a, b :: a in actions && b in actions && TargetOfAction(a) == target == TargetOfAction(b) ==> a == b)
  }

  /** Each configured mirror was observed, and its actions are those its observed state calls for. */
  lemma AcceptedMirror(repo: Repo, observed: RepositoryResult, artifact: Artifact, i: nat)
    requires Accepts(repo, observed, artifact) && i < |repo.mirrors|
    ensures TargetId(repo.mirrors[i]).Some?
    ensures var target := TargetId(repo.mirrors[i]).value;
            exists m :: m in observed.mirrors && TargetOf(m) == target
              && DecidedAs(m.state, target, PlanFor(repo, artifact).value.actions)
  {
    hide IndexBy, Map, NoDuplicates, TargetId, RepositoryPath, Plans, IsConfigured, TargetOf, TargetOfAction,
         SourceMatches, TrimSpace, DecidedAs, MirrorAgrees;
    var actions := PlanFor(repo, artifact).value.actions;
    var observedIndex, actionIndex := ObservedIndex(observed), ActionIndex(actions);
    IndexOfDistinct(TargetOf, observed.mirrors);
    assert MirrorAgrees(repo, repo.mirrors[i], observedIndex, actionIndex);
    AgreementDecides(repo, observedIndex, actions, repo.mirrors[i]);
    var target := TargetId(repo.mirrors[i]).value;
    var m := observedIndex[target];
    assert m in observed.mirrors && TargetOf(m) == target;
  }

  lemma AgreementDecides(repo: Repo, observed: map<string, MirrorResult>, actions: seq<PlannedAction>,
                         endpoint: Endpoint)
    requires NoDuplicates(Map(TargetOfAction, actions)) && MirrorAgrees(repo, endpoint, observed, ActionIndex(actions))
    ensures TargetId(endpoint).Some? && TargetId(endpoint).value in observed
    ensures DecidedAs(observed[TargetId(endpoint).value].state, TargetId(endpoint).value, actions)
  {
    hide IndexBy, Map, NoDuplicates, TargetId, RepositoryPath, TargetOfAction, Blank;
    IndexOfDistinct(TargetOfAction, actions);
    var target := TargetId(endpoint).value;
    assert (exists a :: a in actions && TargetOfAction(a) == target) <==> target in ActionIndex(actions);
  }

  /** No action of an accepted artifact goes anywhere but to a configured mirror. */
  lemma AcceptedTargets(repo: Repo, observed: RepositoryResult, artifact: Artifact, a: PlannedAction)
    requires Accepts(repo, observed, artifact) && a in PlanFor(repo, artifact).value.actions
    ensures exists i :: 0 <= i < |repo.mirrors|
              && TargetId(repo.mirrors[i]) == Some(TargetOfAction(a))
              && a.target.provider == repo.mirrors[i].provider && Some(a.target.path) == RepositoryPath(repo.mirrors[i])
  {
    hide IndexBy, Map, NoDuplicates, RepositoryPath, Plans, TargetOf, TargetOfAction, SourceMatches;
    var actions := PlanFor(repo, artifact).value.actions;
    IndexOfDistinct(TargetOfAction, actions);
    var i :| 0 <= i < |repo.mirrors| && TargetId(repo.mirrors[i]) == Some(TargetOfAction(a));
    assert MirrorAgrees(repo, repo.mirrors[i], ObservedIndex(observed), ActionIndex(actions));
  }

  // ---------------------------------------------------------------------
  // A built plan is accepted; the order of observations is immaterial.
  // ---------------------------------------------------------------------

  /** Every planned action is the step of one configured mirror; mirrors that need one have one. */
  lemma {:induction false} PlannedActionsOf(repo: Repo, index: map<string, MirrorResult>, cache: Cache, branch: string,
                                            k: nat)
    requires k <= |repo.mirrors| && RepositoryPath(repo.canonical).Some?
    requires PlanMirrors(repo, index, cache, branch, k).Some?
    ensures var actions := PlanMirrors(repo, index, cache, branch, k).value;
            && (forall a :: a in actions ==>
                  exists i :: 0 <= i < k && PlanMirror(repo, index, cache, branch, i) == Act(a))
            && (forall i :: 0 <= i < k ==>
                  var step := PlanMirror(repo, index, cache, branch, i);
                  !step.Refused? && (step.Act? ==> step.action in actions))
  {
    hide PlanMirror;
    if k > 0 {
      PlannedActionsOf(repo, index, cache, branch, k - 1);
    }
  }

  lemma StepOfMirror(repo: Repo, index: map<string, MirrorResult>, cache: Cache, branch: string, i: nat)
    requires i < |repo.mirrors| && RepositoryPath(repo.canonical).Some?
    ensures var step := PlanMirror(repo, index, cache, branch, i);
            && (!step.Refused? ==>
                  && Judge(repo, index, repo.mirrors[i]).Some?
                  && (step.Act? <==> Judge(repo, index, repo.mirrors[i]).value.action))
            && (step.Act? ==>
                  && TargetId(repo.mirrors[i]).Some?
                  && TargetOfAction(step.action) == TargetId(repo.mirrors[i]).value
                  && SourceMatches(repo, step.action)
                  && step.action.force == Judge(repo, index, repo.mirrors[i]).value.force
                  && step.action.target.provider == repo.mirrors[i].provider
                  && Some(step.action.target.path) == RepositoryPath(repo.mirrors[i]))
  {
    hide RepositoryPath, StableId, TrackingRef, MirrorRemoteName, TargetBranch, Decide;
    var step := PlanMirror(repo, index, cache, branch, i);
    if step.Act? {
      StableIdOfEndpoint(repo.mirrors[i], step.action.target);
    }
  }

  lemma {:induction false} PlannedTargetsDistinct(repo: Repo, index: map<string, MirrorResult>, cache: Cache,
                                                  branch: string, k: nat)
    requires k <= |repo.mirrors| && RepositoryPath(repo.canonical).Some? && DistinctMirrors(repo)
    requires PlanMirrors(repo, index, cache, branch, k).Some?
    ensures NoDuplicates(Map(TargetOfAction, PlanMirrors(repo, index, cache, branch, k).value))
  {
    hide PlanMirror, TargetId, TargetOfAction, RepositoryPath, Map, NoDuplicates, Judge, SourceMatches;
    EmptyHasNoDuplicates(TargetOfAction);
    if k > 0 {
      var front, step := PlanMirrors(repo, index, cache, branch, k - 1).value,
        PlanMirror(repo, index, cache, branch, k - 1);
      PlannedTargetsDistinct(repo, index, cache, branch, k - 1);
      if step.Act? {
        PlannedActionsOf(repo, index, cache, branch, k - 1);
        StepOfMirror(repo, index, cache, branch, k - 1);
        forall a | a in front ensures TargetOfAction(a) != TargetOfAction(step.action) {
          var i :| 0 <= i < k - 1 && PlanMirror(repo, index, cache, branch, i) == Act(a);
          StepOfMirror(repo, index, cache, branch, i);
        }
        var all := front + [step.action];
        assert all[..|all| - 1] == front;
        LastKeyRepeats(TargetOfAction, all);
      }
    }
  }

  /** Any artifact built from an observation is accepted against that observation. */
  lemma BuiltPlanIsAccepted(repo: Repo, observed: RepositoryResult, cache: Cache)
    requires DistinctMirrors(repo)
    requires BuildPlan(repo, observed, cache).Some?
    requires ValidArtifact(FromPlans(VERSION, [BuildPlan(repo, observed, cache).value]))
    ensures Accepts(repo, observed, FromPlans(VERSION, [BuildPlan(repo, observed, cache).value]))
  {
    hide PlanMirror, TargetId, RepositoryPath, IndexBy, Map, NoDuplicates, ValidArtifact, Plans, FromPlans, Judge,
         StableId;
    var plan := BuildPlan(repo, observed, cache).value;
    PlansRoundTrip([plan]);
    var index, branch, n := ObservedIndex(observed), HeadBranch(cache, "canonical").value, |repo.mirrors|;
    var actions, byTarget := plan.actions, ActionIndex(plan.actions);
    PlannedActionsOf(repo, index, cache, branch, n);
    PlannedTargetsDistinct(repo, index, cache, branch, n);
    IndexOfDistinct(TargetOfAction, actions);
    forall j | 0 <= j < |actions|
      ensures SourceMatches(repo, actions[j]) && IsConfigured(repo, TargetOfAction(actions[j])) {
      assert actions[j] in actions;
      var i :| 0 <= i < n && PlanMirror(repo, index, cache, branch, i) == Act(actions[j]);
      StepOfMirror(repo, index, cache, branch, i);
    }
    forall i | 0 <= i < n ensures MirrorAgrees(repo, repo.mirrors[i], index, byTarget) {
      BuiltMirrorAgrees(repo, index, cache, branch, actions, i);
    }
    VersionOfPlans([plan]);
  }

  lemma VersionOfPlans(plans: seq<Plan>)
    ensures FromPlans(VERSION, plans).version == VERSION
  {
  }

  lemma BuiltMirrorAgrees(repo: Repo, index: map<string, MirrorResult>, cache: Cache, branch: string,
                          actions: seq<PlannedAction>, i: nat)
    requires i < |repo.mirrors| && RepositoryPath(repo.canonical).Some? && DistinctMirrors(repo)
    requires PlanMirrors(repo, index, cache, branch, |repo.mirrors|) == Some(actions)
    ensures MirrorAgrees(repo, repo.mirrors[i], index, ActionIndex(actions))
  {
    hide PlanMirror, TargetId, RepositoryPath, IndexBy, Map, NoDuplicates, Decide, StableId;
    PlannedActionsOf(repo, index, cache, branch, |repo.mirrors|);
    PlannedTargetsDistinct(repo, index, cache, branch, |repo.mirrors|);
    IndexOfDistinct(TargetOfAction, actions);
    StepOfMirror(repo, index, cache, branch, i);
    var target := TargetId(repo.mirrors[i]).value;
    if target in ActionIndex(actions) {
      var a := ActionIndex(actions)[target];
      var j :| 0 <= j < |repo.mirrors| && PlanMirror(repo, index, cache, branch, j) == Act(a);
      StepOfMirror(repo, index, cache, branch, j);
      assert j == i;
    }
  }

  /** Observing the mirrors in another order changes neither the plan nor acceptance. */
  lemma ObservationOrderDoesNotMatter(repo: Repo, observed: RepositoryResult, other: RepositoryResult, cache: Cache,
                                      artifact: Artifact)
    requires other == observed.(mirrors := other.mirrors) && multiset(other.mirrors) == multiset(observed.mirrors)
    ensures BuildPlan(repo, observed, cache) == BuildPlan(repo, other, cache)
    ensures Accepts(repo, observed, artifact) <==> Accepts(repo, other, artifact)
  {
    hide PlanMirrors, RepositoryPath, IndexBy, Map, NoDuplicates, Plans, MirrorAgrees, IsConfigured, SourceMatches,
         TargetOf;
    SameMembers(observed.mirrors, other.mirrors);
    MapOfPermutation(TargetOf, observed.mirrors, other.mirrors);
    DistinctUnderPermutation(Map(TargetOf, observed.mirrors), Map(TargetOf, other.mirrors));
    assert (forall i :: 0 <= i < |observed.mirrors| ==> TargetOf(observed.mirrors[i]) != "")
      <==> (forall m :: m in observed.mirrors ==> TargetOf(m) != "");
    assert (forall i :: 0 <= i < |other.mirrors| ==> TargetOf(other.mirrors[i]) != "")
      <==> (forall m :: m in other.mirrors ==> TargetOf(m) != "");
    assert Observes(observed, repo) <==> Observes(other, repo);
    if Observes(observed, repo) {
      IndexOfPermutation(TargetOf, observed.mirrors, other.mirrors);
    }
  }
}
