/** From configuration and observation to an exact plan, and the check of a plan against both. */
module MirrorPlan {
  import opened Text
  import opened Permutations
  import opened CommitGraph
  import opened MirrorStatus
  import opened PlanArtifact

  // ---------------------------------------------------------------------
  // Configuration.
  // ---------------------------------------------------------------------

  /** `legacy` is the path a transport URL yields, when there is one. */
  datatype Endpoint = Endpoint(provider: string, path: string, legacy: Option<string>)

  datatype Repo = Repo(id: string, uid: string, canonical: Endpoint, mirrors: seq<Endpoint>, policy: Policy)

  function DurableId(repo: Repo): string {
    if repo.uid != "" then repo.uid else repo.id
  }

  function SafePathOf(path: string): Option<string> {
    if SafePath(TrimSpace(path)) then Some(TrimSpace(path)) else None
  }

  function RepositoryPath(e: Endpoint): Option<string> {
    if TrimSpace(e.path) != "" then SafePathOf(e.path)
    else if e.legacy.Some? then SafePathOf(e.legacy.value)
    else None
  }

  /** provider:path, the identity of a target whatever its transport. */
  function TargetId(e: Endpoint): Option<string> {
    if TrimSpace(e.provider) == "" || RepositoryPath(e).None? then None
    else Some(TrimSpace(e.provider) + ":" + RepositoryPath(e).value)
  }

  function StableId(remote: Remote): string {
    TrimSpace(remote.provider) + ":" + TrimChar(TrimSpace(remote.path), '/')
  }

  /** A remote made from an endpoint carries that endpoint's identity. */
  lemma StableIdOfEndpoint(e: Endpoint, remote: Remote)
    requires TargetId(e).Some? && remote.provider == e.provider && remote.path == RepositoryPath(e).value
    ensures StableId(remote) == TargetId(e).value
  {
    hide SafePath;
    SafePathIsTrimmed(e.path);
    if e.legacy.Some? {
      SafePathIsTrimmed(e.legacy.value);
    }
  }

  lemma SafePathIsTrimmed(path: string)
    ensures SafePathOf(path).Some? ==>
              TrimSpace(SafePathOf(path).value) == SafePathOf(path).value
                && TrimChar(SafePathOf(path).value, '/') == SafePathOf(path).value
  {
    hide TrimSpace;
    TrimSpaceIsTrimmed(path);
    TrimmedStays(TrimSpace(path));
  }

  function MirrorRemoteName(count: nat, index: nat): string {
    if count == 1 then "mirror" else "mirror-" + Numeral(index)
  }

  function TrackingRef(remote: string, branch: string): string {
    "refs/remotes/" + TrimSpace(remote) + "/" + TrimSpace(branch)
  }

  /** What the repository's own cache says: the default branch of each remote, and each tracking ref. */
  datatype Cache = Cache(heads: map<string, string>, refs: map<string, Oid>)

  function HeadBranch(cache: Cache, remote: string): Option<string> {
    if remote in cache.heads then Some(TrimSpace(cache.heads[remote])) else None
  }

  function Resolve(cache: Cache, ref: string): Option<Oid> {
    if ref in cache.refs then Some(cache.refs[ref]) else None
  }

  // ---------------------------------------------------------------------
  // Observations by target.
  // ---------------------------------------------------------------------

  function TargetOf(m: MirrorResult): string {
    TrimSpace(m.target)
  }

  function ObservedIndex(observed: RepositoryResult): map<string, MirrorResult> {
    IndexBy(TargetOf, observed.mirrors)
  }

  /** A complete observation of this repository: one result per configured mirror, each with its own identity. */
  predicate Observes(observed: RepositoryResult, repo: Repo) {
    && repo.mirrors != []
    && (observed.id == "" || observed.id == repo.id)
    && (observed.uid == "" || observed.uid == DurableId(repo))
    && Blank(observed.error)
    && |observed.mirrors| == |repo.mirrors|
    && (forall i :: 0 <= i < |observed.mirrors| ==> TargetOf(observed.mirrors[i]) != "")
    && NoDuplicates(Map(TargetOf, observed.mirrors))
  }

  /** The usable observation of a configured mirror, and what policy makes of it. */
  function Judge(repo: Repo, index: map<string, MirrorResult>, endpoint: Endpoint): Option<Decision> {
    if TargetId(endpoint).None? || TargetId(endpoint).value !in index then None
    else
      var mirror := index[TargetId(endpoint).value];
      if mirror.state == ErrorState || !Blank(mirror.error) then None else Decide(repo.policy, mirror.state)
  }

  // ---------------------------------------------------------------------
  // Planning.
  // ---------------------------------------------------------------------

  /** The policy denies any branch but the two defaults. */
  predicate ValidDefaultBranches(p: Policy, source: string, target: string, canonicalDefault: string,
                                 mirrorDefault: string) {
    var canonical, mirror := TrimSpace(canonicalDefault), TrimSpace(mirrorDefault);
    var effective := if mirror == "" then canonical else mirror;
    Normalize(p).Some? && canonical != "" && TrimSpace(source) == canonical && TrimSpace(target) == effective
  }

  datatype MirrorStep = Refused | NoAction | Act(action: PlannedAction)

  function TargetBranch(repo: Repo, cache: Cache, canonicalBranch: string, i: nat): Option<string> {
    var head := HeadBranch(cache, MirrorRemoteName(|repo.mirrors|, i));
    if head.None? then None else Some(if head.value == "" then canonicalBranch else head.value)
  }

  /** What the plan does about the i-th configured mirror. */
  function PlanMirror(repo: Repo, index: map<string, MirrorResult>, cache: Cache, branch: string, i: nat): MirrorStep
    requires i < |repo.mirrors| && RepositoryPath(repo.canonical).Some?
  {
    var endpoint := repo.mirrors[i];
    var decision := Judge(repo, index, endpoint);
    if decision.None? then Refused
    else if !decision.value.action then NoAction
    else
      var name := MirrorRemoteName(|repo.mirrors|, i);
      var target := TargetBranch(repo, cache, branch, i);
      var source := Resolve(cache, TrackingRef("canonical", branch));
      if target.None? || source.None? || Resolve(cache, TrackingRef(name, target.value)).None? then Refused
      else
        Act(PlannedAction(
              PUSH_BRANCH,
              Remote(repo.canonical.provider, RepositoryPath(repo.canonical).value, "canonical", branch),
              Remote(endpoint.provider, RepositoryPath(endpoint).value, name, target.value),
              TrimSpace(source.value), TrimSpace(Resolve(cache, TrackingRef(name, target.value)).value),
              decision.value.force, decision.value.reason))
  }

  /** The actions of the first `k` configured mirrors, in configuration order. */
  function PlanMirrors(repo: Repo, index: map<string, MirrorResult>, cache: Cache, branch: string,
                       k: nat): Option<seq<PlannedAction>>
    requires k <= |repo.mirrors| && RepositoryPath(repo.canonical).Some?
  {
    if k == 0 then Some([])
    else
      var front, step := PlanMirrors(repo, index, cache, branch, k - 1), PlanMirror(repo, index, cache, branch, k - 1);
      if front.None? || step.Refused? then None
      else if step.NoAction? then front
      else Some(front.value + [step.action])
  }

  /** The plan for a repository, when observation and cache allow one. */
  function BuildPlan(repo: Repo, observed: RepositoryResult, cache: Cache): Option<Plan> {
    var branch := HeadBranch(cache, "canonical");
    if !Observes(observed, repo) || Normalize(repo.policy).None? || RepositoryPath(repo.canonical).None? then None
    else if branch.None? || branch.value == "" then None
    else
      var actions := PlanMirrors(repo, ObservedIndex(observed), cache, branch.value, |repo.mirrors|);
      if actions.None? then None else Some(Plan(repo.id, DurableId(repo), actions.value))
  }

  method BuildRepositoryPlan(repo: Repo, observed: RepositoryResult, cache: Cache) returns (r: Option<Plan>)
    ensures r == BuildPlan(repo, observed, cache)
  {
    hide PlanMirrors, IndexBy, Map;
    if repo.mirrors == [] {
      return None;
    }
    if (observed.id != "" && observed.id != repo.id) || (observed.uid != "" && observed.uid != DurableId(repo)) {
      return None;
    }
    if !Blank(observed.error) || |observed.mirrors| != |repo.mirrors| {
      return None;
    }
    if Normalize(repo.policy).None? || RepositoryPath(repo.canonical).None? {
      return None;
    }
    var byTarget := IndexDistinct(TargetOf, "", observed.mirrors);
    if byTarget.None? {
      return None;
    }
    var canonicalBranch := HeadBranch(cache, "canonical");
    if canonicalBranch.None? || canonicalBranch.value == "" {
      return None;
    }
    var actions := PlanActions(repo, byTarget.value, cache, canonicalBranch.value);
    if actions.None? {
      return None;
    }
    return Some(Plan(repo.id, DurableId(repo), actions.value));
  }

  method PlanActions(repo: Repo, byTarget: map<string, MirrorResult>, cache: Cache, canonicalBranch: string)
    returns (r: Option<seq<PlannedAction>>)
    requires RepositoryPath(repo.canonical).Some? && Normalize(repo.policy).Some?
    requires canonicalBranch != "" && Trimmed(canonicalBranch)
    ensures r == PlanMirrors(repo, byTarget, cache, canonicalBranch, |repo.mirrors|)
  {
    hide PlanMirror, Resolve, TrackingRef, RepositoryPath, Normalize, Trimmed;
    var actions := [];
    var sourceOid: Option<Oid> := None;
    for i := 0 to |repo.mirrors|
      invariant PlanMirrors(repo, byTarget, cache, canonicalBranch, i) == Some(actions)
      invariant sourceOid.Some? ==> sourceOid == Resolve(cache, TrackingRef("canonical", canonicalBranch))
    {
      var step;
      step, sourceOid := PlanOneMirror(repo, byTarget, cache, canonicalBranch, i, sourceOid);
      if step.Refused? {
        RefusalIsFinal(repo, byTarget, cache, canonicalBranch, i + 1, |repo.mirrors|);
        return None;
      }
      if step.Act? {
        actions := actions + [step.action];
      }
    }
    return Some(actions);
  }

  /** The canonical commit is resolved at the first action and kept for the later ones. */
  method PlanOneMirror(repo: Repo, byTarget: map<string, MirrorResult>, cache: Cache, canonicalBranch: string, i: nat,
                       known: Option<Oid>)
    returns (step: MirrorStep, sourceOid: Option<Oid>)
    requires i < |repo.mirrors| && RepositoryPath(repo.canonical).Some? && Normalize(repo.policy).Some?
    requires canonicalBranch != "" && Trimmed(canonicalBranch)
    requires known.Some? ==> known == Resolve(cache, TrackingRef("canonical", canonicalBranch))
    ensures step == PlanMirror(repo, byTarget, cache, canonicalBranch, i)
    ensures sourceOid.Some? ==> sourceOid == Resolve(cache, TrackingRef("canonical", canonicalBranch))
  {
    hide TrackingRef, RepositoryPath, TargetBranch, ValidDefaultBranches, Resolve, MirrorRemoteName, Decide, TrimSpace;
    sourceOid := known;
    var endpoint := repo.mirrors[i];
    var decision := Judge(repo, byTarget, endpoint);
    if decision.None? {
      return Refused, sourceOid;
    }
    if !decision.value.action {
      return NoAction, sourceOid;
    }
    var name := MirrorRemoteName(|repo.mirrors|, i);
    var targetBranch := TargetBranch(repo, cache, canonicalBranch, i);
    if targetBranch.None? {
      return Refused, sourceOid;
    }
    DefaultBranchesAgree(repo, cache, canonicalBranch, i);
    if !ValidDefaultBranches(repo.policy, canonicalBranch, targetBranch.value, canonicalBranch, targetBranch.value) {
      return Refused, sourceOid;
    }
    if sourceOid.None? {
      sourceOid := Resolve(cache, TrackingRef("canonical", canonicalBranch));
      if sourceOid.None? {
        return Refused, sourceOid;
      }
    }
    var targetOid := Resolve(cache, TrackingRef(name, targetBranch.value));
    if targetOid.None? {
      return Refused, sourceOid;
    }
    var source := Remote(repo.canonical.provider, RepositoryPath(repo.canonical).value, "canonical", canonicalBranch);
    var target := Remote(endpoint.provider, RepositoryPath(endpoint).value, name, targetBranch.value);
    return Act(PlannedAction(PUSH_BRANCH, source, target, TrimSpace(sourceOid.value), TrimSpace(targetOid.value),
                             decision.value.force, decision.value.reason)), sourceOid;
  }

  lemma {:induction false} RefusalIsFinal(repo: Repo, index: map<string, MirrorResult>, cache: Cache, branch: string,
                                          j: nat, k: nat)
    requires j <= k <= |repo.mirrors| && RepositoryPath(repo.canonical).Some?
    ensures PlanMirrors(repo, index, cache, branch, j).None? ==> PlanMirrors(repo, index, cache, branch, k).None?
    decreases k
  {
    hide PlanMirror;
    if j < k {
      RefusalIsFinal(repo, index, cache, branch, j, k - 1);
    }
  }

  /** The planner's own branches always satisfy the policy, so that refusal is never taken. */
  lemma DefaultBranchesAgree(repo: Repo, cache: Cache, branch: string, i: nat)
    requires i < |repo.mirrors| && branch != "" && Trimmed(branch) && Normalize(repo.policy).Some?
    ensures var target := TargetBranch(repo, cache, branch, i);
            target.Some? ==> ValidDefaultBranches(repo.policy, branch, target.value, branch, target.value)
  {
    hide TrimSpace, Normalize;
    var head := MirrorRemoteName(|repo.mirrors|, i);
    TrimmedStays(branch);
    if head in cache.heads {
      TrimSpaceIsTrimmed(cache.heads[head]);
      TrimmedStays(TrimSpace(cache.heads[head]));
    }
  }
}
