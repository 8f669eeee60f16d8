/** Reconciliation plans and their durable, versioned form. */
module PlanArtifact {
  import opened Text

  const LEGACY_VERSION := 1
  const VERSION := 2
  const KIND := "repora.io/reconciliation-plan"
  const PUSH_BRANCH := "PUSH_BRANCH"

  datatype Remote = Remote(provider: string, path: string, name: string, branch: string)

  datatype PlannedAction = PlannedAction(
    kind: string, source: Remote, target: Remote, expectedSource: string, expectedOldTarget: string,
    force: bool, reason: string)

  datatype Plan = Plan(id: string, uid: string, actions: seq<PlannedAction>)

  datatype Ref = Ref(provider: string, path: string, remote: string, branch: string)

  datatype Action = Action(
    kind: string, source: Ref, target: Ref, observed: string, desired: string, force: bool, reason: string)

  datatype Repository = Repository(uid: string, id: string, actions: seq<Action>)

  datatype Artifact = Artifact(version: int, kind: string, repositories: seq<Repository>)

  // ---------------------------------------------------------------------
  // Validation.
  // ---------------------------------------------------------------------

  /** ^[A-Za-z0-9._-]+$ */
  predicate Symbolic(s: string) {
    s != "" && forall i :: 0 <= i < |s| ==> 'A' <= s[i] <= 'Z' || 'a' <= s[i] <= 'z' || IsDigit(s[i]) || s[i] in "._-"
  }

  predicate ValidIdentifier(s: string) {
    Symbolic(TrimSpace(s))
  }

  predicate HexDigits(s: string) {
    forall i :: 0 <= i < |s| ==> IsDigit(s[i]) || 'a' <= s[i] <= 'f' || 'A' <= s[i] <= 'F'
  }

  /** 40 or 64 hexadecimal digits. */
  predicate IsOid(s: string) {
    (|s| == 40 || |s| == 64) && HexDigits(s)
  }

  predicate SafeSegment(part: string) {
    part != "" && part != "." && part != ".." && !ContainsAny(part, "\\:@?# \t\r\n")
  }

  /** A relative path with a namespace, free of unsafe segments. */
  predicate SafePath(path: string) {
    && path != "" && path[0] != '/' && path[|path| - 1] != '/'
    && |Split(path, '/')| >= 2
    && forall i :: 0 <= i < |Split(path, '/')| ==> SafeSegment(Split(path, '/')[i])
  }

  predicate ValidProviderPath(path: string) {
    SafePath(TrimSpace(path))
  }

  predicate SafeBranch(branch: string) {
    && branch != "" && branch[0] != '/' && branch[|branch| - 1] != '/' && branch[|branch| - 1] != '.'
    && !Contains(branch, "..") && !Contains(branch, "//") && !Contains(branch, "@{")
    && !ContainsAny(branch, " ~^:?*[\\")
    && forall i :: 0 <= i < |Split(branch, '/')| ==>
         var segment := Split(branch, '/')[i];
         segment != "" && segment[0] != '.' && !HasSuffix(segment, ".lock")
  }

  predicate ValidBranch(branch: string) {
    SafeBranch(TrimSpace(branch))
  }

  predicate LooksUnsafe(lower: string) {
    || Contains(lower, "://") || Contains(lower, "token=") || Contains(lower, "password=")
    || Contains(lower, "\\") || "/" <= lower || "file:" <= lower || Contains(lower, "@")
  }

  predicate UnsafeReason(value: string) {
    LooksUnsafe(ToLower(TrimSpace(value)))
  }

  predicate SupportedVersion(version: int) {
    version == LEGACY_VERSION || version == VERSION
  }

  predicate ValidRef(version: int, ref: Ref) {
    && ValidIdentifier(ref.provider) && ValidIdentifier(ref.remote)
    && (if version == LEGACY_VERSION then Blank(ref.path) else ValidProviderPath(ref.path))
    && ValidBranch(ref.branch)
  }

  predicate ValidAction(version: int, action: Action) {
    && action.kind == PUSH_BRANCH
    && ValidRef(version, action.source) && ValidRef(version, action.target)
    && IsOid(TrimSpace(action.observed)) && IsOid(TrimSpace(action.desired))
    && !UnsafeReason(action.reason)
  }

  predicate ValidRepository(version: int, repo: Repository) {
    && ValidIdentifier(repo.uid) && ValidIdentifier(repo.id)
    && forall i :: 0 <= i < |repo.actions| ==> ValidAction(version, repo.actions[i])
  }

  predicate ValidArtifact(a: Artifact) {
    && SupportedVersion(a.version) && a.kind == KIND
    && forall i :: 0 <= i < |a.repositories| ==> ValidRepository(a.version, a.repositories[i])
  }

  // ---------------------------------------------------------------------
  // Conversion.
  // ---------------------------------------------------------------------

  function ToRef(version: int, remote: Remote): Ref {
    Ref(remote.provider, if version == VERSION then remote.path else "", remote.name, remote.branch)
  }

  function ToAction(version: int, a: PlannedAction): Action {
    Action(a.kind, ToRef(version, a.source), ToRef(version, a.target), a.expectedOldTarget, a.expectedSource, a.force,
           a.reason)
  }

  function FromRef(ref: Ref): Remote {
    Remote(ref.provider, ref.path, ref.remote, ref.branch)
  }

  function FromAction(a: Action): PlannedAction {
    PlannedAction(a.kind, FromRef(a.source), FromRef(a.target), a.desired, a.observed, a.force, a.reason)
  }

  function ToRepository(version: int, plan: Plan): Repository {
    Repository(plan.uid, plan.id,
               seq(|plan.actions|, i requires 0 <= i < |plan.actions| => ToAction(version, plan.actions[i])))
  }

  function FromRepository(repo: Repository): Plan {
    Plan(repo.id, repo.uid, seq(|repo.actions|, i requires 0 <= i < |repo.actions| => FromAction(repo.actions[i])))
  }

  function FromPlans(version: int, plans: seq<Plan>): Artifact {
    Artifact(version, KIND, seq(|plans|, i requires 0 <= i < |plans| => ToRepository(version, plans[i])))
  }

  /** Validation comes first; only a valid artifact has plans. */
  function Plans(a: Artifact): Option<seq<Plan>> {
    if !ValidArtifact(a) then None
    else Some(seq(|a.repositories|, i requires 0 <= i < |a.repositories| => FromRepository(a.repositories[i])))
  }

  method ArtifactOf(version: int, plans: seq<Plan>) returns (artifact: Artifact)
    ensures artifact == FromPlans(version, plans)
  {
    var repositories := [];
    for i := 0 to |plans|
      invariant repositories == FromPlans(version, plans[..i]).repositories
    {
      var actions := [];
      for j := 0 to |plans[i].actions|
        invariant actions == ToRepository(version, plans[i].(actions := plans[i].actions[..j])).actions
      {
        actions := actions + [ToAction(version, plans[i].actions[j])];
      }
      assert plans[i].actions[..|plans[i].actions|] == plans[i].actions;
      assert FromPlans(version, plans[..i + 1]).repositories
          == FromPlans(version, plans[..i]).repositories + [ToRepository(version, plans[i])];
      repositories := repositories + [Repository(plans[i].uid, plans[i].id, actions)];
    }
    assert plans[..|plans|] == plans;
    artifact := Artifact(version, KIND, repositories);
  }

  lemma RepositoryRoundTrip(plan: Plan)
    ensures FromRepository(ToRepository(VERSION, plan)) == plan
  {
    assert FromRepository(ToRepository(VERSION, plan)).actions == plan.actions;
  }

  /** A version 2 artifact keeps the whole plan; an artifact gives back itself. */
  lemma PlansRoundTrip(plans: seq<Plan>)
    requires ValidArtifact(FromPlans(VERSION, plans))
    ensures Plans(FromPlans(VERSION, plans)) == Some(plans)
  {
    hide ValidArtifact;
    forall i | 0 <= i < |plans| {
      RepositoryRoundTrip(plans[i]);
    }
    assert Plans(FromPlans(VERSION, plans)).value == plans;
  }

  lemma ArtifactRoundTrip(a: Artifact)
    requires ValidArtifact(a) && a.version == VERSION
    ensures FromPlans(VERSION, Plans(a).value) == a
  {
    hide ValidRepository;
    var back := FromPlans(VERSION, Plans(a).value);
    forall i | 0 <= i < |a.repositories| ensures back.repositories[i] == a.repositories[i] {
      assert back.repositories[i].actions == a.repositories[i].actions;
    }
  }
}
