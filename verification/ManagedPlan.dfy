/** The reviewed plan of managed README changes, and how it is built. */
module ManagedPlan {
  import opened Text
  import opened ManagedText
  import opened CommitGraph
  import PlanArtifact
  import GitTree
  import Journal = ExecutionJournal
  import Review = ReviewDiff
  import opened RenderReadme

  const PLAN_KIND := "repora.io/managed-artifact-plan"
  const PLAN_VERSION := 1
  const WRITE_README := "WRITE_README"
  const README_PATH := "README.md"
  const REGULAR := "100644"

  /** A content digest. */
  type Digest = Content -> string

  datatype Observed = Observed(present: Option<bool>, mode: string, sha256: string)

  datatype Desired = Desired(mode: string, sha256: string, content: Option<Content>)

  datatype Action = Action(
    kind: string, path: string, observed: Observed, desired: Desired, templateSha256: string, diff: string)

  datatype Target = Target(provider: string, path: string, branch: string)

  datatype RepositoryPlan = RepositoryPlan(uid: string, id: string, target: Target, baseOid: Oid, actions: seq<Action>)

  datatype Plan = Plan(kind: string, version: int, repositories: seq<RepositoryPlan>)

  // ---------------------------------------------------------------------
  // Validation.
  // ---------------------------------------------------------------------

  predicate PlanIdentifier(value: string) {
    value == TrimSpace(value) && PlanArtifact.Symbolic(value)
  }

  predicate DisplayText(value: string) {
    forall i :: 0 <= i < |value| ==> !IsControl(value[i]) && !UnsafeDisplay(value[i])
  }

  predicate PlanProviderPath(value: string) {
    DisplayText(value) && value == TrimSpace(value) && PlanArtifact.SafePath(value)
  }

  predicate PlanBranch(value: string) {
    DisplayText(value) && value == TrimSpace(value) && PlanArtifact.SafeBranch(value) && !ContainsAny(value, "\t\r\n")
  }

  predicate ValidTarget(t: Target) {
    PlanIdentifier(t.provider) && PlanProviderPath(t.path) && PlanBranch(t.branch)
  }

  predicate ValidObserved(o: Observed) {
    match o.present
    case None => false
    case Some(true) => GitTree.BlobMode(o.mode) && Journal.IsDigest(o.sha256)
    case Some(false) => o.mode == "" && o.sha256 == ""
  }

  predicate ValidDesired(sha: Digest, o: Observed, d: Desired) {
    && GitTree.BlobMode(d.mode) && d.content.Some?
    && Size(d.content.value) <= MAX_TEXT_BYTES && ManagedContent(d.content.value, false)
    && Journal.IsDigest(d.sha256) && sha(d.content.value) == d.sha256
    && d.mode == if o.present == Some(true) then o.mode else REGULAR
  }

  predicate ValidAction(sha: Digest, a: Action) {
    && a.kind == WRITE_README && a.path == README_PATH
    && ValidObserved(a.observed) && ValidDesired(sha, a.observed, a.desired)
    && Journal.IsDigest(a.templateSha256) && Review.ValidReviewDiff(a.diff)
    && !(a.observed.present == Some(true) && a.observed.mode == a.desired.mode && a.observed.sha256 == a.desired.sha256)
  }

  predicate ValidRepository(sha: Digest, r: RepositoryPlan) {
    && PlanIdentifier(r.uid) && PlanIdentifier(r.id) && ValidTarget(r.target) && PlanArtifact.IsOid(r.baseOid)
    && |r.actions| == 1 && ValidAction(sha, r.actions[0])
  }

  function TargetKey(t: Target): string {
    t.provider + ":" + t.path + "#" + t.branch
  }

  predicate Apart(a: RepositoryPlan, b: RepositoryPlan) {
    a.uid != b.uid && a.id != b.id && TargetKey(a.target) != TargetKey(b.target)
  }

  predicate AllApart(repositories: seq<RepositoryPlan>) {
    forall i, j :: 0 <= i < j < |repositories| ==> Apart(repositories[i], repositories[j])
  }

  predicate ValidPlan(sha: Digest, p: Plan) {
    && p.kind == PLAN_KIND && p.version == PLAN_VERSION
    && (forall i :: 0 <= i < |p.repositories| ==> ValidRepository(sha, p.repositories[i]))
    && AllApart(p.repositories)
  }

  method Validate(sha: Digest, p: Plan) returns (ok: bool)
    ensures ok <==> ValidPlan(sha, p)
  {
    hide ValidRepository, TargetKey;
    if p.kind != PLAN_KIND || p.version != PLAN_VERSION {
      return false;
    }
    var uids, ids, targets: set<string> := {}, {}, {};
    for i := 0 to |p.repositories|
      invariant forall k :: 0 <= k < i ==> ValidRepository(sha, p.repositories[k])
      invariant AllApart(p.repositories[..i])
      invariant uids == set k | 0 <= k < i :: p.repositories[k].uid
      invariant ids == set k | 0 <= k < i :: p.repositories[k].id
      invariant targets == set k | 0 <= k < i :: TargetKey(p.repositories[k].target)
    {
      var repo := p.repositories[i];
      if !ValidRepository(sha, repo) {
        return false;
      }
      if repo.uid in uids || repo.id in ids || TargetKey(repo.target) in targets {
        return false;
      }
      uids, ids, targets := uids + {repo.uid}, ids + {repo.id}, targets + {TargetKey(repo.target)};
    }
    assert p.repositories[..|p.repositories|] == p.repositories;
    return true;
  }

  /** What a plan accepts, a record accepts too. */
  lemma PlanTextIsRecordText(sha: Digest, r: RepositoryPlan)
    requires ValidRepository(sha, r)
    ensures PlanArtifact.ValidIdentifier(r.uid) && PlanArtifact.ValidIdentifier(r.id)
    ensures PlanArtifact.ValidIdentifier(r.target.provider)
    ensures PlanArtifact.ValidProviderPath(r.target.path) && PlanArtifact.ValidBranch(r.target.branch)
  {
    hide PlanArtifact.Symbolic, PlanArtifact.SafePath, PlanArtifact.SafeBranch, ValidAction, TrimSpace;
  }

  // ---------------------------------------------------------------------
  // Configuration and observation.
  // ---------------------------------------------------------------------

  datatype ReadmeConfig = ReadmeConfig(template: string, values: map<string, string>)

  datatype Repo = Repo(id: string, uid: string, provider: string, path: string, url: string,
                       readme: Option<ReadmeConfig>)

  datatype Observation = Observation(branch: string, baseOid: Oid, present: bool, mode: string, content: Content)

  /** Digests, template files, and what an observer says of each repository. */
  datatype Source = Source(sha: Digest, template: string -> Option<Content>, observe: Repo -> Option<Observation>)

  function DurableId(r: Repo): string {
    if r.uid != "" then r.uid else r.id
  }

  predicate PlannerReady(r: Repo) {
    PlanIdentifier(r.id) && PlanIdentifier(DurableId(r)) && PlanIdentifier(r.provider) && PlanProviderPath(r.path)
      && r.url == ""
  }

  function CanonicalKey(r: Repo): string {
    r.provider + ":" + r.path
  }

  predicate ApartRepos(a: Repo, b: Repo) {
    DurableId(a) != DurableId(b) && a.id != b.id && CanonicalKey(a) != CanonicalKey(b)
  }

  predicate PlannerRepositories(repos: seq<Repo>) {
    && (forall i :: 0 <= i < |repos| ==> PlannerReady(repos[i]))
    && (forall i, j :: 0 <= i < j < |repos| ==> ApartRepos(repos[i], repos[j]))
  }

  method ValidatePlannerRepositories(repos: seq<Repo>) returns (ok: bool)
    ensures ok <==> PlannerRepositories(repos)
  {
    hide PlannerReady, DurableId, CanonicalKey;
    var uids, ids, keys: set<string> := {}, {}, {};
    for i := 0 to |repos|
      invariant forall k :: 0 <= k < i ==> PlannerReady(repos[k])
      invariant forall j, k :: 0 <= j < k < i ==> ApartRepos(repos[j], repos[k])
      invariant uids == set k | 0 <= k < i :: DurableId(repos[k])
      invariant ids == set k | 0 <= k < i :: repos[k].id
      invariant keys == set k | 0 <= k < i :: CanonicalKey(repos[k])
    {
      if !PlannerReady(repos[i]) || DurableId(repos[i]) in uids || repos[i].id in ids
        || CanonicalKey(repos[i]) in keys {
        return false;
      }
      uids, ids, keys := uids + {DurableId(repos[i])}, ids + {repos[i].id}, keys + {CanonicalKey(repos[i])};
    }
    return true;
  }

  predicate ValidObservation(o: Observation) {
    && PlanBranch(o.branch) && PlanArtifact.IsOid(o.baseOid)
    && (if o.present
        then GitTree.BlobMode(o.mode) && Size(o.content) <= MAX_TEXT_BYTES && ManagedContent(o.content, true)
        else o.mode == "" && Size(o.content) == 0)
  }

  // ---------------------------------------------------------------------
  // What one configured repository contributes.
  // ---------------------------------------------------------------------

  function DataOf(r: Repo): RenderData
    requires r.readme.Some?
  {
    RenderData(r.id, DurableId(r), r.provider, r.path, r.readme.value.values)
  }

  /** `text` is the README that template and configuration ask for. */
  ghost predicate Asks(s: Source, r: Repo, template: Content, text: string) {
    && r.readme.Some? && s.template(r.readme.value.template) == Some(template)
    && Renderable(template, DataOf(r)) && Renders(Normalize(template.text), DataOf(r), text)
  }

  predicate UpToDate(o: Observation, text: string) {
    o.present && o.content == Utf8(text)
  }

  function Expected(s: Source, o: Observation): Observed {
    if o.present then Observed(Some(true), o.mode, s.sha(o.content)) else Observed(Some(false), "", "")
  }

  function DiffOf(o: Observation, text: string): string
    requires o.content.Utf8?
  {
    Review.Render(Review.ReviewHunk(Review.ReviewLines(o.present, o.content.text), Review.ReviewLines(true, text)))
  }

  function ChangeOf(s: Source, r: Repo, o: Observation, template: Content, text: string): RepositoryPlan
    requires o.content.Utf8?
  {
    RepositoryPlan(DurableId(r), r.id, Target(r.provider, r.path, o.branch), o.baseOid,
                   [Action(WRITE_README, README_PATH, Expected(s, o),
                           Desired(if o.present then o.mode else REGULAR, s.sha(Utf8(text)), Some(Utf8(text))),
                           s.sha(template), DiffOf(o, text))])
  }

  /**
   * A repository contributes no change when it is up to date, and otherwise the change from what is there to what is
   * asked.
   */
  ghost predicate Contributes(s: Source, r: Repo, change: Option<RepositoryPlan>) {
    exists template, text :: ContributesAs(s, r, template, text, change)
  }

  ghost predicate ContributesAs(s: Source, r: Repo, template: Content, text: string, change: Option<RepositoryPlan>) {
    && Asks(s, r, template, text)
    && s.observe(r).Some? && ValidObservation(s.observe(r).value) && s.observe(r).value.content.Utf8?
    && var o := s.observe(r).value;
       change == if UpToDate(o, text) then None else Some(ChangeOf(s, r, o, template, text))
  }

  datatype BuildError =
    | InvalidRepositories
    | NoTemplate(repo: string)
    | RenderFailed(repo: string)
    | ObserveFailed(repo: string)
    | InvalidObservation(repo: string)
    | DiffFailed(repo: string)
    | InvalidPlan

  method BuildChange(s: Source, r: Repo) returns (change: Result<Option<RepositoryPlan>, BuildError>)
    requires r.readme.Some?
    ensures change.Ok? ==> Contributes(s, r, change.value)
    ensures change.Err? ==>
              !change.error.DiffFailed? && !change.error.InvalidRepositories? && !change.error.InvalidPlan?
    ensures change.Err? ==> forall c :: !Contributes(s, r, c)
  {
    hide Renders, Renderable, Normalize, Managed, Review.Render, Review.ReviewHunk, Review.ReviewLines,
         Review.ValidReviewDiff, Review.Patch, Size, PlanBranch, PlanArtifact.IsOid;
    var template := s.template(r.readme.value.template);
    if template.None? {
      return Err(NoTemplate(r.id));
    }
    var desired := RenderREADME(template.value, DataOf(r));
    if desired.Err? {
      return Err(RenderFailed(r.id));
    }
    var observed := s.observe(r);
    if observed.None? {
      return Err(ObserveFailed(r.id));
    }
    if !ValidObservation(observed.value) {
      return Err(InvalidObservation(r.id));
    }
    var o := observed.value;
    EmptyIsText(o.content);
    if o.present && o.content == Utf8(desired.value) {
      assert ContributesAs(s, r, template.value, desired.value, None);
      return Ok(None);
    }
    SizeOfText(desired.value);
    var diff := Review.ReviewDiff(o.present, o.content, Utf8(desired.value));
    if diff.Err? {
      return Err(DiffFailed(r.id));
    }
    var change' := RepositoryPlan(DurableId(r), r.id, Target(r.provider, r.path, o.branch), o.baseOid,
                                  [Action(WRITE_README, README_PATH, Expected(s, o),
                                          Desired(if o.present then o.mode
                                                  else REGULAR, s.sha(Utf8(desired.value)), Some(Utf8(desired.value))),
                                          s.sha(template.value), diff.value)]);
    assert ContributesAs(s, r, template.value, desired.value, Some(change'));
    return Ok(Some(change'));
  }

  lemma EmptyIsText(c: Content)
    ensures Size(c) == 0 ==> c.Utf8?
  {
  }

  lemma SizeOfText(text: string)
    ensures Size(Utf8(text)) == ByteLength(text)
  {
  }
}
