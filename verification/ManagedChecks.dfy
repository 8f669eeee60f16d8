/** What the checks of README plans, candidates and their records look at, and what they say, field by field. */
module ManagedChecks {
  import opened Text
  import opened Permutations
  import opened ManagedText
  import opened CommitGraph
  import Artifact = PlanArtifact
  import GitTree
  import opened ExecutionJournal
  import Review = ReviewDiff
  import opened RenderReadme
  import opened ManagedPlan
  import opened ManagedBuild
  import opened ManagedCommit
  import opened ManagedPush
  import opened ManagedJournal

  // ---------------------------------------------------------------------
  // Text.
  // ---------------------------------------------------------------------

  /** Some characters that are not seen, or change the direction of what is. */
  const HIDDEN := "\U{AD}\U{61C}\U{200B}\U{200E}\U{200F}\U{202A}\U{202E}\U{2066}\U{2069}\U{FEFF}"

  /** Safe text holds no control character but line feed and tab, no hidden or direction mark, no other line break. */
  lemma {:induction false} SafeText(s: string, allowCR: bool)
    ensures forall c :: c in s && (c < ' ' || '\U{7F}' <= c < '\U{A0}') && Managed(s, allowCR) ==>
              c == '\n' || c == '\t' || (c == '\r' && allowCR)
    ensures forall c :: c in s && c in HIDDEN ==> !Managed(s, allowCR)
    ensures '\U{2028}' in s || '\U{2029}' in s ==> !Managed(s, allowCR)
    ensures (forall c :: c in s ==> ' ' <= c <= '~' || c == '\n' || c == '\t' || (c == '\r' && allowCR)) ==>
              Managed(s, allowCR)
  {
    assert forall i :: 0 <= i < |s| ==> s[i] in s;
  }

  /** Sizes are in bytes of UTF-8. */
  lemma {:induction false} BytesOfChars()
    ensures ByteLength("a") == 1 && ByteLength("\U{E9}") == 2 && ByteLength("\U{20AC}") == 3
    ensures ByteLength("\U{1F600}") == 4
  {
    ByteLengthOne('a');
    ByteLengthOne('\U{E9}');
    ByteLengthOne('\U{20AC}');
    ByteLengthOne('\U{1F600}');
  }

  /** Plan text carries no surrounding space, and paths and branches no control or hidden character. */
  lemma {:induction false} PlanTexts(s: string)
    ensures PlanIdentifier(s) ==> TrimSpace(s) == s && Artifact.ValidIdentifier(s)
    ensures PlanProviderPath(s) ==> TrimSpace(s) == s && Artifact.SafePath(s)
    ensures PlanBranch(s) ==> TrimSpace(s) == s && Artifact.SafeBranch(s)
    ensures PlanProviderPath(s) || PlanBranch(s) ==>
              forall c :: c in s ==> c >= ' ' && c !in "\U{7F}\U{200B}\U{202E}\U{2028}\U{FEFF}"
    ensures TrimSpace(s) == s && (forall c :: c in s ==> ' ' <= c <= '~') ==>
              && (PlanIdentifier(s) <==> Artifact.ValidIdentifier(s))
              && (PlanProviderPath(s) <==> Artifact.SafePath(s))
              && (PlanBranch(s) <==> Artifact.SafeBranch(s))
  {
    hide TrimSpace, Artifact.Symbolic, Artifact.SafePath, Artifact.SafeBranch;
    assert forall i :: 0 <= i < |s| ==> s[i] in s;
  }

  // ---------------------------------------------------------------------
  // Plans.
  // ---------------------------------------------------------------------

  lemma {:induction false} TargetFields(t: Target)
    requires ValidTarget(t)
    ensures forall x :: ValidTarget(t.(provider := x)) <==> PlanIdentifier(x)
    ensures forall x :: ValidTarget(t.(path := x)) <==> PlanProviderPath(x)
    ensures forall x :: ValidTarget(t.(branch := x)) <==> PlanBranch(x)
  {
    hide PlanIdentifier, PlanProviderPath, PlanBranch;
  }

  /** A README that was there has a mode and a digest; one that was not has neither. */
  lemma {:induction false} ObservedStates(mode: string, sha: string)
    ensures ValidObserved(Observed(Some(true), mode, sha)) <==> mode in ["100644", "100755"] && IsDigest(sha)
    ensures ValidObserved(Observed(Some(false), mode, sha)) <==> mode == "" && sha == ""
    ensures !ValidObserved(Observed(None, mode, sha))
  {
    hide IsDigest;
  }

  /** An action writes README.md, over what was observed, with text that is safe and has the digest it says. */
  lemma {:induction false} ActionFields(sha: ManagedPlan.Digest, a: Action)
    requires ValidAction(sha, a)
    ensures forall x :: ValidAction(sha, a.(kind := x)) <==> x == "WRITE_README"
    ensures forall x :: ValidAction(sha, a.(path := x)) <==> x == "README.md"
    ensures forall x :: ValidAction(sha, a.(templateSha256 := x)) <==> IsDigest(x)
    ensures forall x :: ValidAction(sha, a.(diff := x)) <==> Review.ValidReviewDiff(x)
    ensures forall x :: !ValidObserved(x) ==> !ValidAction(sha, a.(observed := x))
    ensures !ValidAction(sha, a.(observed := Observed(Some(true), a.desired.mode, a.desired.sha256)))
    ensures a.desired.mode == if a.observed.present == Some(true) then a.observed.mode else "100644"
    ensures forall x :: x != a.desired.mode ==> !ValidAction(sha, a.(desired := a.desired.(mode := x)))
    ensures forall x :: x != a.desired.sha256 ==> !ValidAction(sha, a.(desired := a.desired.(sha256 := x)))
    ensures forall x :: ValidAction(sha, a.(desired := a.desired.(content := x))) <==>
              x.Some? && x.value.Utf8? && Managed(x.value.text, false) && Size(x.value) <= 1048576
              && sha(x.value) == a.desired.sha256
    ensures GitTree.BlobMode(a.desired.mode) && IsDigest(a.desired.sha256)
  {
    hide IsDigest, Review.ValidReviewDiff, Managed, Size;
  }

  /** A repository names itself, its target and its base, and has exactly one valid action. */
  lemma {:induction false} RepositoryFields(sha: ManagedPlan.Digest, r: RepositoryPlan)
    requires ManagedPlan.ValidRepository(sha, r)
    ensures forall x :: ManagedPlan.ValidRepository(sha, r.(uid := x)) <==> PlanIdentifier(x)
    ensures forall x :: ManagedPlan.ValidRepository(sha, r.(id := x)) <==> PlanIdentifier(x)
    ensures forall x :: ManagedPlan.ValidRepository(sha, r.(target := x)) <==> ValidTarget(x)
    ensures forall x :: ManagedPlan.ValidRepository(sha, r.(baseOid := x)) <==> Artifact.IsOid(x)
    ensures forall x :: ManagedPlan.ValidRepository(sha, r.(actions := x)) <==>
              |x| == 1 && ManagedPlan.ValidAction(sha, x[0])
  {
    hide PlanIdentifier, ValidTarget, Artifact.IsOid, ManagedPlan.ValidAction;
  }

  function With(p: Plan, i: nat, r: RepositoryPlan): Plan
    requires i < |p.repositories|
  {
    p.(repositories := p.repositories[i := r])
  }

  /** No two repositories of a plan share a durable id, an id or a target; kind and version are the one there is. */
  lemma {:induction false} PlanFields(sha: ManagedPlan.Digest, p: Plan, i: nat, j: nat)
    requires ValidPlan(sha, p) && i < j < |p.repositories|
    ensures forall x :: ValidPlan(sha, p.(kind := x)) <==> x == "repora.io/managed-artifact-plan"
    ensures forall x :: ValidPlan(sha, p.(version := x)) <==> x == 1
    ensures var one, two := p.repositories[i], p.repositories[j];
            && one.uid != two.uid && one.id != two.id && one.target != two.target
            && !ValidPlan(sha, With(p, i, one.(uid := two.uid))) && !ValidPlan(sha, With(p, i, one.(id := two.id)))
            && !ValidPlan(sha, With(p, i, one.(target := two.target)))
            && forall r :: !ManagedPlan.ValidRepository(sha, r) ==> !ValidPlan(sha, With(p, i, r))
  {
    hide ManagedPlan.ValidRepository, TargetKey;
    var one, two := p.repositories[i], p.repositories[j];
    assert Apart(one, two);
    NotApart(sha, p, i, j, one.(uid := two.uid));
    NotApart(sha, p, i, j, one.(id := two.id));
    NotApart(sha, p, i, j, one.(target := two.target));
    forall r | !ManagedPlan.ValidRepository(sha, r) ensures !ValidPlan(sha, With(p, i, r)) {
      NotApart(sha, p, i, j, r);
    }
  }

  lemma {:induction false} NotApart(sha: ManagedPlan.Digest, p: Plan, i: nat, j: nat, r: RepositoryPlan)
    requires i < j < |p.repositories| && (!ManagedPlan.ValidRepository(sha, r) || !Apart(r, p.repositories[j]))
    ensures !ValidPlan(sha, With(p, i, r))
  {
    hide ManagedPlan.ValidRepository, Apart, ValidPlan;
    PartsOfPlan(sha, With(p, i, r), i, j);
  }

  lemma {:induction false} PartsOfPlan(sha: ManagedPlan.Digest, p: Plan, i: nat, j: nat)
    requires i < j < |p.repositories|
    ensures ValidPlan(sha, p) ==>
              ManagedPlan.ValidRepository(sha, p.repositories[i]) && Apart(p.repositories[i], p.repositories[j])
  {
    hide ManagedPlan.ValidRepository, Apart;
  }

  // ---------------------------------------------------------------------
  // Building.
  // ---------------------------------------------------------------------

  /** A managed repository has plain identifiers, a plain canonical path, and no transport URL of its own. */
  lemma {:induction false} ReadyFields(r: Repo, x: string)
    requires PlannerReady(r)
    ensures PlannerReady(r.(id := x)) <==> PlanIdentifier(x)
    ensures PlannerReady(r.(uid := x)) <==> x == "" || PlanIdentifier(x)
    ensures DurableId(r.(uid := x)) == if x == "" then r.id else x
    ensures PlannerReady(r.(provider := x)) <==> PlanIdentifier(x)
    ensures PlannerReady(r.(path := x)) <==> PlanProviderPath(x)
    ensures PlannerReady(r.(url := x)) <==> x == ""
  {
    hide PlanIdentifier, PlanProviderPath;
  }

  /** Managed repositories differ in durable id, id and canonical repository. */
  lemma {:induction false} ReadyTogether(repos: seq<Repo>, i: nat, j: nat)
    requires PlannerRepositories(repos) && i < j < |repos|
    ensures DurableId(repos[i]) != DurableId(repos[j]) && repos[i].id != repos[j].id
    ensures repos[i].provider != repos[j].provider || repos[i].path != repos[j].path
    ensures PlannerReady(repos[i]) && PlannerReady(repos[j])
  {
    hide PlannerReady, DurableId;
    assert ApartRepos(repos[i], repos[j]);
  }

  /** An observation names branch and base, and either a file with its mode and safe text or nothing at all. */
  lemma {:induction false} ObservationFields(o: Observation)
    requires ValidObservation(o)
    ensures forall x :: ValidObservation(o.(branch := x)) <==> PlanBranch(x)
    ensures forall x :: ValidObservation(o.(baseOid := x)) <==> Artifact.IsOid(x)
    ensures o.present ==>
              && (forall x :: ValidObservation(o.(mode := x)) <==> x in ["100644", "100755"])
              && (forall x :: ValidObservation(o.(content := x)) <==>
                    x.Utf8? && Managed(x.text, true) && Size(x) <= 1048576)
    ensures !o.present ==>
              && (forall x :: ValidObservation(o.(mode := x)) <==> x == "")
              && (forall x :: ValidObservation(o.(content := x)) <==> Size(x) == 0)
  {
    hide PlanBranch, Artifact.IsOid, Managed, Size;
  }

  /**
   * A change goes from exactly what was observed to exactly what is asked: it names the repository, its branch and
   * base, the README's old and new state, the template, and a diff that leads from one text to the other.
   */
  lemma {:induction false} ChangeSays(s: Source, r: Repo, change: RepositoryPlan)
    requires Contributes(s, r, Some(change)) && WellFormedDigests(s.sha)
    ensures exists template, text ::
              && s.template(r.readme.value.template) == Some(template)
              && Renders(Normalize(template.text), DataOf(r), text)
              && ChangesTo(s.sha, change, r, s.observe(r).value, template, text)
  {
    hide ValidObservation, Renderable, Renders, Normalize, DiffOf;
    var template, text :| ContributesAs(s, r, template, text, Some(change));
    assert ChangesTo(s.sha, change, r, s.observe(r).value, template, text);
  }

  /** The built-in tokens of a repository stand for its id, its durable id, and its canonical provider and path. */
  lemma {:induction false} TokensSay(r: Repo)
    requires r.readme.Some?
    ensures r.id != "" && '\r' !in r.id ==> RenderReadme.Lookup(DataOf(r), "repo.id") == Some(r.id)
    ensures r.uid != "" && '\r' !in r.uid ==> RenderReadme.Lookup(DataOf(r), "repo.uid") == Some(r.uid)
    ensures r.provider != "" && '\r' !in r.provider ==>
              RenderReadme.Lookup(DataOf(r), "canonical.provider") == Some(r.provider)
    ensures r.path != "" && '\r' !in r.path ==> RenderReadme.Lookup(DataOf(r), "canonical.path") == Some(r.path)
    ensures forall key :: key in r.readme.value.values && '\r' !in r.readme.value.values[key] ==>
              RenderReadme.Lookup(DataOf(r), "value." + key) == Some(r.readme.value.values[key])
  {
    hide RenderReadme.Lookup, Normalize;
    LookupBuiltins(DataOf(r));
    EachBreakIsKept(r.id, "");
    EachBreakIsKept(r.uid, "");
    EachBreakIsKept(r.provider, "");
    EachBreakIsKept(r.path, "");
    forall key | key in r.readme.value.values && '\r' !in r.readme.value.values[key]
      ensures RenderReadme.Lookup(DataOf(r), "value." + key) == Some(r.readme.value.values[key]) {
      LookupValue(DataOf(r), key);
      EachBreakIsKept(r.readme.value.values[key], "");
    }
  }

  /** The changes of a built plan are in text order of durable ids. */
  lemma {:induction false} PlanIsOrdered(s: Source, spec: seq<Repo>, p: Plan, i: nat, j: nat)
    requires Built(s, spec, p) && i < j < |p.repositories|
    ensures CompareStrings(p.repositories[i].uid, p.repositories[j].uid) < 0
  {
    hide Contributes, Collects, ValidPlan, PlannerReady, ApartRepos, Ordered;
    var sorted :| multiset(sorted) == multiset(WithReadme(spec)) && Ordered(sorted)
                  && Collects(s, sorted, p.repositories);
    SameMembers(sorted, WithReadme(spec));
    assert p.repositories != [];
    if WithReadme(spec) == [] {
      assert sorted == [];
      NothingCollected(s, p.repositories);
    }
    assert forall k :: 0 <= k < |sorted| ==> PlannerReady(sorted[k]) by {
      PlannerRepositoriesPermuted(WithReadme(spec), sorted);
    }
    CollectedInOrder(s, sorted, p.repositories, i, j);
  }

  lemma {:induction false} NothingCollected(s: Source, changes: seq<RepositoryPlan>)
    requires Collects(s, [], changes)
    ensures changes == []
  {
  }

  lemma {:induction false} CollectedInOrder(s: Source, repos: seq<Repo>, changes: seq<RepositoryPlan>, i: nat, j: nat)
    requires Collects(s, repos, changes) && Ordered(repos) && i < j < |changes|
    requires forall k :: 0 <= k < |repos| ==> PlannerReady(repos[k])
    ensures CompareStrings(changes[i].uid, changes[j].uid) < 0
    decreases |repos|
  {
    hide Contributes, PlannerReady, DurableId;
    var front, last := repos[..|repos| - 1], repos[|repos| - 1];
    if Contributes(s, last, None) && Collects(s, front, changes) {
      CollectedInOrder(s, front, changes, i, j);
    } else if j < |changes| - 1 {
      CollectedInOrder(s, front, changes[..|changes| - 1], i, j);
    } else {
      var k := ChangeHasRepo(s, front, changes[..|changes| - 1], i);
      ChangeNamesRepo(s, front[k], changes[i]);
      ChangeNamesRepo(s, last, changes[j]);
      assert Earlier(repos[k], last);
    }
  }

  predicate ChangesTo(sha: ManagedPlan.Digest, change: RepositoryPlan, r: Repo, o: Observation, template: Content,
                      text: string) {
    && o.content.Utf8?
    && change.uid == (if r.uid == "" then r.id else r.uid) && change.id == r.id && change.baseOid == o.baseOid
    && change.target.provider == r.provider && change.target.path == r.path && change.target.branch == o.branch
    && |change.actions| == 1
    && var a := change.actions[0];
       && a.kind == "WRITE_README" && a.path == "README.md" && a.templateSha256 == sha(template)
       && a.observed.present == Some(o.present)
       && a.observed.mode == (if o.present then o.mode else "")
       && a.observed.sha256 == (if o.present then sha(o.content) else "")
       && a.desired.mode == (if o.present then o.mode else "100644")
       && a.desired.content == Some(Utf8(text)) && a.desired.sha256 == sha(Utf8(text))
       && !(o.present && o.content == Utf8(text))
       && a.diff == DiffOf(o, text)
  }

  // ---------------------------------------------------------------------
  // Candidates.
  // ---------------------------------------------------------------------

  /** A candidate is trusted only under the planned identity and base, with object ids for its tree and commit. */
  lemma {:induction false} CandidateFields(git: Plumbing, o: Objects, planned: RepositoryPlan, c: PreparedCommit)
    requires |planned.actions| == 1 && planned.actions[0].desired.content.Some? && Trustworthy(git, o, planned, c)
    ensures c.uid == planned.uid && c.id == planned.id && c.baseOid == planned.baseOid
    ensures Artifact.IsOid(c.treeOid) && Artifact.IsOid(c.commitOid)
    ensures c.commitOid in o.commits && o.commits[c.commitOid].parent == planned.baseOid
    ensures o.commits[c.commitOid].tree == c.treeOid
    ensures forall x :: Trustworthy(git, o, planned, c.(uid := x)) <==> x == planned.uid
    ensures forall x :: Trustworthy(git, o, planned, c.(id := x)) <==> x == planned.id
    ensures forall x :: Trustworthy(git, o, planned, c.(treeOid := x)) <==> x == c.treeOid
  {
    hide Artifact.IsOid, Verifies;
  }

  // ---------------------------------------------------------------------
  // Records.
  // ---------------------------------------------------------------------

  /** A recording repeats the plan and says in its phase what may be said there. */
  lemma {:induction false} RecordingFields(phase: Phase, r: Recording)
    requires ValidPlanned(r) && ValidOutcome(phase, r)
    ensures forall x :: ValidPlanned(r.(uid := x)) <==> Artifact.ValidIdentifier(x)
    ensures forall x :: ValidPlanned(r.(id := x)) <==> Artifact.ValidIdentifier(x)
    ensures forall x :: ValidPlanned(r.(provider := x)) <==> Artifact.ValidIdentifier(x)
    ensures forall x :: ValidPlanned(r.(path := x)) <==> Artifact.ValidProviderPath(x)
    ensures forall x :: ValidPlanned(r.(branch := x)) <==> Artifact.ValidBranch(x)
    ensures forall x :: ValidPlanned(r.(baseOid := x)) <==> Artifact.IsOid(x)
    ensures forall x :: ValidPlanned(r.(desiredSha256 := x)) <==> IsDigest(x)
    ensures forall x :: ValidPlanned(r.(desiredMode := x)) <==> x in ["100644", "100755"]
    ensures phase == INTENT ==> r.outcome == PLANNED && r.preparedCommit == "" && !r.pushed
    ensures phase != INTENT ==>
              && r.outcome in {APPLIED, FAILED, SKIPPED, STALE} && (r.pushed <==> r.outcome == APPLIED)
              && (forall x :: ValidOutcome(phase, r.(preparedCommit := x)) <==>
                    if r.pushed then Artifact.IsOid(x) else x == "" || Artifact.IsOid(x))
  {
    hide Artifact.ValidIdentifier, Artifact.ValidProviderPath, Artifact.ValidBranch, Artifact.IsOid, IsDigest;
    NothingIsNoOid();
  }

  lemma {:induction false} NothingIsNoOid()
    ensures !Artifact.IsOid("")
  {
  }

  /** A record has the one kind and version, an execution, an apply of a plan, and an outcome its entries bear out. */
  lemma {:induction false} ManagedRecordFields(r: ManagedRecord)
    requires ValidManagedRecord(r)
    ensures forall x :: ValidManagedRecord(r.(version := x)) <==> x == 1
    ensures forall x :: ValidManagedRecord(r.(kind := x)) <==> x == "repora.io/managed-artifact-execution-record"
    ensures forall x :: ValidManagedRecord(r.(executionId := x)) <==> Artifact.ValidIdentifier(x)
    ensures forall x :: ValidManagedRecord(r.(mode := x)) <==> x == APPLY
    ensures forall x :: ValidManagedRecord(r.(plan := r.plan.(kind := x))) <==> x == "repora.io/managed-artifact-plan"
    ensures forall x :: ValidManagedRecord(r.(plan := r.plan.(version := x))) <==> x == 1
    ensures forall x :: ValidManagedRecord(r.(plan := r.plan.(sha256 := x))) <==> IsDigest(x)
    ensures !ValidManagedRecord(r.(phase := NO_PHASE)) && !ValidManagedRecord(r.(repositories := []))
    ensures r.phase == INTENT ==>
              && (forall x :: ValidManagedRecord(r.(outcome := x)) <==> x == PLANNED)
              && (forall x :: ValidManagedRecord(r.(stage := x)) <==> x == NoStage)
    ensures r.phase == RESULT ==>
              && (forall x :: ValidManagedRecord(r.(outcome := x)) <==>
                    || (x == APPLIED && r.stage == NoStage && AllApplied(r))
                    || (x == STALE && forall k :: 0 <= k < |r.repositories| ==> r.repositories[k].outcome == STALE)
                    || (x == FAILED && !AllApplied(r)))
              && (r.outcome == APPLIED ==> forall x :: ValidManagedRecord(r.(stage := x)) <==> x == NoStage)
    ensures forall i, j :: 0 <= i < j < |r.repositories| ==> r.repositories[i].uid != r.repositories[j].uid
    ensures forall i :: 0 <= i < |r.repositories| ==>
              ValidPlanned(r.repositories[i]) && ValidOutcome(r.phase, r.repositories[i])
  {
    hide ValidPlanned, ValidOutcome, IsDigest, Artifact.ValidIdentifier;
  }

  predicate AllApplied(r: ManagedRecord) {
    forall k :: 0 <= k < |r.repositories| ==> r.repositories[k].outcome == APPLIED
  }

  /** INTENT and RESULT repeat target, base and desired state of the plan. */
  lemma {:induction false} RecordingSays(r: RepositoryPlan)
    requires |r.actions| == 1
    ensures var planned, desired := Planned(r), r.actions[0].desired;
            && planned.uid == r.uid && planned.id == r.id && planned.baseOid == r.baseOid
            && planned.provider == r.target.provider && planned.path == r.target.path
            && planned.branch == r.target.branch
            && planned.desiredMode == desired.mode && planned.desiredSha256 == desired.sha256
            && planned.preparedCommit == "" && !planned.pushed && planned.outcome == PLANNED
    ensures var report := Projected(Planned(r));
            && report.uid == r.uid && report.id == r.id && report.branch == r.target.branch
            && report.baseOid == r.baseOid && report.commitOid == "" && !report.pushed && report.outcome == PLANNED
    ensures forall recording: Recording ::
              && Projected(recording).commitOid == recording.preparedCommit
              && Projected(recording).pushed == recording.pushed && Projected(recording).outcome == recording.outcome
  {
  }

  /** How a run is recorded as a whole: applied without an error, stale, or failed where it failed. */
  lemma {:induction false} RunSays(digest: PlanDigest, executionId: string, p: Plan, prepared: seq<PreparedCommit>,
                                   pushes: seq<PushResult>, error: Option<ApplyError>, r: ManagedRecord)
    requires ResultFits(digest, executionId, p, prepared, pushes, error, r)
    ensures r.executionId == executionId && r.phase == RESULT && r.mode == APPLY && r.plan.sha256 == digest(p)
    ensures error == None ==> r.outcome == APPLIED && r.stage == NoStage
    ensures error == Some(StaleError) ==> r.outcome == STALE && r.stage == STALE_STAGE
    ensures error == Some(OtherError) ==> r.outcome == FAILED && (r.stage == PREPARE <==> prepared == [])
    ensures error == Some(OtherError) && prepared != [] ==> r.stage == PUSH
  {
    hide Decides, IndexBy;
  }

  /**
   * What the record of a run says of each repository: pushed ones are APPLIED, the one whose push failed is FAILED,
   * those after it are SKIPPED, all are FAILED when preparing failed and STALE when the plan was stale.
   */
  lemma {:induction false} EachIsSaid(p: Plan, prepared: seq<PreparedCommit>, pushes: seq<PushResult>,
                                      error: Option<ApplyError>, r: ManagedRecord, i: nat)
    requires CanHappen(p, prepared, pushes, error) && TellsTruth(p, prepared, pushes, error, r)
    requires i < |p.repositories|
    ensures var x := r.repositories[i];
            && (x.outcome == APPLIED <==> i < |pushes| && pushes[i].pushed)
            && (i < |pushes| && !pushes[i].pushed ==> x.outcome == FAILED)
            && (error == Some(StaleError) ==> x.outcome == STALE)
            && (error == Some(OtherError) && prepared == [] ==> x.outcome == FAILED)
            && (error == Some(OtherError) && prepared != [] && i >= |pushes| ==> x.outcome == SKIPPED)
            && x.preparedCommit == (if prepared == [] then "" else prepared[i].commitOid)
            && (x.pushed <==> i < |pushes| && pushes[i].pushed)
  {
    hide Planned, ResultFor, PreparedFor;
  }

  /** A candidate is of a planned repository, at its base, with object ids. */
  ghost predicate IsCandidate(p: Plan, c: PreparedCommit) {
    && Artifact.IsOid(c.treeOid) && Artifact.IsOid(c.commitOid)
    && exists r :: r in p.repositories && c.uid == r.uid && c.id == r.id && c.baseOid == r.baseOid
  }

  /** A push is of a planned repository, from its base, of the commit that was made for it. */
  ghost predicate IsPush(p: Plan, prepared: seq<PreparedCommit>, x: PushResult) {
    exists r, c :: r in p.repositories && c in prepared && x.uid == r.uid == c.uid && x.id == r.id
                   && x.branch == r.target.branch && x.baseOid == r.baseOid && x.commitOid == c.commitOid
  }

  /**
   * Evidence fits a plan only when it is about its repositories, once each, at their bases, and pushes what was made.
   */
  lemma {:induction false} FittingEvidence(p: Plan, prepared: seq<PreparedCommit>, pushes: seq<PushResult>,
                                           failed: bool)
    requires Fits(p, prepared, pushes, failed) && NoDuplicates(Map(PlanUid, p.repositories))
    ensures forall i, j :: 0 <= i < j < |prepared| ==> prepared[i].uid != prepared[j].uid
    ensures forall i, j :: 0 <= i < j < |pushes| ==> pushes[i].uid != pushes[j].uid
    ensures forall i :: 0 <= i < |prepared| ==> IsCandidate(p, prepared[i])
    ensures forall i :: 0 <= i < |pushes| ==> IsPush(p, prepared, pushes[i])
    ensures !failed ==> |prepared| == |pushes| == |p.repositories| && forall i :: 0 <= i < |pushes| ==> pushes[i].pushed
  {
    hide IndexBy, Map, NoDuplicates, Artifact.IsOid;
    IndexOfDistinct(PlanUid, p.repositories);
    IndexOfDistinct(PreparedUid, prepared);
    DistinctUidsOf(prepared, pushes);
    var planned, candidates := IndexBy(PlanUid, p.repositories), IndexBy(PreparedUid, prepared);
    forall i | 0 <= i < |prepared| ensures IsCandidate(p, prepared[i]) {
      assert GoodCandidate(planned, prepared[i]);
      assert planned[prepared[i].uid] in p.repositories;
    }
    forall i | 0 <= i < |pushes| ensures IsPush(p, prepared, pushes[i]) {
      assert GoodPush(planned, candidates, pushes[i]);
      assert planned[pushes[i].uid] in p.repositories && candidates[pushes[i].uid] in prepared;
    }
  }

  lemma {:induction false} DistinctUidsOf(prepared: seq<PreparedCommit>, pushes: seq<PushResult>)
    ensures NoDuplicates(Map(PreparedUid, prepared)) ==>
              forall i, j :: 0 <= i < j < |prepared| ==> prepared[i].uid != prepared[j].uid
    ensures NoDuplicates(Map(PushUid, pushes)) ==>
              forall i, j :: 0 <= i < j < |pushes| ==> pushes[i].uid != pushes[j].uid
  {
    hide Map;
    var one, two := Map(PreparedUid, prepared), Map(PushUid, pushes);
    assert forall i :: 0 <= i < |prepared| ==> one[i] == prepared[i].uid;
    assert forall i :: 0 <= i < |pushes| ==> two[i] == pushes[i].uid;
    if NoDuplicates(one) {
      forall i, j | 0 <= i < j < |prepared| ensures prepared[i].uid != prepared[j].uid {
        assert one[i] != one[j];
      }
    }
    if NoDuplicates(two) {
      forall i, j | 0 <= i < j < |pushes| ensures pushes[i].uid != pushes[j].uid {
        assert two[i] != two[j];
      }
    }
  }
}
