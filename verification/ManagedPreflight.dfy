/** Rebinding a reviewed plan to current configuration and canonical state. */
module ManagedPreflight {
  import opened Text
  import opened Permutations
  import opened ManagedText
  import PlanArtifact
  import Journal = ExecutionJournal
  import Review = ReviewDiff
  import opened RenderReadme
  import opened ManagedPlan
  import opened ManagedBuild

  datatype Verdict = Passed | StalePlan | Rejected

  /** Configuration still manages this repository, under the reviewed identity. */
  predicate Selects(r: Repo, planned: RepositoryPlan) {
    && r.readme.Some? && PlannerReady(r)
    && r.id == planned.id && r.provider == planned.target.provider && r.path == planned.target.path
  }

  predicate SameState(sha: Digest, expected: Observed, o: Observation) {
    && expected.present == Some(o.present)
    && (o.present ==> expected.mode == o.mode && expected.sha256 == sha(o.content))
  }

  /** Exactly the reviewed change is still the change from what is there to what is desired. */
  predicate SameChange(o: Observation, a: Action)
    requires a.desired.content.Some? && a.desired.content.value.Utf8? && o.content.Utf8?
  {
    !UpToDate(o, a.desired.content.value.text) && DiffOf(o, a.desired.content.value.text) == a.diff
  }

  /** The repository was observed as it was reviewed. */
  predicate Agrees(s: Source, r: Repo, planned: RepositoryPlan)
    requires ValidRepository(s.sha, planned)
  {
    && s.observe(r).Some? && ValidObservation(s.observe(r).value) && s.observe(r).value.content.Utf8?
    && var o := s.observe(r).value;
       && o.branch == planned.target.branch && o.baseOid == planned.baseOid
       && SameState(s.sha, planned.actions[0].observed, o)
       && SameChange(o, planned.actions[0])
  }

  /** What preflight demands of a plan. */
  predicate Holds(s: Source, spec: seq<Repo>, p: Plan) {
    && ValidPlan(s.sha, p)
    && (p.repositories != [] ==>
          && NoDuplicates(Map(DurableId, spec))
          && forall i :: 0 <= i < |p.repositories| ==> HoldsAt(s, IndexBy(DurableId, spec), p.repositories[i]))
  }

  predicate HoldsAt(s: Source, configured: map<string, Repo>, planned: RepositoryPlan)
    requires ValidRepository(s.sha, planned)
  {
    && planned.uid in configured
    && Selects(configured[planned.uid], planned)
    && Agrees(s, configured[planned.uid], planned)
  }

  /** A configured repository has the identity and the target of a planned one, no URL, and a README to manage. */
  predicate IsTarget(r: Repo, planned: RepositoryPlan) {
    && DurableId(r) == planned.uid && r.id == planned.id && r.readme.Some? && r.url == ""
    && r.provider == planned.target.provider && r.path == planned.target.path
  }

  /** Its canonical branch is at the reviewed base. */
  predicate IsAtBase(s: Source, r: Repo, planned: RepositoryPlan) {
    && s.observe(r).Some?
    && s.observe(r).value.branch == planned.target.branch && s.observe(r).value.baseOid == planned.baseOid
  }

  ghost predicate Configured(spec: seq<Repo>, planned: RepositoryPlan) {
    exists r :: r in spec && IsTarget(r, planned)
  }

  ghost predicate FoundAtBase(s: Source, spec: seq<Repo>, planned: RepositoryPlan) {
    exists r :: r in spec && IsTarget(r, planned) && IsAtBase(s, r, planned)
  }

  /**
   * A pass finds every planned repository configured under its identity and target, and at its base. A plan that cannot
   * be judged is rejected; a repository that is no longer configured so, or without a README, makes it stale.
   */
  ghost predicate Rebinds(s: Source, spec: seq<Repo>, p: Plan, v: Verdict) {
    && (v == Passed ==> forall i :: 0 <= i < |p.repositories| ==> FoundAtBase(s, spec, p.repositories[i]))
    && (!ValidPlan(s.sha, p) ==> v == Rejected)
    && (ValidPlan(s.sha, p) && p.repositories != [] && !NoDuplicates(Map(DurableId, spec)) ==> v == Rejected)
    && (ValidPlan(s.sha, p) && NoDuplicates(Map(DurableId, spec)) ==>
          (exists i :: 0 <= i < |p.repositories| && !Configured(spec, p.repositories[i])) ==> v == StalePlan)
  }

  // ---------------------------------------------------------------------
  // PreflightPlan.
  // ---------------------------------------------------------------------

  /** What an observation says about one planned repository: unusable, something else than reviewed, or as reviewed. */
  function CurrentVerdict(s: Source, r: Repo, planned: RepositoryPlan): Verdict
    requires ValidRepository(s.sha, planned)
  {
    if s.observe(r).None? || !ValidObservation(s.observe(r).value) then Rejected
    else if Agrees(s, r, planned) then Passed
    else StalePlan
  }

  /** The first verdict that is not a pass decides. */
  function CurrentVerdicts(s: Source, configured: map<string, Repo>, repositories: seq<RepositoryPlan>): Verdict {
    if repositories == [] then Passed
    else
      var front := CurrentVerdicts(s, configured, repositories[..|repositories| - 1]);
      if front != Passed then front else VerdictOn(s, configured, repositories[|repositories| - 1])
  }

  function VerdictOn(s: Source, configured: map<string, Repo>, planned: RepositoryPlan): Verdict {
    if ValidRepository(s.sha, planned) && planned.uid in configured
    then CurrentVerdict(s, configured[planned.uid], planned) else Rejected
  }

  predicate Selected(configured: map<string, Repo>, planned: RepositoryPlan) {
    planned.uid in configured && Selects(configured[planned.uid], planned)
  }

  /** A plan that cannot be judged is rejected; changed configuration, then changed repositories, make it stale. */
  function PlanVerdict(s: Source, spec: seq<Repo>, p: Plan): Verdict {
    if !ValidPlan(s.sha, p) then Rejected
    else if p.repositories == [] then Passed
    else if !NoDuplicates(Map(DurableId, spec)) then Rejected
    else if exists i :: 0 <= i < |p.repositories| && !Selected(IndexBy(DurableId, spec), p.repositories[i])
         then StalePlan
    else CurrentVerdicts(s, IndexBy(DurableId, spec), p.repositories)
  }

  method PreflightPlan(s: Source, spec: seq<Repo>, p: Plan) returns (v: Verdict)
    ensures v == PlanVerdict(s, spec, p)
    ensures v == Passed <==> Holds(s, spec, p)
    ensures Rebinds(s, spec, p, v)
  {
    hide ValidRepository, Selects, Agrees, CurrentVerdict, IndexBy, Map, NoDuplicates, AllApart, Rebinds;
    PassedExactlyWhenHolds(s, spec, p);
    VerdictRebinds(s, spec, p);
    var valid := Validate(s.sha, p);
    if !valid {
      return Rejected;
    }
    if p.repositories == [] {
      return Passed;
    }
    var configured := ConfiguredByUid(spec);
    if configured.None? {
      return Rejected;
    }
    var index := configured.value;
    for i := 0 to |p.repositories|
      invariant forall k :: 0 <= k < i ==> Selected(index, p.repositories[k])
    {
      if !Selected(index, p.repositories[i]) {
        return StalePlan;
      }
    }
    for i := 0 to |p.repositories|
      invariant CurrentVerdicts(s, index, p.repositories[..i]) == Passed
    {
      var planned := p.repositories[i];
      assert p.repositories[..i + 1][..i] == p.repositories[..i];
      v := CompareToCurrent(s, index[planned.uid], planned);
      if v != Passed {
        VerdictStays(s, index, p.repositories, i + 1, |p.repositories|);
        assert p.repositories[..|p.repositories|] == p.repositories;
        return;
      }
    }
    assert p.repositories[..|p.repositories|] == p.repositories;
    return Passed;
  }

  lemma VerdictRebinds(s: Source, spec: seq<Repo>, p: Plan)
    ensures Rebinds(s, spec, p, PlanVerdict(s, spec, p))
  {
    hide ValidRepository, IndexBy, Map, NoDuplicates, AllApart, DurableId, CurrentVerdicts, Selected, HoldsAt,
         FoundAtBase, Configured;
    PassedExactlyWhenHolds(s, spec, p);
    if ValidPlan(s.sha, p) && NoDuplicates(Map(DurableId, spec)) {
      forall i | 0 <= i < |p.repositories|
        ensures Selected(IndexBy(DurableId, spec), p.repositories[i]) ==> Configured(spec, p.repositories[i])
        ensures Holds(s, spec, p) ==> FoundAtBase(s, spec, p.repositories[i]) {
        FoundInIndex(s, spec, p.repositories[i]);
      }
    }
  }

  lemma FoundInIndex(s: Source, spec: seq<Repo>, planned: RepositoryPlan)
    requires ValidRepository(s.sha, planned) && NoDuplicates(Map(DurableId, spec))
    ensures Selected(IndexBy(DurableId, spec), planned) ==> Configured(spec, planned)
    ensures HoldsAt(s, IndexBy(DurableId, spec), planned) ==> FoundAtBase(s, spec, planned)
  {
    hide ValidRepository, IndexBy, Map, NoDuplicates, DurableId, PlanIdentifier, PlanProviderPath, SameState,
         SameChange, ValidObservation;
    IndexOfDistinct(DurableId, spec);
  }

  lemma {:induction false} VerdictStays(s: Source, configured: map<string, Repo>, repositories: seq<RepositoryPlan>,
                                        m: nat, n: nat)
    requires m <= n <= |repositories| && CurrentVerdicts(s, configured, repositories[..m]) != Passed
    ensures CurrentVerdicts(s, configured, repositories[..n]) == CurrentVerdicts(s, configured, repositories[..m])
    decreases n
  {
    hide VerdictOn;
    if m < n {
      VerdictStays(s, configured, repositories, m, n - 1);
      assert repositories[..n][..n - 1] == repositories[..n - 1];
    }
  }

  lemma {:induction false} AllPassed(s: Source, configured: map<string, Repo>, repositories: seq<RepositoryPlan>)
    ensures CurrentVerdicts(s, configured, repositories) == Passed <==>
              forall i :: 0 <= i < |repositories| ==> VerdictOn(s, configured, repositories[i]) == Passed
  {
    hide VerdictOn;
    if repositories != [] {
      AllPassed(s, configured, repositories[..|repositories| - 1]);
    }
  }

  lemma PassedHolds(s: Source, configured: map<string, Repo>, planned: RepositoryPlan)
    requires ValidRepository(s.sha, planned) && Selected(configured, planned)
    ensures VerdictOn(s, configured, planned) == Passed <==> HoldsAt(s, configured, planned)
  {
    hide ValidRepository, Selects, SameState, SameChange, ValidObservation;
  }

  lemma PassedExactlyWhenHolds(s: Source, spec: seq<Repo>, p: Plan)
    ensures PlanVerdict(s, spec, p) == Passed <==> Holds(s, spec, p)
  {
    hide ValidRepository, Selects, Agrees, VerdictOn, IndexBy, Map, NoDuplicates, AllApart, CurrentVerdicts;
    var configured := IndexBy(DurableId, spec);
    AllPassed(s, configured, p.repositories);
    if ValidPlan(s.sha, p) && forall i :: 0 <= i < |p.repositories| ==> Selected(configured, p.repositories[i]) {
      forall i | 0 <= i < |p.repositories|
        ensures VerdictOn(s, configured, p.repositories[i]) == Passed <==> HoldsAt(s, configured, p.repositories[i])
      {
        PassedHolds(s, configured, p.repositories[i]);
      }
    }
  }

  method ConfiguredByUid(spec: seq<Repo>) returns (configured: Option<map<string, Repo>>)
    ensures configured == if NoDuplicates(Map(DurableId, spec)) then Some(IndexBy(DurableId, spec)) else None
  {
    hide Map, NoDuplicates, DurableId;
    var index: map<string, Repo> := map[];
    EmptyHasNoDuplicates(DurableId);
    for i := 0 to |spec|
      invariant index == IndexBy(DurableId, spec[..i]) && NoDuplicates(Map(DurableId, spec[..i]))
    {
      assert spec[..i + 1][..i] == spec[..i];
      IndexOfDistinct(DurableId, spec[..i]);
      LastKeyRepeats(DurableId, spec[..i + 1]);
      if DurableId(spec[i]) in index {
        if NoDuplicates(Map(DurableId, spec)) {
          DuplicatesStay(DurableId, spec, i + 1);
        }
        return None;
      }
      index := index[DurableId(spec[i]) := spec[i]];
    }
    assert spec[..|spec|] == spec;
    return Some(index);
  }

  method CompareToCurrent(s: Source, r: Repo, planned: RepositoryPlan) returns (v: Verdict)
    requires ValidRepository(s.sha, planned)
    ensures v == CurrentVerdict(s, r, planned)
  {
    hide Managed, ByteLength, Review.Render, Review.ReviewHunk, Review.ReviewLines, Review.ValidReviewDiff,
         Review.Patch, PlanBranch,
         PlanArtifact.IsOid, Journal.IsDigest;
    var current := s.observe(r);
    if current.None? || !ValidObservation(current.value) {
      return Rejected;
    }
    var o, action := current.value, planned.actions[0];
    if o.branch != planned.target.branch || o.baseOid != planned.baseOid {
      return StalePlan;
    }
    if !SameState(s.sha, action.observed, o) {
      return StalePlan;
    }
    EmptyIsText(o.content);
    var diff := Review.ReviewDiff(o.present, o.content, action.desired.content.value);
    ReviewedDiffIsNotEmpty(s.sha, action);
    if diff.Err? {
      return Rejected;
    }
    if diff.value != action.diff {
      return StalePlan;
    }
    return Passed;
  }

  /** The diff from what is there to what is desired, when both are text. */
  function DiffTo(o: Observation, desired: Option<Content>): Option<string> {
    if o.content.Utf8? && desired.Some? && desired.value.Utf8? then Some(DiffOf(o, desired.value.text)) else None
  }

  /** Branch, base, presence, mode, digest or diff is not as reviewed, or the content is as desired already. */
  predicate HasChanged(sha: Digest, planned: RepositoryPlan, o: Observation)
    requires |planned.actions| == 1
  {
    var a := planned.actions[0];
    || o.branch != planned.target.branch || o.baseOid != planned.baseOid
    || Some(o.present) != a.observed.present
    || (o.present && (o.mode != a.observed.mode || sha(o.content) != a.observed.sha256))
    || (o.present && Some(o.content) == a.desired.content)
    || DiffTo(o, a.desired.content) != Some(a.diff)
  }

  /**
   * A repository that cannot be observed rejects the plan; any change of branch, base, presence, mode, digest or diff
   * makes it stale, and so does content that is already the desired one.
   */
  lemma ChangedIsStale(s: Source, r: Repo, planned: RepositoryPlan)
    requires ValidRepository(s.sha, planned)
    ensures var v := CurrentVerdict(s, r, planned);
            && (v == Rejected <==> s.observe(r).None? || !ValidObservation(s.observe(r).value))
            && (v == StalePlan <==>
                  && s.observe(r).Some? && ValidObservation(s.observe(r).value)
                  && HasChanged(s.sha, planned, s.observe(r).value))
  {
    hide Managed, ByteLength, Review.Render, Review.ReviewHunk, Review.ReviewLines, Review.ValidReviewDiff,
         Review.Patch, PlanBranch, PlanArtifact.IsOid, Journal.IsDigest, DiffOf;
    if s.observe(r).Some? && ValidObservation(s.observe(r).value) {
      AbsentIsEmpty(s.observe(r).value);
    }
  }

  lemma ReviewedDiffIsNotEmpty(sha: Digest, a: Action)
    requires ValidAction(sha, a)
    ensures a.diff != ""
  {
    hide ValidObserved, ValidDesired, Managed, ByteLength;
  }

  // ---------------------------------------------------------------------
  // What a passing preflight means.
  // ---------------------------------------------------------------------

  /** Applying the reviewed diff to what is there now gives exactly the reviewed content, whatever digests say. */
  lemma PassedDiffApplies(s: Source, r: Repo, planned: RepositoryPlan)
    requires ValidRepository(s.sha, planned)
    requires Agrees(s, r, planned)
    ensures var o, a := s.observe(r).value, planned.actions[0];
            Review.Patch(o.present, o.content.text, a.diff) == Some(a.desired.content.value.text)
  {
    hide Managed, ByteLength, Review.Render, Review.ReviewHunk, Review.ReviewLines, Review.ValidReviewDiff,
         Review.Patch, PlanBranch,
         PlanArtifact.IsOid, Journal.IsDigest;
    var o, a := s.observe(r).value, planned.actions[0];
    AbsentIsEmpty(o);
    Review.EmptyIsManaged();
    EmptyFits();
    Review.DiffIsFaithful(o.present, o.content.text, a.desired.content.value.text);
  }

  /** A built plan passes while configuration and observations stay as they were. */
  lemma UnchangedWorldPasses(s: Source, spec: seq<Repo>, p: Plan)
    requires Built(s, spec, p) && NoDuplicates(Map(DurableId, spec))
    ensures Holds(s, spec, p)
  {
    hide ValidRepository, Selects, Agrees, IndexBy, Map, NoDuplicates, Apart, AllApart, Contributes, PlannerReady,
         ApartRepos, Ordered, Collects, DurableId;
    var sorted :| multiset(sorted) == multiset(WithReadme(spec)) && Ordered(sorted)
      && Collects(s, sorted, p.repositories);
    forall i | 0 <= i < |p.repositories| ensures HoldsAt(s, IndexBy(DurableId, spec), p.repositories[i]) {
      var k := ChangeHasRepo(s, sorted, p.repositories, i);
      SameMembers(sorted, WithReadme(spec));
      assert sorted[k] in sorted;
      WithReadmeMembers(spec, sorted[k]);
      var n: nat :| n < |WithReadme(spec)| && WithReadme(spec)[n] == sorted[k];
      IndexOfDistinct(DurableId, spec);
      ContributedAgrees(s, sorted[k], p.repositories[i]);
    }
  }

  lemma {:induction false} WithReadmeMembers(spec: seq<Repo>, r: Repo)
    requires r in WithReadme(spec)
    ensures r in spec && r.readme.Some?
  {
    var front, last := spec[..|spec| - 1], spec[|spec| - 1];
    if r in WithReadme(front) {
      WithReadmeMembers(front, r);
    }
  }

  lemma ContributedAgrees(s: Source, r: Repo, change: RepositoryPlan)
    requires Contributes(s, r, Some(change)) && PlannerReady(r) && ValidRepository(s.sha, change)
    ensures change.uid == DurableId(r) && Selects(r, change) && Agrees(s, r, change)
  {
    hide PlannerReady, Renders, Renderable, Managed, ByteLength, Review.Render, Review.ReviewHunk, Review.ReviewLines,
         ValidObservation,
         ValidTarget, PlanIdentifier, PlanArtifact.IsOid, Review.ValidReviewDiff, Journal.IsDigest;
    var template, text :| ContributesAs(s, r, template, text, Some(change));
  }

  /**
   * A plan built in one world that passes in another finds branch, base, presence, mode and digest as they were
   * reviewed; the content, too, unless it is another of the same digest.
   */
  lemma PassedMeansUnchanged(s: Source, now: Source, r: Repo, q: Repo, change: RepositoryPlan)
    requires now.sha == s.sha
    requires Contributes(s, r, Some(change)) && ValidRepository(s.sha, change)
    requires Agrees(now, q, change)
    ensures var was, seen := s.observe(r).value, now.observe(q).value;
            && seen.branch == was.branch && seen.baseOid == was.baseOid && seen.present == was.present
            && seen.mode == was.mode
            && (seen.present ==> s.sha(seen.content) == s.sha(was.content))
            && (seen == was || (seen.content != was.content && s.sha(seen.content) == s.sha(was.content)))
  {
    hide PlannerReady, Renders, Renderable, Managed, ByteLength, Review.Render, Review.ReviewHunk, Review.ReviewLines,
         ValidTarget, PlanIdentifier, PlanBranch, PlanArtifact.IsOid, Review.ValidReviewDiff, Journal.IsDigest;
    var template, text :| ContributesAs(s, r, template, text, Some(change));
    var was, seen := s.observe(r).value, now.observe(q).value;
    AbsentIsEmpty(was);
    AbsentIsEmpty(seen);
  }
}
