/** Building the plan of every configured README, in one order whatever the order of configuration. */
module ManagedBuild {
  import opened Text
  import opened Permutations
  import opened ManagedText
  import PlanArtifact
  import Journal = ExecutionJournal
  import Review = ReviewDiff
  import opened RenderReadme
  import opened ManagedPlan

  // ---------------------------------------------------------------------
  // One change.
  // ---------------------------------------------------------------------

  ghost predicate WellFormedDigests(sha: Digest) {
    forall c :: Journal.IsDigest(sha(c))
  }

  /** The README that is there and the one asked for are different texts with one digest. */
  ghost predicate Collides(s: Source, r: Repo) {
    exists template, text :: CollidesOn(s, r, template, text)
  }

  ghost predicate CollidesOn(s: Source, r: Repo, template: Content, text: string) {
    && Asks(s, r, template, text) && s.observe(r).Some?
    && var o := s.observe(r).value;
       o.present && o.content != Utf8(text) && s.sha(o.content) == s.sha(Utf8(text))
  }

  /**
   * The change made for a ready repository always satisfies the plan's own validator, unless the observed
   * and the desired text are different and have one digest.
   */
  lemma ChangeIsValidExactly(s: Source, r: Repo, template: Content, text: string, change: RepositoryPlan)
    requires WellFormedDigests(s.sha) && PlannerReady(r) && ContributesAs(s, r, template, text, Some(change))
    requires Managed(text, false) && ByteLength(text) <= MAX_TEXT_BYTES
    ensures ValidRepository(s.sha, change) <==>
              !(s.observe(r).value.present && s.sha(s.observe(r).value.content) == s.sha(Utf8(text)))
    ensures s.observe(r).value.present ==> s.observe(r).value.content != Utf8(text)
  {
    hide PlanIdentifier, PlanProviderPath, PlanBranch, PlanArtifact.IsOid, Managed, ByteLength, Review.ValidReviewDiff,
         Review.Render,
         Review.ReviewHunk, Review.ReviewLines, Review.Patch, Renderable, Renders, Journal.IsDigest;
    var o := s.observe(r).value;
    assert o.content.Utf8? && (!o.present ==> o.content.text == "") by {
      hide *;
      AbsentIsEmpty(o);
    }
    Review.EmptyIsManaged();
    EmptyFits();
    Review.DiffIsFaithful(o.present, o.content.text, text);
  }

  function SixtyFourZeros(): string {
    seq(64, _ => '0')
  }

  /** With one digest for everything, every change to a README that is there fails the plan's validator. */
  lemma ConstantDigestRejects(s: Source, r: Repo, template: Content, text: string, change: RepositoryPlan)
    requires PlannerReady(r) && ContributesAs(s, r, template, text, Some(change)) && s.observe(r).value.present
    requires forall c :: s.sha(c) == SixtyFourZeros()
    requires Managed(text, false) && ByteLength(text) <= MAX_TEXT_BYTES
    ensures !ValidRepository(s.sha, change)
  {
    hide PlannerReady, ValidRepository, Managed, ByteLength, ChangeOf, Asks, ValidObservation;
    assert WellFormedDigests(s.sha);
    assert s.sha(s.observe(r).value.content) == s.sha(Utf8(text));
    ChangeIsValidExactly(s, r, template, text, change);
  }

  lemma AbsentIsEmpty(o: Observation)
    requires ValidObservation(o)
    ensures o.content.Utf8? && (!o.present ==> o.content.text == "")
  {
    hide PlanBranch, PlanArtifact.IsOid;
  }

  lemma EmptyFits()
    ensures ByteLength("") == 0
  {
  }

  /** What configuration asks for is safe text within bounds, and there is only one such text. */
  lemma AskedText(s: Source, r: Repo, template: Content, text: string, other: Content, text': string)
    requires Asks(s, r, template, text) && Asks(s, r, other, text')
    ensures template == other && text == text'
  {
    hide Managed, ValidData, Normalize, Resolved, Expand, ByteLength, ValidSegments, Print, Scan;
    var a :| Rendered(Normalize(template.text), DataOf(r), a, text);
    var b :| Rendered(Normalize(template.text), DataOf(r), b, text');
    ReadingIsScan(Normalize(template.text), a);
    ReadingIsScan(Normalize(template.text), b);
  }

  lemma ContributesOnce(s: Source, r: Repo, one: Option<RepositoryPlan>, two: Option<RepositoryPlan>)
    requires Contributes(s, r, one) && Contributes(s, r, two)
    ensures one == two
  {
    hide Asks, ValidObservation, ChangeOf;
    var a, b :| ContributesAs(s, r, a, b, one);
    var c, d :| ContributesAs(s, r, c, d, two);
    AskedText(s, r, a, b, c, d);
  }

  // ---------------------------------------------------------------------
  // Distinct targets.
  // ---------------------------------------------------------------------

  lemma {:induction false} SplitKeepsChars(s: string, separator: char, c: char)
    requires c in s && c != separator
    ensures exists i :: 0 <= i < |Split(s, separator)| && c in Split(s, separator)[i]
    decreases |s|
  {
    hide IndexAny;
    IndexAnyFirst(s, [separator]);
    var at := IndexAny(s, [separator]);
    var k :| 0 <= k < |s| && s[k] == c;
    if at < 0 {
      assert Split(s, separator) == [s];
      assert c in Split(s, separator)[0];
    } else {
      var rest := s[at + 1..];
      assert Split(s, separator) == [s[..at]] + Split(rest, separator);
      if k < at {
        assert s[..at][k] == c;
        assert c in Split(s, separator)[0];
      } else {
        assert rest[k - at - 1] == c;
        SplitKeepsChars(rest, separator, c);
        var i :| 0 <= i < |Split(rest, separator)| && c in Split(rest, separator)[i];
        assert Split(s, separator)[i + 1] == Split(rest, separator)[i];
      }
    }
  }

  lemma NoHash(provider: string, path: string)
    requires PlanIdentifier(provider) && PlanProviderPath(path)
    ensures forall i :: 0 <= i < |provider + ":" + path| ==> (provider + ":" + path)[i] !in "#"
  {
    hide TrimSpace, DisplayText;
    if '#' in path {
      SplitKeepsChars(path, '/', '#');
    }
    assert '#' !in provider;
    assert '#' !in provider + ":" + path;
  }

  /** The key of a target gives back its repository: nothing before the first '#' holds one. */
  lemma KeyHoldsRepository(t: Target, u: Target)
    requires PlanIdentifier(t.provider) && PlanProviderPath(t.path) && PlanIdentifier(u.provider)
    requires PlanProviderPath(u.path)
    requires TargetKey(t) == TargetKey(u)
    ensures t.provider + ":" + t.path == u.provider + ":" + u.path
  {
    hide PlanIdentifier, PlanProviderPath;
    var a, b := t.provider + ":" + t.path, u.provider + ":" + u.path;
    NoHash(t.provider, t.path);
    NoHash(u.provider, u.path);
    IndexAnyAfter(a, "#" + t.branch, "#");
    IndexAnyAfter(b, "#" + u.branch, "#");
    assert TargetKey(t) == a + ("#" + t.branch) && TargetKey(u) == b + ("#" + u.branch);
    assert IndexAny("#" + t.branch, "#") == 0 && IndexAny("#" + u.branch, "#") == 0;
    assert (a + ("#" + t.branch))[..|a|] == a && (b + ("#" + u.branch))[..|b|] == b;
  }

  // ---------------------------------------------------------------------
  // All changes.
  // ---------------------------------------------------------------------

  /** `changes` are the contributions of `repos`, in order. */
  ghost predicate Collects(s: Source, repos: seq<Repo>, changes: seq<RepositoryPlan>) {
    if repos == [] then changes == []
    else
      var front, last := repos[..|repos| - 1], repos[|repos| - 1];
      || (Contributes(s, last, None) && Collects(s, front, changes))
      || (changes != [] && Contributes(s, last, Some(changes[|changes| - 1]))
          && Collects(s, front, changes[..|changes| - 1]))
  }

  lemma {:induction false} CollectsOnce(s: Source, repos: seq<Repo>, one: seq<RepositoryPlan>, two: seq<RepositoryPlan>)
    requires Collects(s, repos, one) && Collects(s, repos, two)
    ensures one == two
  {
    hide Contributes;
    if repos != [] {
      var front, last := repos[..|repos| - 1], repos[|repos| - 1];
      if Contributes(s, last, None) {
        if two != [] && Contributes(s, last, Some(two[|two| - 1])) {
          ContributesOnce(s, last, None, Some(two[|two| - 1]));
        }
        if one != [] && Contributes(s, last, Some(one[|one| - 1])) {
          ContributesOnce(s, last, None, Some(one[|one| - 1]));
        }
        CollectsOnce(s, front, one, two);
      } else {
        ContributesOnce(s, last, Some(one[|one| - 1]), Some(two[|two| - 1]));
        CollectsOnce(s, front, one[..|one| - 1], two[..|two| - 1]);
      }
    }
  }

  /** Every change comes from one of the repositories. */
  lemma {:induction false} ChangeHasRepo(s: Source, repos: seq<Repo>, changes: seq<RepositoryPlan>, i: nat)
    returns (k: nat)
    requires Collects(s, repos, changes) && i < |changes|
    ensures k < |repos| && Contributes(s, repos[k], Some(changes[i]))
    decreases |repos|
  {
    hide Contributes;
    var front, last := repos[..|repos| - 1], repos[|repos| - 1];
    if Contributes(s, last, None) && Collects(s, front, changes) {
      k := ChangeHasRepo(s, front, changes, i);
    } else if i == |changes| - 1 {
      k := |repos| - 1;
    } else {
      k := ChangeHasRepo(s, front, changes[..|changes| - 1], i);
    }
  }

  lemma ChangeNamesRepo(s: Source, r: Repo, change: RepositoryPlan)
    requires Contributes(s, r, Some(change)) && PlannerReady(r)
    ensures change.uid == DurableId(r) && change.id == r.id
    ensures change.target.provider == r.provider && change.target.path == r.path
    ensures WellFormedDigests(s.sha) ==> (ValidRepository(s.sha, change) <==> !Collides(s, r))
  {
    hide PlannerReady, Renders, ValidRepository, PlanBranch, PlanArtifact.IsOid, Managed, ByteLength, Renderable;
    var template, text :| ContributesAs(s, r, template, text, Some(change));
    RenderedIsManaged(template, DataOf(r), text);
    if WellFormedDigests(s.sha) {
      ChangeIsValidExactly(s, r, template, text, change);
      CollisionIsThis(s, r, template, text);
    }
  }

  lemma CollisionIsThis(s: Source, r: Repo, template: Content, text: string)
    requires Asks(s, r, template, text)
    ensures Collides(s, r) <==> CollidesOn(s, r, template, text)
  {
    hide Asks;
    if Collides(s, r) {
      var t, x :| CollidesOn(s, r, t, x);
      AskedText(s, r, template, text, t, x);
    }
  }

  lemma {:induction false} ChangesAreApart(s: Source, repos: seq<Repo>, changes: seq<RepositoryPlan>)
    requires PlannerRepositories(repos) && Collects(s, repos, changes)
    ensures AllApart(changes)
    decreases |repos|
  {
    hide Contributes, PlannerReady, ApartRepos, TargetKey;
    if repos != [] {
      var front, last := repos[..|repos| - 1], repos[|repos| - 1];
      if Contributes(s, last, None) && Collects(s, front, changes) {
        ChangesAreApart(s, front, changes);
      } else {
        var before, change := changes[..|changes| - 1], changes[|changes| - 1];
        ChangesAreApart(s, front, before);
        forall i | 0 <= i < |before| ensures Apart(before[i], change) {
          var k := ChangeHasRepo(s, front, before, i);
          assert ApartRepos(repos[k], repos[|repos| - 1]);
          ApartChanges(s, front[k], before[i], last, change);
        }
        assert forall i :: 0 <= i < |before| ==> changes[i] == before[i];
      }
    }
  }

  lemma ApartChanges(s: Source, r: Repo, one: RepositoryPlan, q: Repo, two: RepositoryPlan)
    requires PlannerReady(r) && PlannerReady(q) && ApartRepos(r, q)
    requires Contributes(s, r, Some(one)) && Contributes(s, q, Some(two))
    ensures Apart(one, two)
  {
    hide Contributes, PlanIdentifier, PlanProviderPath, TargetKey, DurableId;
    ChangeNamesRepo(s, r, one);
    ChangeNamesRepo(s, q, two);
    if TargetKey(one.target) == TargetKey(two.target) {
      KeyHoldsRepository(one.target, two.target);
    }
  }

  /** Every contributed change is among the changes. */
  lemma {:induction false} RepoHasChange(s: Source, repos: seq<Repo>, changes: seq<RepositoryPlan>, k: nat,
                                         change: RepositoryPlan)
    requires Collects(s, repos, changes) && k < |repos| && Contributes(s, repos[k], Some(change))
    ensures change in changes
    decreases |repos|
  {
    hide Contributes;
    var front, last := repos[..|repos| - 1], repos[|repos| - 1];
    if Contributes(s, last, None) && Collects(s, front, changes) {
      if k == |repos| - 1 {
        ContributesOnce(s, last, None, Some(change));
      } else {
        RepoHasChange(s, front, changes, k, change);
      }
    } else if k == |repos| - 1 {
      ContributesOnce(s, last, Some(changes[|changes| - 1]), Some(change));
    } else {
      RepoHasChange(s, front, changes[..|changes| - 1], k, change);
    }
  }

  /** A repository whose README collides with the one asked for is not up to date. */
  lemma CollisionIsChange(s: Source, r: Repo, c: Option<RepositoryPlan>)
    requires Contributes(s, r, c) && Collides(s, r)
    ensures c.Some?
  {
    hide Asks, ValidObservation, ChangeOf;
    var template, text :| ContributesAs(s, r, template, text, c);
    CollisionIsThis(s, r, template, text);
  }

  lemma {:induction false} EachContributes(s: Source, repos: seq<Repo>, changes: seq<RepositoryPlan>, k: nat)
    returns (c: Option<RepositoryPlan>)
    requires Collects(s, repos, changes) && k < |repos|
    ensures Contributes(s, repos[k], c)
    decreases |repos|
  {
    hide Contributes;
    var front, last := repos[..|repos| - 1], repos[|repos| - 1];
    if Contributes(s, last, None) && Collects(s, front, changes) {
      if k == |repos| - 1 {
        c := None;
      } else {
        c := EachContributes(s, front, changes, k);
      }
    } else if k == |repos| - 1 {
      c := Some(changes[|changes| - 1]);
    } else {
      c := EachContributes(s, front, changes[..|changes| - 1], k);
    }
  }

  /**
   * A collected plan passes its own validation if and only if no README differs from the one asked for and has its
   * digest.
   */
  lemma CollectedPlanIsValid(s: Source, repos: seq<Repo>, changes: seq<RepositoryPlan>)
    requires WellFormedDigests(s.sha)
    requires PlannerRepositories(repos) && Collects(s, repos, changes)
    ensures ValidPlan(s.sha, Plan(PLAN_KIND, PLAN_VERSION, changes)) <==>
              forall k :: 0 <= k < |repos| ==> !Collides(s, repos[k])
  {
    hide Contributes, PlannerReady, ApartRepos, Apart, ValidRepository, WellFormedDigests, Collides, Collects;
    ChangesAreApart(s, repos, changes);
    if forall k :: 0 <= k < |repos| ==> !Collides(s, repos[k]) {
      forall i | 0 <= i < |changes| ensures ValidRepository(s.sha, changes[i]) {
        var k := ChangeHasRepo(s, repos, changes, i);
        ChangeNamesRepo(s, repos[k], changes[i]);
      }
    } else {
      var k :| 0 <= k < |repos| && Collides(s, repos[k]);
      var c := EachContributes(s, repos, changes, k);
      CollisionIsChange(s, repos[k], c);
      RepoHasChange(s, repos, changes, k, c.value);
      var i :| 0 <= i < |changes| && changes[i] == c.value;
      ChangeNamesRepo(s, repos[k], changes[i]);
    }
  }

  // ---------------------------------------------------------------------
  // BuildPlan.
  // ---------------------------------------------------------------------

  predicate Earlier(a: Repo, b: Repo) {
    CompareStrings(DurableId(a), DurableId(b)) < 0
  }

  lemma EarlierIsOrder(a: Repo, b: Repo, c: Repo)
    ensures Earlier(a, b) && Earlier(b, c) ==> Earlier(a, c)
    ensures !(Earlier(a, b) && Earlier(b, a))
    ensures DurableId(a) != DurableId(b) ==> Earlier(a, b) || Earlier(b, a)
  {
    hide CompareStrings, DurableId;
    CompareStringsOrder(DurableId(a), DurableId(b), DurableId(c));
  }

  predicate Ordered(repos: seq<Repo>) {
    forall i, j :: 0 <= i < j < |repos| ==> Earlier(repos[i], repos[j])
  }

  function WithReadme(repos: seq<Repo>): (r: seq<Repo>)
    ensures forall i :: 0 <= i < |r| ==> r[i].readme.Some?
  {
    if repos == [] then []
    else
      var front, last := WithReadme(repos[..|repos| - 1]), repos[|repos| - 1];
      if last.readme.Some? then front + [last] else front
  }

  /** Insertion into an ordered list; durable ids decide, since no two are equal. */
  method SortRepos(repos: seq<Repo>) returns (sorted: seq<Repo>)
    requires PlannerRepositories(repos)
    ensures multiset(sorted) == multiset(repos) && Ordered(sorted)
  {
    hide PlannerReady, DurableId, CompareStrings;
    sorted := [];
    for i := 0 to |repos|
      invariant multiset(sorted) == multiset(repos[..i]) && Ordered(sorted)
    {
      sorted := InsertRepo(sorted, repos[i], repos[..i]);
      assert repos[..i + 1] == repos[..i] + [repos[i]];
    }
    assert repos[..|repos|] == repos;
  }

  method InsertRepo(sorted: seq<Repo>, r: Repo, ghost before: seq<Repo>) returns (out: seq<Repo>)
    requires Ordered(sorted) && multiset(sorted) == multiset(before)
    requires forall i :: 0 <= i < |before| ==> DurableId(before[i]) != DurableId(r)
    ensures multiset(out) == multiset(sorted) + multiset{r} && Ordered(out)
  {
    hide DurableId, Earlier, Ordered;
    SameMembers(sorted, before);
    var at := 0;
    while at < |sorted| && Earlier(sorted[at], r)
      invariant 0 <= at <= |sorted|
      invariant forall k :: 0 <= k < at ==> Earlier(sorted[k], r)
    {
      at := at + 1;
    }
    forall k | at <= k < |sorted| ensures Earlier(r, sorted[k]) {
      assert sorted[k] in sorted && sorted[at] in sorted;
      AfterInsertion(sorted, r, at, k);
    }
    InsertedIsOrdered(sorted, r, at);
    out := sorted[..at] + [r] + sorted[at..];
    assert sorted == sorted[..at] + sorted[at..];
  }

  lemma AfterInsertion(sorted: seq<Repo>, r: Repo, at: nat, k: nat)
    requires Ordered(sorted) && at <= k < |sorted| && !Earlier(sorted[at], r) && DurableId(sorted[at]) != DurableId(r)
    ensures Earlier(r, sorted[k])
  {
    hide DurableId, Earlier;
    EarlierIsOrder(r, sorted[at], sorted[k]);
  }

  lemma InsertedIsOrdered(sorted: seq<Repo>, r: Repo, at: nat)
    requires Ordered(sorted) && at <= |sorted|
    requires forall k :: 0 <= k < at ==> Earlier(sorted[k], r)
    requires forall k :: at <= k < |sorted| ==> Earlier(r, sorted[k])
    ensures Ordered(sorted[..at] + [r] + sorted[at..])
  {
    hide Earlier;
  }

  /** The order of configuration does not show once repositories are sorted. */
  lemma {:induction false} OrderIsUnique(a: seq<Repo>, b: seq<Repo>)
    requires multiset(a) == multiset(b) && Ordered(a) && Ordered(b)
    ensures a == b
  {
    hide Ordered;
    SameMembers(a, b);
    if a != [] {
      FirstOfOrdered(a, b);
      assert a == [a[0]] + a[1..] && b == [b[0]] + b[1..];
      assert multiset(a[1..]) == multiset(a) - multiset{a[0]};
      assert multiset(b[1..]) == multiset(b) - multiset{b[0]};
      TailOfOrdered(a);
      TailOfOrdered(b);
      OrderIsUnique(a[1..], b[1..]);
    }
  }

  lemma TailOfOrdered(a: seq<Repo>)
    requires Ordered(a) && a != []
    ensures Ordered(a[1..])
  {
    hide Earlier;
  }

  lemma FirstOfOrdered(a: seq<Repo>, b: seq<Repo>)
    requires multiset(a) == multiset(b) && Ordered(a) && Ordered(b) && a != [] && b != []
    ensures a[0] == b[0]
  {
    hide Earlier;
    SameMembers(a, b);
    assert b[0] in b && a[0] in a;
    var i :| 0 <= i < |a| && a[i] == b[0];
    var j :| 0 <= j < |b| && b[j] == a[0];
    EarlierIsOrder(a[0], b[0], a[0]);
  }

  /** What a successful build says: the contributions of the configured repositories, by durable id, as a valid plan. */
  ghost predicate Built(s: Source, spec: seq<Repo>, plan: Plan) {
    && ValidPlan(s.sha, plan)
    && (WithReadme(spec) == [] || PlannerRepositories(WithReadme(spec)))
    && exists sorted :: multiset(sorted) ==
         multiset(WithReadme(spec)) && Ordered(sorted) && Collects(s, sorted, plan.repositories)
  }

  /** Templates render and observations are usable, everywhere. */
  ghost predicate AllContribute(s: Source, repos: seq<Repo>) {
    forall k :: 0 <= k < |repos| ==> CanContribute(s, repos[k])
  }

  ghost predicate CanContribute(s: Source, r: Repo) {
    exists c :: Contributes(s, r, c)
  }

  lemma BuiltIsPossible(s: Source, spec: seq<Repo>, plan: Plan)
    requires WellFormedDigests(s.sha) && Built(s, spec, plan) && WithReadme(spec) != []
    ensures AllContribute(s, WithReadme(spec))
    ensures forall k :: 0 <= k < |WithReadme(spec)| ==> !Collides(s, WithReadme(spec)[k])
  {
    hide Contributes, Ordered, Collides, Collects, ValidRepository, AllApart, PlannerRepositories, WellFormedDigests;
    var repos := WithReadme(spec);
    var sorted :| multiset(sorted) == multiset(repos) && Ordered(sorted) && Collects(s, sorted, plan.repositories);
    SameMembers(sorted, repos);
    PlannerRepositoriesPermuted(repos, sorted);
    CollectedPlanIsValid(s, sorted, plan.repositories);
    assert plan == Plan(PLAN_KIND, PLAN_VERSION, plan.repositories);
    CollidingAlike(s, repos, sorted);
    forall k | 0 <= k < |repos| ensures CanContribute(s, repos[k]) {
      assert repos[k] in sorted;
      var j :| 0 <= j < |sorted| && sorted[j] == repos[k];
      var c := EachContributes(s, sorted, plan.repositories, j);
      assert Contributes(s, repos[k], c);
    }
  }

  method BuildPlan(s: Source, spec: seq<Repo>) returns (r: Result<Plan, BuildError>)
    requires WellFormedDigests(s.sha)
    ensures r.Ok? ==> Built(s, spec, r.value)
    ensures r.Err? ==> forall plan :: !Built(s, spec, plan)
    ensures r.Err? ==> !r.error.DiffFailed?
    ensures r.Err? && r.error.InvalidPlan? ==>
              exists k :: 0 <= k < |WithReadme(spec)| && Collides(s, WithReadme(spec)[k])
    ensures PlannerRepositories(WithReadme(spec)) && AllContribute(s, WithReadme(spec)) ==>
              (r == Err(InvalidPlan) <==> exists k :: 0 <= k < |WithReadme(spec)| && Collides(s, WithReadme(spec)[k]))
    ensures r.Err? && !r.error.InvalidPlan? ==>
              || r.error == InvalidRepositories
              || exists k :: 0 <= k < |WithReadme(spec)| && !CanContribute(s, WithReadme(spec)[k])
  {
    hide Contributes, PlannerRepositories, Ordered, WellFormedDigests, Collides, ValidRepository;
    var repos: seq<Repo> := [];
    for i := 0 to |spec|
      invariant repos == WithReadme(spec[..i])
    {
      assert spec[..i + 1][..i] == spec[..i];
      if spec[i].readme.Some? {
        repos := repos + [spec[i]];
      }
    }
    assert spec[..|spec|] == spec;
    if repos == [] {
      EmptyOrdered();
      assert Collects(s, [], []);
      return Ok(Plan(PLAN_KIND, PLAN_VERSION, []));
    }
    forall plan | Built(s, spec, plan)
      ensures AllContribute(s, repos) && forall k :: 0 <= k < |repos| ==> !Collides(s, repos[k]) {
      BuiltIsPossible(s, spec, plan);
    }
    var ready := ValidatePlannerRepositories(repos);
    if !ready {
      return Err(InvalidRepositories);
    }
    var sorted := SortRepos(repos);
    SameMembers(sorted, repos);
    var changes: seq<RepositoryPlan> := [];
    for i := 0 to |sorted|
      invariant Collects(s, sorted[..i], changes)
    {
      assert sorted[i] in sorted;
      var k: nat :| k < |repos| && repos[k] == sorted[i];
      var change := BuildChange(s, sorted[i]);
      if change.Err? {
        return Err(change.error);
      }
      assert sorted[..i + 1][..i] == sorted[..i];
      if change.value.Some? {
        assert (changes + [change.value.value])[..|changes|] == changes;
        changes := changes + [change.value.value];
      }
    }
    assert sorted[..|sorted|] == sorted;
    PlannerRepositoriesPermuted(repos, sorted);
    var plan := Plan(PLAN_KIND, PLAN_VERSION, changes);
    var valid := Validate(s.sha, plan);
    CollectedPlanIsValid(s, sorted, changes);
    CollidingAlike(s, repos, sorted);
    return if valid then Ok(plan) else Err(InvalidPlan);
  }

  lemma CollidingAlike(s: Source, repos: seq<Repo>, sorted: seq<Repo>)
    requires multiset(sorted) == multiset(repos)
    ensures (exists k :: 0 <= k < |repos| && Collides(s, repos[k])) <==>
              (exists k :: 0 <= k < |sorted| && Collides(s, sorted[k]))
  {
    hide Collides;
    SameMembers(sorted, repos);
    if k :| 0 <= k < |repos| && Collides(s, repos[k]) {
      assert repos[k] in sorted;
    }
    if k :| 0 <= k < |sorted| && Collides(s, sorted[k]) {
      assert sorted[k] in repos;
    }
  }

  lemma EmptyOrdered()
    ensures Ordered([])
  {
  }

  lemma PlannerRepositoriesPermuted(repos: seq<Repo>, sorted: seq<Repo>)
    requires PlannerRepositories(repos) && multiset(sorted) == multiset(repos) && Ordered(sorted)
    ensures PlannerRepositories(sorted)
  {
    hide PlannerReady, Earlier, ApartRepos;
    SameMembers(sorted, repos);
    forall i | 0 <= i < |sorted| ensures PlannerReady(sorted[i]) {
      assert sorted[i] in repos;
    }
    forall i, j | 0 <= i < j < |sorted| ensures ApartRepos(sorted[i], sorted[j]) {
      assert sorted[i] in repos && sorted[j] in repos;
      EarlierIsOrder(sorted[i], sorted[j], sorted[i]);
      ApartWhenDifferent(repos, sorted[i], sorted[j]);
    }
  }

  lemma ApartWhenDifferent(repos: seq<Repo>, a: Repo, b: Repo)
    requires PlannerRepositories(repos) && a in repos && b in repos && a != b
    ensures ApartRepos(a, b)
  {
    hide PlannerReady, DurableId, CanonicalKey;
    var m :| 0 <= m < |repos| && repos[m] == a;
    var n :| 0 <= n < |repos| && repos[n] == b;
    assert m < n ==> ApartRepos(repos[m], repos[n]);
    assert n < m ==> ApartRepos(repos[n], repos[m]);
  }

  /** One configuration, written in any order, yields one plan. */
  lemma ConfigurationOrderDoesNotMatter(s: Source, spec: seq<Repo>, other: seq<Repo>, one: Plan, two: Plan)
    requires multiset(WithReadme(spec)) == multiset(WithReadme(other))
    requires Built(s, spec, one) && Built(s, other, two)
    ensures one == two
  {
    hide Collects, Ordered, ValidRepository, AllApart, PlannerRepositories;
    var a :| multiset(a) == multiset(WithReadme(spec)) && Ordered(a) && Collects(s, a, one.repositories);
    var b :| multiset(b) == multiset(WithReadme(other)) && Ordered(b) && Collects(s, b, two.repositories);
    OrderIsUnique(a, b);
    CollectsOnce(s, a, one.repositories, two.repositories);
  }
}
