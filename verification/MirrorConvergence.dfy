/** Observe, plan, execute: a clean run leaves every mirror equal and nothing to plan. */
module MirrorConvergence {
  import opened Text
  import opened Permutations
  import opened CommitGraph
  import opened MirrorStatus
  import opened PlanArtifact
  import opened MirrorPlan
  import opened MirrorPreflight
  import opened MirrorExecution
  import opened MirrorSafety

  // ---------------------------------------------------------------------
  // The names Git uses for the configured mirrors.
  // ---------------------------------------------------------------------

  lemma RemoteNamesDiffer(count: nat, i: nat, j: nat)
    requires i < j < count
    ensures MirrorRemoteName(count, i) != MirrorRemoteName(count, j)
  {
    hide Numeral;
    NumeralDenotes(i);
    NumeralDenotes(j);
    assert ("mirror-" + Numeral(i))[7..] == Numeral(i);
    assert ("mirror-" + Numeral(j))[7..] == Numeral(j);
  }

  lemma RemoteNameIsPlain(count: nat, i: nat)
    requires i < count
    ensures var name := MirrorRemoteName(count, i);
            TrimSpace(name) == name && !Blank(name) && name[0] == 'm'
  {
    hide Numeral;
    var name := MirrorRemoteName(count, i);
    assert IsDigit(Numeral(i)[|Numeral(i)| - 1]);
    assert !IsSpace(name[0]) && !IsSpace(name[|name| - 1]);
    TrimmedStays(name);
  }

  lemma CanonicalIsPlain()
    ensures TrimSpace("canonical") == "canonical" && !Blank("canonical")
  {
    assert !IsSpace("canonical"[0]) && !IsSpace("canonical"[8]);
    TrimmedStays("canonical");
  }

  /** Every configured target is bound to its own remote name. */
  lemma BoundToOwnName(repo: Repo, i: nat)
    requires DistinctMirrors(repo) && i < |repo.mirrors| && TargetId(repo.mirrors[i]).Some?
    ensures var target := TargetId(repo.mirrors[i]).value;
            target in Bind(repo).targets && Bind(repo).targets[target] == MirrorRemoteName(|repo.mirrors|, i)
  {
    hide TargetId, MirrorRemoteName;
    BoundTargets(repo, |repo.mirrors|, TargetId(repo.mirrors[i]).value);
  }

  // ---------------------------------------------------------------------
  // A repository freshly fetched.
  // ---------------------------------------------------------------------

  /** What Git answered about each configured mirror, in configuration order. */
  ghost predicate ObservesTruly(g: Graph, canonical: Oid, repo: Repo, observed: RepositoryResult,
                                fetched: seq<Fetched>) {
    && Observes(observed, repo) && |fetched| == |repo.mirrors|
    && forall i :: 0 <= i < |fetched| ==>
         && TargetId(repo.mirrors[i]).Some?
         && Truthful(g, canonical, fetched[i])
         && var target := TargetId(repo.mirrors[i]).value;
            target in ObservedIndex(observed) && ObservedIndex(observed)[target] == Observe(target, fetched[i])
  }

  /** A mirror's default branch, under its current remote name. */
  function MirrorBranch(repo: Repo, cache: Cache, branch: string, i: nat): Branch
    requires i < |repo.mirrors| && TargetBranch(repo, cache, branch, i).Some?
  {
    Branch(MirrorRemoteName(|repo.mirrors|, i), TargetBranch(repo, cache, branch, i).value)
  }

  /** The cache holds the canonical head and each mirror head, and the remotes still agree with it. */
  ghost predicate Fresh(repo: Repo, cache: Cache, w: World, branch: string, canonical: Oid, fetched: seq<Fetched>)
    requires |fetched| == |repo.mirrors|
  {
    && HeadBranch(cache, "canonical") == Some(branch) && branch != ""
    && w.refs == cache.refs
    && Resolve(cache, TrackingRef("canonical", branch)) == Some(canonical)
    && forall i :: 0 <= i < |fetched| ==>
         && fetched[i].Fetched?
         && TargetBranch(repo, cache, branch, i).Some?
         && var b := MirrorBranch(repo, cache, branch, i);
            Resolve(cache,
                    TrackingRef(b.remote, b.name)) == Some(fetched[i].head) && Head(w, b) == Some(fetched[i].head)
  }

  ghost predicate PlainOid(oid: Oid) {
    oid != "" && Trimmed(oid)
  }

  ghost predicate Situation(g: Graph, repo: Repo, observed: RepositoryResult, cache: Cache, w: World, branch: string,
                            canonical: Oid, fetched: seq<Fetched>) {
    && Acyclic(g) && (forall oid :: oid in g.parents ==> PlainOid(oid))
    && (forall ref :: ref in w.refs ==> Trimmed(w.refs[ref]))
    && DistinctMirrors(repo)
    && ObservesTruly(g, canonical, repo, observed, fetched)
    && Fresh(repo, cache, w, branch, canonical, fetched)
    && BuildPlan(repo, observed, cache).Some?
  }

  /** The remotes' ancestry test is ancestry in the commit graph. */
  ghost predicate Judges(reaches: (Oid, Oid) -> bool, g: Graph) {
    forall a, c :: reaches(a, c) <==> Ancestor(g, a, c)
  }

  // ---------------------------------------------------------------------
  // What the plan says in that situation.
  // ---------------------------------------------------------------------

  /** A truly observed mirror is judged by its relationship to the canonical head. */
  lemma JudgedByRelationship(g: Graph, repo: Repo, observed: RepositoryResult, canonical: Oid, fetched: seq<Fetched>,
                             i: nat)
    requires Acyclic(g) && ObservesTruly(g, canonical, repo, observed, fetched) && i < |fetched|
    requires Normalize(repo.policy).Some?
    ensures var d := Judge(repo, ObservedIndex(observed), repo.mirrors[i]);
            && d.Some?
            && (d.value.action <==> fetched[i].head != canonical)
            && (d.value.force <==> !FastForward(g, fetched[i].head, canonical))
  {
    hide TargetId, Observe, Truthful, IndexBy, Normalize, Observes, Trimmed, TrimSpace;
    var target := TargetId(repo.mirrors[i]).value;
    assert Truthful(g, canonical, fetched[i]);
    ObservedIsRelationship(g, canonical, target, fetched[i]);
    CommitsAreKnown(g, canonical, fetched[i]);
    AncestorReflexive(g, canonical);
  }

  lemma CommitsAreKnown(g: Graph, canonical: Oid, fetched: Fetched)
    requires Truthful(g, canonical, fetched)
    ensures fetched.Fetched? && canonical in g.parents && fetched.head in g.parents
  {
    hide RevListOutput;
  }

  /** The action planned for a mirror, field by field. */
  lemma PlannedFor(g: Graph, repo: Repo, observed: RepositoryResult, cache: Cache, w: World, branch: string,
                   canonical: Oid, fetched: seq<Fetched>, i: nat)
    requires Situation(g, repo, observed, cache, w, branch, canonical, fetched) && i < |fetched|
    ensures RepositoryPath(repo.canonical).Some? && Trimmed(branch)
    ensures var step := PlanMirror(repo, ObservedIndex(observed), cache, branch, i);
            && (step.Act? <==> fetched[i].head != canonical) && !step.Refused?
            && (step.Act? ==>
                  var a := step.action;
                  && StableId(a.target) == TargetId(repo.mirrors[i]).value
                  && a.kind == PUSH_BRANCH
                  && a.source.name == "canonical" && a.source.branch == branch
                  && a.target.name == MirrorRemoteName(|repo.mirrors|, i)
                  && a.target.branch == TargetBranch(repo, cache, branch, i).value
                  && a.expectedSource == canonical && a.expectedOldTarget == fetched[i].head
                  && (a.force <==> !FastForward(g, fetched[i].head, canonical)))
  {
    hide TargetId, RepositoryPath, StableId, TrackingRef, Truthful, Judge, MirrorRemoteName, TargetBranch, IndexBy,
         TrimSpace;
    var index := ObservedIndex(observed);
    BuiltFromBranch(repo, observed, cache, branch);
    JudgedByRelationship(g, repo, observed, canonical, fetched, i);
    CommitsAreKnown(g, canonical, fetched[i]);
    TrimmedStays(canonical);
    TrimmedStays(fetched[i].head);
    assert Fresh(repo, cache, w, branch, canonical, fetched);
    StepOfMirror(repo, index, cache, branch, i);
  }

  lemma BuiltFromBranch(repo: Repo, observed: RepositoryResult, cache: Cache, branch: string)
    requires BuildPlan(repo, observed, cache).Some? && HeadBranch(cache, "canonical") == Some(branch)
    ensures RepositoryPath(repo.canonical).Some? && Normalize(repo.policy).Some? && Trimmed(branch)
    ensures PlanMirrors(repo, ObservedIndex(observed), cache, branch, |repo.mirrors|) ==
              Some(BuildPlan(repo, observed, cache).value.actions)
  {
    hide RepositoryPath, PlanMirrors, IndexBy, TrimSpace;
    TrimSpaceIsTrimmed(cache.heads["canonical"]);
  }

  /** Which mirror an action of the plan is for. */
  lemma MirrorOfAction(g: Graph, repo: Repo, observed: RepositoryResult, cache: Cache, w: World, branch: string,
                       canonical: Oid, fetched: seq<Fetched>, n: nat) returns (i: nat)
    requires Situation(g, repo, observed, cache, w, branch, canonical, fetched)
    requires n < |BuildPlan(repo, observed, cache).value.actions|
    ensures RepositoryPath(repo.canonical).Some?
    ensures i < |repo.mirrors|
    ensures PlanMirror(repo, ObservedIndex(observed), cache, branch, i) ==
              Act(BuildPlan(repo, observed, cache).value.actions[n])
  {
    hide PlanMirror, BuildPlan, IndexBy, ObservesTruly, TargetId;
    BuiltFromBranch(repo, observed, cache, branch);
    var actions := BuildPlan(repo, observed, cache).value.actions;
    PlannedActionsOf(repo, ObservedIndex(observed), cache, branch, |repo.mirrors|);
    assert actions[n] in actions;
    i :| 0 <= i < |repo.mirrors| && PlanMirror(repo, ObservedIndex(observed), cache, branch, i) == Act(actions[n]);
  }

  /** Source and target of a planned action, as the run resolves them. */
  lemma ActionFacts(g: Graph, repo: Repo, observed: RepositoryResult, cache: Cache, w: World, branch: string,
                    canonical: Oid, fetched: seq<Fetched>, i: nat)
    requires Situation(g, repo, observed, cache, w, branch, canonical, fetched) && i < |fetched|
    requires fetched[i].head != canonical
    ensures RepositoryPath(repo.canonical).Some? && PlanMirror(repo, ObservedIndex(observed), cache, branch, i).Act?
    ensures var a, bindings := PlanMirror(repo, ObservedIndex(observed), cache, branch, i).action, Bind(repo);
            && StableId(a.target) in bindings.targets
            && SourceRef(bindings, a) == TrackingRef("canonical", branch)
            && TargetBranchOf(bindings, a) == MirrorBranch(repo, cache, branch, i)
            && Runnable(bindings, a) && Current(w.refs, bindings, a)
  {
    hide TargetId, RepositoryPath, StableId, TrackingRef, Truthful, MirrorRemoteName, PlanMirror, IndexBy, BuildPlan,
         TrimSpace, BindTargets;
    PlannedFor(g, repo, observed, cache, w, branch, canonical, fetched, i);
    BoundToOwnName(repo, i);
    RemoteNameIsPlain(|repo.mirrors|, i);
    CanonicalIsPlain();
    TargetBranchIsPlain(repo, cache, branch, i);
    CommitsAreKnown(g, canonical, fetched[i]);
    PlainIsNotBlank(canonical);
    PlainIsNotBlank(fetched[i].head);
    PlainIsNotBlank(branch);
    var a := PlanMirror(repo, ObservedIndex(observed), cache, branch, i).action;
    assert Fresh(repo, cache, w, branch, canonical, fetched);
    assert a.target.branch == MirrorBranch(repo, cache, branch, i).name;
  }

  lemma PlainIsNotBlank(s: string)
    requires s != "" && Trimmed(s)
    ensures !Blank(s)
  {
    assert !IsSpace(s[0]);
  }

  lemma TargetBranchIsPlain(repo: Repo, cache: Cache, branch: string, i: nat)
    requires i < |repo.mirrors| && branch != "" && Trimmed(branch) && TargetBranch(repo, cache, branch, i).Some?
    ensures !Blank(TargetBranch(repo, cache, branch, i).value)
  {
    hide TrimSpace, MirrorRemoteName;
    PlainIsNotBlank(branch);
    var head := cache.heads[MirrorRemoteName(|repo.mirrors|, i)];
    TrimSpaceIsTrimmed(head);
    if TrimSpace(head) != "" {
      PlainIsNotBlank(TrimSpace(head));
    }
  }

  /** The plan of that situation passes preflight, and its targets are distinct and apart from its source. */
  lemma PlanIsReady(g: Graph, repo: Repo, observed: RepositoryResult, cache: Cache, w: World, branch: string,
                    canonical: Oid, fetched: seq<Fetched>)
    requires Situation(g, repo, observed, cache, w, branch, canonical, fetched)
    ensures var actions, bindings := BuildPlan(repo, observed, cache).value.actions, Bind(repo);
            && Passes(w.refs, bindings, actions) && AllBound(bindings, actions)
            && SeparateRefs(bindings, actions) && DistinctTargets(bindings, actions)
  {
    hide Situation, BuildPlan, PlanMirror, Current, Runnable, SourceRef, TargetBranchOf, TrackingRef, Bind, StableId,
         IndexBy, RepositoryPath;
    SituationParts(g, repo, observed, cache, w, branch, canonical, fetched);
    var actions, bindings := BuildPlan(repo, observed, cache).value.actions, Bind(repo);
    forall n | 0 <= n < |actions|
      ensures StableId(actions[n].target) in bindings.targets && Runnable(bindings, actions[n])
      ensures Current(w.refs, bindings, actions[n])
    {
      var i := MirrorOfAction(g, repo, observed, cache, w, branch, canonical, fetched, n);
      PlannedFor(g, repo, observed, cache, w, branch, canonical, fetched, i);
      ActionFacts(g, repo, observed, cache, w, branch, canonical, fetched, i);
    }
    forall m, n | 0 <= m < |actions| && 0 <= n < |actions|
      ensures SourceRef(bindings, actions[m]) !=
                TrackingRef(TargetBranchOf(bindings, actions[n]).remote, TargetBranchOf(bindings, actions[n]).name)
    {
      var i := MirrorOfAction(g, repo, observed, cache, w, branch, canonical, fetched, m);
      PlannedFor(g, repo, observed, cache, w, branch, canonical, fetched, i);
      ActionFacts(g, repo, observed, cache, w, branch, canonical, fetched, i);
      var j := MirrorOfAction(g, repo, observed, cache, w, branch, canonical, fetched, n);
      PlannedFor(g, repo, observed, cache, w, branch, canonical, fetched, j);
      ActionFacts(g, repo, observed, cache, w, branch, canonical, fetched, j);
      SourceIsNoMirror(|repo.mirrors|, j, branch, MirrorBranch(repo, cache, branch, j).name);
    }
    forall m, n | 0 <= m < n < |actions|
      ensures TargetBranchOf(bindings, actions[m]) != TargetBranchOf(bindings, actions[n]) {
      TargetsDiffer(g, repo, observed, cache, w, branch, canonical, fetched, m, n);
    }
  }

  lemma SituationParts(g: Graph, repo: Repo, observed: RepositoryResult, cache: Cache, w: World, branch: string,
                       canonical: Oid, fetched: seq<Fetched>)
    requires Situation(g, repo, observed, cache, w, branch, canonical, fetched)
    ensures |fetched| == |repo.mirrors| && BuildPlan(repo, observed, cache).Some? && DistinctMirrors(repo) && Acyclic(g)
    ensures Fresh(repo, cache, w, branch, canonical, fetched) && ObservesTruly(g, canonical, repo, observed, fetched)
  {
    hide BuildPlan, Observes;
  }

  lemma SourceIsNoMirror(count: nat, i: nat, branch: string, name: string)
    requires i < count
    ensures TrackingRef("canonical", branch) != TrackingRef(MirrorRemoteName(count, i), name)
  {
    hide TrimSpace, MirrorRemoteName;
    CanonicalIsPlain();
    RemoteNameIsPlain(count, i);
    assert TrackingRef("canonical", branch)[13] == 'c';
    assert TrackingRef(MirrorRemoteName(count, i), name)[13] == 'm';
  }

  lemma TargetsDiffer(g: Graph, repo: Repo, observed: RepositoryResult, cache: Cache, w: World, branch: string,
                      canonical: Oid, fetched: seq<Fetched>, m: nat, n: nat)
    requires Situation(g, repo, observed, cache, w, branch, canonical, fetched)
    requires m < n < |BuildPlan(repo, observed, cache).value.actions|
    requires AllBound(Bind(repo), BuildPlan(repo, observed, cache).value.actions)
    ensures var actions := BuildPlan(repo, observed, cache).value.actions;
            TargetBranchOf(Bind(repo), actions[m]) != TargetBranchOf(Bind(repo), actions[n])
  {
    hide Situation, BuildPlan, PlanMirror, Current, Runnable, TrackingRef, Bind, StableId, IndexBy, RepositoryPath,
         MirrorRemoteName, TargetId, ObservesTruly, FastForward, PlanMirrors, TargetBranch, DistinctMirrors;
    SituationParts(g, repo, observed, cache, w, branch, canonical, fetched);
    var actions := BuildPlan(repo, observed, cache).value.actions;
    BuiltFromBranch(repo, observed, cache, branch);
    PlannedTargetsDistinct(repo, ObservedIndex(observed), cache, branch, |repo.mirrors|);
    assert Map(TargetOfAction, actions)[m] != Map(TargetOfAction, actions)[n];
    var i := MirrorOfAction(g, repo, observed, cache, w, branch, canonical, fetched, m);
    PlannedFor(g, repo, observed, cache, w, branch, canonical, fetched, i);
    ActionFacts(g, repo, observed, cache, w, branch, canonical, fetched, i);
    var j := MirrorOfAction(g, repo, observed, cache, w, branch, canonical, fetched, n);
    PlannedFor(g, repo, observed, cache, w, branch, canonical, fetched, j);
    ActionFacts(g, repo, observed, cache, w, branch, canonical, fetched, j);
    if i < j {
      RemoteNamesDiffer(|repo.mirrors|, i, j);
    } else if j < i {
      RemoteNamesDiffer(|repo.mirrors|, j, i);
    }
  }

  // ---------------------------------------------------------------------
  // Convergence.
  // ---------------------------------------------------------------------

  ghost predicate AlwaysDelivers(schedule: Schedule) {
    forall k :: schedule(k).delivery == Delivered && schedule(k).message == ""
  }

  function Reliable(): Transport {
    (b: Branch) => (Delivered, "")
  }

  /** The push of a planned action, alone in the fresh world, is accepted and puts the canonical commit in place. */
  lemma FreshPushSucceeds(g: Graph, repo: Repo, observed: RepositoryResult, cache: Cache, w: World, branch: string,
                          canonical: Oid, fetched: seq<Fetched>, reaches: (Oid, Oid) -> bool, i: nat)
    requires Situation(g, repo, observed, cache, w, branch, canonical, fetched) && Judges(reaches, g)
    requires i < |fetched| && fetched[i].head != canonical
    ensures RepositoryPath(repo.canonical).Some?
    ensures var step := PlanMirror(repo, ObservedIndex(observed), cache, branch, i);
            && step.Act? && StableId(step.action.target) in Bind(repo).targets
            && var alone := Alone(reaches, Bind(repo), step.action, w, (Delivered, ""));
               alone.1.None? && alone.0.after == Some(canonical)
  {
    hide TargetId, RepositoryPath, StableId, TrackingRef, Truthful, MirrorRemoteName, PlanMirror, IndexBy, BuildPlan,
         Bind, Current, Runnable, Observes, TargetBranch, SourceRef, TargetBranchOf;
    PlannedFor(g, repo, observed, cache, w, branch, canonical, fetched, i);
    ActionFacts(g, repo, observed, cache, w, branch, canonical, fetched, i);
    assert Fresh(repo, cache, w, branch, canonical, fetched);
  }

  /**
   * An undisturbed run of a fresh plan whose pushes are all delivered applies every action
   * and leaves every configured mirror at the canonical commit.
   */
  lemma CleanRunConverges(g: Graph, repo: Repo, observed: RepositoryResult, cache: Cache, w: World, branch: string,
                          canonical: Oid, fetched: seq<Fetched>, reaches: (Oid, Oid) -> bool, schedule: Schedule)
    requires Situation(g, repo, observed, cache, w, branch, canonical, fetched) && Judges(reaches, g)
    requires Still(schedule) && AlwaysDelivers(schedule)
    ensures var actions, bindings := BuildPlan(repo, observed, cache).value.actions, Bind(repo);
            && Passes(w.refs, bindings, actions) && AllBound(bindings, actions)
            && (forall n :: 0 <= n < |actions| ==>
                  ResultOf(n, actions[n], AttemptAt(reaches, bindings, actions, schedule, 0, w, n)).outcome == Applied)
    ensures var actions := BuildPlan(repo, observed, cache).value.actions;
            forall i :: 0 <= i < |repo.mirrors| ==>
              && TargetBranch(repo, cache, branch, i).Some?
              && Head(WorldAfter(reaches, Bind(repo), actions, schedule, 0, w, |actions|),
                      MirrorBranch(repo, cache, branch, i)) == Some(canonical)
  {
    hide Situation, BuildPlan, PlanMirror, PlanMirrors, Passes, SeparateRefs, DistinctTargets, Alone, TrackingRef, Bind,
         StableId, IndexBy, RepositoryPath,
         AttemptAt, WorldAfter, TargetBranchOf, MirrorBranch, TargetBranch, ObservesTruly;
    SituationParts(g, repo, observed, cache, w, branch, canonical, fetched);
    var actions, bindings := BuildPlan(repo, observed, cache).value.actions, Bind(repo);
    PlanIsReady(g, repo, observed, cache, w, branch, canonical, fetched);
    forall n | 0 <= n < |actions|
      ensures ResultOf(n, actions[n], AttemptAt(reaches, bindings, actions, schedule, 0, w, n)).outcome == Applied
    {
      var i := MirrorOfAction(g, repo, observed, cache, w, branch, canonical, fetched, n);
      PlannedFor(g, repo, observed, cache, w, branch, canonical, fetched, i);
      FreshPushSucceeds(g, repo, observed, cache, w, branch, canonical, fetched, reaches, i);
      StillAttempt(reaches, bindings, actions, schedule, 0, w, Reliable(), n);
    }
    forall i | 0 <= i < |repo.mirrors|
      ensures TargetBranch(repo, cache, branch, i).Some?
      ensures Head(WorldAfter(reaches, bindings, actions, schedule, 0, w, |actions|),
                   MirrorBranch(repo, cache, branch, i)) == Some(canonical)
    {
      MirrorConverges(g, repo, observed, cache, w, branch, canonical, fetched, reaches, schedule, i);
    }
  }

  lemma MirrorConverges(g: Graph, repo: Repo, observed: RepositoryResult, cache: Cache, w: World, branch: string,
                        canonical: Oid, fetched: seq<Fetched>, reaches: (Oid, Oid) -> bool, schedule: Schedule, i: nat)
    requires Situation(g, repo, observed, cache, w, branch, canonical, fetched) && Judges(reaches, g)
    requires Still(schedule) && AlwaysDelivers(schedule) && i < |repo.mirrors|
    requires AllBound(Bind(repo), BuildPlan(repo, observed, cache).value.actions)
    requires SeparateRefs(Bind(repo), BuildPlan(repo, observed, cache).value.actions)
    requires DistinctTargets(Bind(repo), BuildPlan(repo, observed, cache).value.actions)
    ensures TargetBranch(repo, cache, branch, i).Some?
    ensures var actions := BuildPlan(repo, observed, cache).value.actions;
            Head(WorldAfter(reaches, Bind(repo), actions, schedule, 0, w, |actions|),
                 MirrorBranch(repo, cache, branch, i)) == Some(canonical)
  {
    hide Situation, BuildPlan, PlanMirror, PlanMirrors, Passes, SeparateRefs, DistinctTargets, Alone, TrackingRef, Bind,
         StableId, IndexBy, RepositoryPath,
         AttemptAt, WorldAfter, TargetBranchOf, MirrorRemoteName, TargetBranch, ObservesTruly, Head;
    SituationParts(g, repo, observed, cache, w, branch, canonical, fetched);
    var actions, bindings := BuildPlan(repo, observed, cache).value.actions, Bind(repo);
    BuiltFromBranch(repo, observed, cache, branch);
    PlannedActionsOf(repo, ObservedIndex(observed), cache, branch, |repo.mirrors|);
    PlannedFor(g, repo, observed, cache, w, branch, canonical, fetched, i);
    StillHeads(reaches, bindings, actions, schedule, 0, w, Reliable());
    if fetched[i].head != canonical {
      ActionFacts(g, repo, observed, cache, w, branch, canonical, fetched, i);
      FreshPushSucceeds(g, repo, observed, cache, w, branch, canonical, fetched, reaches, i);
      var a := PlanMirror(repo, ObservedIndex(observed), cache, branch, i).action;
      var n :| 0 <= n < |actions| && actions[n] == a;
    } else {
      forall n | 0 <= n < |actions|
        ensures TargetBranchOf(bindings, actions[n]) != MirrorBranch(repo, cache, branch, i) {
        var j := MirrorOfAction(g, repo, observed, cache, w, branch, canonical, fetched, n);
        PlannedFor(g, repo, observed, cache, w, branch, canonical, fetched, j);
        ActionFacts(g, repo, observed, cache, w, branch, canonical, fetched, j);
        if i < j {
          RemoteNamesDiffer(|repo.mirrors|, i, j);
        } else if j < i {
          RemoteNamesDiffer(|repo.mirrors|, j, i);
        }
      }
    }
  }

  /** A true observation leads to an empty plan exactly when every mirror is at the canonical commit. */
  lemma PlanIsEmptyExactly(g: Graph, repo: Repo, observed: RepositoryResult, cache: Cache, canonical: Oid,
                           fetched: seq<Fetched>)
    requires Acyclic(g) && ObservesTruly(g, canonical, repo, observed, fetched)
    requires BuildPlan(repo, observed, cache).Some?
    ensures BuildPlan(repo, observed, cache).value.actions == [] <==> forall i :: 0 <= i < |fetched| ==>
              fetched[i].head == canonical
  {
    hide TargetId, RepositoryPath, StableId, TrackingRef, Truthful, Judge, IndexBy, PlanMirrors, PlanMirror, Observe;
    var branch := HeadBranch(cache, "canonical").value;
    var n, index := |repo.mirrors|, ObservedIndex(observed);
    PlannedActionsOf(repo, index, cache, branch, n);
    forall i | 0 <= i < n ensures fetched[i].Fetched? {
      CommitsAreKnown(g, canonical, fetched[i]);
    }
    forall i | 0 <= i < n ensures PlanMirror(repo, index, cache, branch, i).Act? <==> fetched[i].head != canonical {
      JudgedByRelationship(g, repo, observed, canonical, fetched, i);
      StepOfMirror(repo, index, cache, branch, i);
      CommitsAreKnown(g, canonical, fetched[i]);
    }
    var actions := BuildPlan(repo, observed, cache).value.actions;
    if actions != [] {
      assert actions[0] in actions;
    }
  }

  lemma {:induction false} NothingToPlan(repo: Repo, index: map<string, MirrorResult>, cache: Cache, branch: string,
                                         k: nat)
    requires k <= |repo.mirrors| && RepositoryPath(repo.canonical).Some?
    requires forall i :: 0 <= i < k ==> PlanMirror(repo, index, cache, branch, i).NoAction?
    ensures PlanMirrors(repo, index, cache, branch, k) == Some([])
  {
    hide PlanMirror;
    if k > 0 {
      NothingToPlan(repo, index, cache, branch, k - 1);
    }
  }

  /**
   * After an undisturbed, delivered run, whoever observes the mirrors where the run left them sees every one
   * EQUAL, and the next plan exists and is empty.
   */
  lemma NextPlanIsEmpty(g: Graph, repo: Repo, observed: RepositoryResult, cache: Cache, w: World, branch: string,
                        canonical: Oid, fetched: seq<Fetched>, reaches: (Oid, Oid) -> bool, schedule: Schedule,
                        later: RepositoryResult, refetched: seq<Fetched>, cache': Cache)
    requires Situation(g, repo, observed, cache, w, branch, canonical, fetched) && Judges(reaches, g)
    requires Still(schedule) && AlwaysDelivers(schedule)
    requires AllBound(Bind(repo), BuildPlan(repo, observed, cache).value.actions)
    requires ObservesTruly(g, canonical, repo, later, refetched) && HeadBranch(cache', "canonical") == Some(branch)
    requires forall i :: 0 <= i < |refetched| ==>
               && refetched[i].Fetched? && TargetBranch(repo, cache, branch, i).Some?
               && var actions := BuildPlan(repo, observed, cache).value.actions;
                  Head(WorldAfter(reaches, Bind(repo), actions, schedule, 0, w, |actions|),
                       MirrorBranch(repo, cache, branch, i)) == Some(refetched[i].head)
    ensures forall i :: 0 <= i < |repo.mirrors| ==>
              && TargetId(repo.mirrors[i]).Some? && TargetId(repo.mirrors[i]).value in ObservedIndex(later)
              && ObservedIndex(later)[TargetId(repo.mirrors[i]).value].state == Equal
    ensures BuildPlan(repo, later, cache') == Some(Plan(repo.id, DurableId(repo), []))
  {
    hide Situation, PlanMirror, PlanMirrors, Passes, TrackingRef, Bind, StableId, IndexBy, RepositoryPath, WorldAfter,
         MirrorBranch, TargetBranch,
         Truthful, Judge, TargetId, Observe, Relationship, Head, Normalize, FastForward, AlwaysDelivers, Map,
         NoDuplicates, BuildPlan;
    SituationParts(g, repo, observed, cache, w, branch, canonical, fetched);
    CleanRunConverges(g, repo, observed, cache, w, branch, canonical, fetched, reaches, schedule);
    BuiltFromBranch(repo, observed, cache, branch);
    var index := ObservedIndex(later);
    forall i | 0 <= i < |repo.mirrors|
      ensures index[TargetId(repo.mirrors[i]).value].state == Equal
      ensures PlanMirror(repo, index, cache', branch, i).NoAction?
    {
      assert refetched[i].head == canonical;
      ObservedIsRelationship(g, canonical, TargetId(repo.mirrors[i]).value, refetched[i]);
      EqualToItself(g, canonical);
      JudgedByRelationship(g, repo, later, canonical, refetched, i);
      NoActionWhenJudgedSo(repo, index, cache', branch, i);
    }
    NothingToPlan(repo, index, cache', branch, |repo.mirrors|);
    EmptyPlan(repo, later, cache', branch);
  }

  lemma EqualToItself(g: Graph, c: Oid)
    ensures Relationship(g, c, c) == Equal
  {
  }

  lemma NoActionWhenJudgedSo(repo: Repo, index: map<string, MirrorResult>, cache: Cache, branch: string, i: nat)
    requires i < |repo.mirrors| && RepositoryPath(repo.canonical).Some?
    requires Judge(repo, index, repo.mirrors[i]).Some? && !Judge(repo, index, repo.mirrors[i]).value.action
    ensures PlanMirror(repo, index, cache, branch, i).NoAction?
  {
    hide RepositoryPath, Judge, StableId, TrackingRef, TargetBranch;
  }

  lemma EmptyPlan(repo: Repo, observed: RepositoryResult, cache: Cache, branch: string)
    requires Observes(observed, repo) && Normalize(repo.policy).Some? && RepositoryPath(repo.canonical).Some?
    requires HeadBranch(cache, "canonical") == Some(branch) && branch != ""
    requires PlanMirrors(repo, ObservedIndex(observed), cache, branch, |repo.mirrors|) == Some([])
    ensures BuildPlan(repo, observed, cache) == Some(Plan(repo.id, DurableId(repo), []))
  {
    hide PlanMirrors, RepositoryPath, Observes, Normalize, IndexBy;
  }
}
