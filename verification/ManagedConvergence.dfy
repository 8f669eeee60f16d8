/** A README apply that nothing hinders: from the reviewed plan to branches for which the next plan is empty. */
module ManagedConvergence {
  import opened Text
  import opened Permutations
  import opened ManagedText
  import opened CommitGraph
  import opened MirrorExecution
  import opened RenderReadme
  import opened ManagedPlan
  import opened ManagedBuild
  import opened ManagedPreflight
  import opened ManagedCommit
  import opened ManagedPush
  import ManagedJournal
  import Journal = ExecutionJournal

  // ---------------------------------------------------------------------
  // The pushes.
  // ---------------------------------------------------------------------

  /** During the run every push is acknowledged and nobody else moves a planned branch. */
  ghost predicate Calm(schedule: Schedule, start: nat, repos: seq<RepositoryPlan>) {
    forall k: nat :: k < |repos| ==> CalmTurn(schedule, start, repos, k)
  }

  ghost predicate CalmTurn(schedule: Schedule, start: nat, repos: seq<RepositoryPlan>, k: nat) {
    && schedule(start + k).delivery == Delivered
    && forall i :: 0 <= i < |repos| ==> TargetOf(repos[i]) !in schedule(start + k).heads
  }

  /** Every planned branch is at its reviewed base. */
  ghost predicate AtBase(w: World, repos: seq<RepositoryPlan>) {
    forall i :: 0 <= i < |repos| ==> Head(w, TargetOf(repos[i])) == Some(repos[i].baseOid)
  }

  lemma CalmPush(w: World, target: Branch, commit: Oid, lease: Oid, t: Turn)
    requires t.delivery == Delivered && target !in t.heads && Head(w, target) == Some(lease)
    ensures var push := LeasedPush(w, target, commit, lease, t);
            && push.error.None? && push.event.before == Some(lease)
            && Head(push.world, target) == push.event.after == Some(commit)
  {
    DisturbMoves(w, t);
  }

  /** After `n` pushes the first `n` branches are at their commits and the others still at their bases. */
  lemma {:induction false} CalmHeads(schedule: Schedule, start: nat, w: World, repos: seq<RepositoryPlan>,
                                     prepared: seq<PreparedCommit>, n: nat)
    requires n <= |repos| == |prepared| && AllApart(repos) && Calm(schedule, start, repos) && AtBase(w, repos)
    ensures forall i :: 0 <= i < |repos| ==>
              Head(WorldAfterPushes(schedule, start, w, repos, prepared, n), TargetOf(repos[i])) ==
              Some(if i < n then prepared[i].commitOid else repos[i].baseOid)
  {
    hide TargetOf, LeasedPush, Head, TargetKey;
    if n > 0 {
      CalmHeads(schedule, start, w, repos, prepared, n - 1);
      assert CalmTurn(schedule, start, repos, n - 1);
      var before, t := WorldAfterPushes(schedule, start, w, repos, prepared, n - 1), schedule(start + n - 1);
      var target, commit, base := TargetOf(repos[n - 1]), prepared[n - 1].commitOid, repos[n - 1].baseOid;
      CalmPush(before, target, commit, base, t);
      PushReplacesOnlyBase(before, target, commit, base, t);
      forall i | 0 <= i < |repos| && i != n - 1 ensures TargetOf(repos[i]) != target {
        TargetsApart(repos, i, n - 1);
      }
    }
  }

  lemma TargetsApart(repos: seq<RepositoryPlan>, i: nat, j: nat)
    requires AllApart(repos) && i < |repos| && j < |repos| && i != j
    ensures TargetOf(repos[i]) != TargetOf(repos[j])
  {
    hide TargetKey;
    assert i < j ==> Apart(repos[i], repos[j]);
    assert j < i ==> Apart(repos[j], repos[i]);
  }

  /** A calm run pushes every candidate, each from its reviewed base. */
  lemma CalmRunPushesAll(schedule: Schedule, start: nat, w: World, repos: seq<RepositoryPlan>,
                         prepared: seq<PreparedCommit>, results: seq<PushResult>, events: seq<Event>)
    requires PushedInOrder(schedule, start, w, repos, prepared, results, events) && AllApart(repos)
    requires Calm(schedule, start, repos) && AtBase(w, repos)
    ensures forall i :: 0 <= i < |results| ==>
              && results[i].pushed && events[i].before == Some(repos[i].baseOid)
              && events[i].after == Some(prepared[i].commitOid)
  {
    hide TargetOf, LeasedPush, Head, AllApart;
    forall i | 0 <= i < |results|
      ensures results[i].pushed && events[i].before == Some(repos[i].baseOid)
      ensures events[i].after == Some(prepared[i].commitOid)
    {
      CalmHeads(schedule, start, w, repos, prepared, i);
      assert CalmTurn(schedule, start, repos, i);
      CalmPush(WorldAfterPushes(schedule, start, w, repos, prepared, i), TargetOf(repos[i]), prepared[i].commitOid,
               repos[i].baseOid, schedule(start + i));
      assert events[i] == PushAt(schedule, start, w, repos, prepared, i).event;
    }
  }

  // ---------------------------------------------------------------------
  // The next plan.
  // ---------------------------------------------------------------------

  predicate PlannedFor(repos: seq<RepositoryPlan>, i: nat, r: Repo) {
    i < |repos| && repos[i].uid == DurableId(r)
  }

  /**
   * A later look at the same configuration: a repository of the plan is observed truly at the head of its branch, any
   * other one as before.
   */
  ghost predicate LooksAgain(s: Source, later: Source, spec: seq<Repo>, repos: seq<RepositoryPlan>, w: World,
                             o: Objects) {
    && later.sha == s.sha && later.template == s.template
    && forall k :: 0 <= k < |WithReadme(spec)| ==>
         var r := WithReadme(spec)[k];
         && ((forall i: nat :: !PlannedFor(repos, i, r)) ==> later.observe(r) == s.observe(r))
         && (forall i: nat :: PlannedFor(repos, i, r) ==> SeenAtHead(later, r, repos[i], w, o))
  }

  ghost predicate SeenAtHead(s: Source, r: Repo, planned: RepositoryPlan, w: World, o: Objects) {
    && s.observe(r).Some? && ValidObservation(s.observe(r).value) && s.observe(r).value.content.Utf8?
    && Head(w, TargetOf(planned)) == Some(s.observe(r).value.baseOid)
    && TrueOf(o, s.observe(r).value.baseOid, s.observe(r).value)
  }

  /** Where the branch is at a commit that sets the README as reviewed, nothing more is to be done. */
  lemma PushedIsUpToDate(s: Source, later: Source, r: Repo, change: RepositoryPlan, w: World, o: Objects, commit: Oid)
    requires later.template == s.template && Contributes(s, r, Some(change))
    requires SeenAtHead(later, r, change, w, o) && Head(w, TargetOf(change)) == Some(commit)
    requires |change.actions| == 1 && change.actions[0].desired.content.Some? && SetsOnlyReadme(o, change, commit)
    ensures Contributes(later, r, None)
  {
    hide ValidObservation, Renderable, Renders, TargetOf, Head;
    var template, text :| ContributesAs(s, r, template, text, Some(change));
    assert change.actions[0].desired.content == Some(Utf8(text)) by {
      hide *;
      DesiredIsText(s, r, template, text, change);
    }
    assert ContributesAs(later, r, template, text, None);
  }

  lemma DesiredIsText(s: Source, r: Repo, template: Content, text: string, change: RepositoryPlan)
    requires ContributesAs(s, r, template, text, Some(change))
    ensures |change.actions| == 1 && change.actions[0].desired.content == Some(Utf8(text))
  {
    hide ValidObservation, Renderable, Renders, DiffOf;
  }

  lemma StillUpToDate(s: Source, later: Source, r: Repo)
    requires later.template == s.template && later.observe(r) == s.observe(r) && Contributes(s, r, None)
    ensures Contributes(later, r, None)
  {
    hide ValidObservation, Renderable, Renders, DiffOf;
    var template, text :| ContributesAs(s, r, template, text, None);
    assert ContributesAs(later, r, template, text, None);
  }

  lemma SameRepo(repos: seq<Repo>, i: nat, j: nat)
    requires PlannerRepositories(repos) && i < |repos| && j < |repos| && DurableId(repos[i]) == DurableId(repos[j])
    ensures i == j
  {
    hide PlannerReady, DurableId, CanonicalKey;
    assert i < j ==> ApartRepos(repos[i], repos[j]);
    assert j < i ==> ApartRepos(repos[j], repos[i]);
  }

  /** The changes of a built plan and the repositories that have none. */
  lemma ChangeOrNone(s: Source, spec: seq<Repo>, p: Plan, k: nat) returns (i: nat)
    requires Built(s, spec, p) && k < |WithReadme(spec)|
    ensures i <= |p.repositories|
    ensures i < |p.repositories| ==>
              && Contributes(s, WithReadme(spec)[k], Some(p.repositories[i]))
              && PlannedFor(p.repositories, i, WithReadme(spec)[k])
    ensures i == |p.repositories| ==>
              && Contributes(s, WithReadme(spec)[k], None)
              && forall j: nat :: !PlannedFor(p.repositories, j, WithReadme(spec)[k])
  {
    hide Contributes, Ordered, Collects, ValidPlan, PlannerReady, DurableId, CanonicalKey;
    var repos := WithReadme(spec);
    var sorted :| multiset(sorted) == multiset(repos) && Ordered(sorted) && Collects(s, sorted, p.repositories);
    SameMembers(sorted, repos);
    assert repos[k] in sorted;
    var m: nat :| m < |sorted| && sorted[m] == repos[k];
    var c := EachContributes(s, sorted, p.repositories, m);
    if c.Some? {
      RepoHasChange(s, sorted, p.repositories, m, c.value);
      i :| 0 <= i < |p.repositories| && p.repositories[i] == c.value;
      ChangeNamesRepo(s, repos[k], c.value);
    } else {
      i := |p.repositories|;
      forall j: nat ensures !PlannedFor(p.repositories, j, repos[k]) {
        if PlannedFor(p.repositories, j, repos[k]) {
          var n := ChangeHasRepo(s, sorted, p.repositories, j);
          assert sorted[n] in repos;
          var l: nat :| l < |repos| && repos[l] == sorted[n];
          ChangeNamesRepo(s, repos[l], p.repositories[j]);
          SameRepo(repos, l, k);
          ContributesOnce(s, repos[k], None, Some(p.repositories[j]));
        }
      }
    }
  }

  /** Every branch of the plan is at a trustworthy candidate. */
  ghost predicate AtCandidates(git: Plumbing, o: Objects, sha: Digest, p: Plan, prepared: seq<PreparedCommit>,
                               w: World) {
    && AllTrustworthy(git, o, sha, p, prepared)
    && forall i :: 0 <= i < |prepared| ==> Head(w, TargetOf(p.repositories[i])) == Some(prepared[i].commitOid)
  }

  lemma {:induction false} NothingCollects(s: Source, repos: seq<Repo>)
    requires forall k :: 0 <= k < |repos| ==> Contributes(s, repos[k], None)
    ensures Collects(s, repos, [])
  {
    hide Contributes;
    if repos != [] {
      NothingCollects(s, repos[..|repos| - 1]);
    }
  }

  /** When every branch of a built plan is at its candidate, the next plan exists and is empty. */
  lemma NextPlanIsEmpty(git: Plumbing, s: Source, later: Source, spec: seq<Repo>, p: Plan,
                        prepared: seq<PreparedCommit>, w: World, o: Objects)
    requires Built(s, spec, p) && AtCandidates(git, o, s.sha, p, prepared, w)
    requires LooksAgain(s, later, spec, p.repositories, w, o)
    ensures Built(later, spec, Plan(PLAN_KIND, PLAN_VERSION, []))
  {
    hide Contributes, Ordered, Collects, ValidRepository, PlannerRepositories, SetsOnlyReadme, SeenAtHead, Head,
         TargetOf;
    var repos := WithReadme(spec);
    forall k | 0 <= k < |repos| ensures Contributes(later, repos[k], None) {
      NoMoreChange(git, s, later, spec, p, prepared, w, o, k);
    }
    var sorted :| multiset(sorted) == multiset(repos) && Ordered(sorted) && Collects(s, sorted, p.repositories);
    SameMembers(sorted, repos);
    forall k | 0 <= k < |sorted| ensures Contributes(later, sorted[k], None) {
      assert sorted[k] in repos;
    }
    NothingCollects(later, sorted);
  }

  lemma NoMoreChange(git: Plumbing, s: Source, later: Source, spec: seq<Repo>, p: Plan, prepared: seq<PreparedCommit>,
                     w: World, o: Objects, k: nat)
    requires Built(s, spec, p) && AtCandidates(git, o, s.sha, p, prepared, w)
    requires LooksAgain(s, later, spec, p.repositories, w, o) && k < |WithReadme(spec)|
    ensures Contributes(later, WithReadme(spec)[k], None)
  {
    hide Contributes, Built, ValidRepository, SetsOnlyReadme, SeenAtHead, Head, TargetOf;
    var r := WithReadme(spec)[k];
    var i := ChangeOrNone(s, spec, p, k);
    if i < |p.repositories| {
      assert TrustworthyFor(git, o, s.sha, p.repositories[i], prepared[i]);
      DesiredOf(s.sha, p.repositories[i]);
      PushedIsUpToDate(s, later, r, p.repositories[i], w, o, prepared[i].commitOid);
    } else {
      StillUpToDate(s, later, r);
    }
  }

  // ---------------------------------------------------------------------
  // The whole run.
  // ---------------------------------------------------------------------

  /**
   * An apply that nothing hinders, of a plan built from configuration, with calm remotes: it ends APPLIED with every
   * repository APPLIED, has moved every branch from its reviewed base to its candidate and no further, and the next
   * plan exists and is empty.
   */
  lemma CleanApplyConverges(p: Plan, q: ManagedJournal.Situation, git: Plumbing, was: Objects, now: Objects,
                            schedule: Schedule, start: nat, w: World, end: World, t: ManagedJournal.Trace,
                            events: seq<Event>, refused: bool, r: ManagedJournal.ApplyReport,
                            log: seq<ManagedJournal.ManagedRecord>, later: Source)
    requires Built(q.before, q.spec, p) && q.now.sha == q.before.sha && p.repositories != []
    requires ManagedJournal.Unhindered(p, q, git, was)
    requires ManagedJournal.Executed(p, q, git, was, now, schedule, start, w, end, t.prepared, t.pushes, t.error,
                                     events)
    requires ManagedJournal.Concluded(p, q, t, refused, r, log)
    requires Calm(schedule, start, p.repositories) && AtBase(w, p.repositories)
    requires LooksAgain(q.before, later, q.spec, p.repositories, end, now)
    ensures t.error.None? && r.outcome == Some(Journal.APPLIED)
    ensures |r.repositories| == |events| == |p.repositories|
    ensures forall i :: 0 <= i < |p.repositories| ==>
              && r.repositories[i].outcome == Journal.APPLIED
              && events[i].before == Some(p.repositories[i].baseOid)
              && Head(end, TargetOf(p.repositories[i])) == events[i].after == Some(t.prepared[i].commitOid)
    ensures Built(later, q.spec, Plan(PLAN_KIND, PLAN_VERSION, []))
  {
    hide Built, Calm, AtBase, LooksAgain, Contributes, TargetOf, LeasedPush, Head, ValidRepository, Trustworthy,
         ManagedJournal.Unhindered, ManagedJournal.ResultFits, ManagedJournal.ValidManagedRecord, WellFormedIds, Holds,
         WorldAfterPushes, PushAt, ManagedJournal.AllIdsAreOids, ResultFor, Apart, ManagedJournal.TellsTruth;
    BuiltIsApart(q.before, q.spec, p);
    CalmRunPushesAll(schedule, start, w, p.repositories, t.prepared, t.pushes, events);
    CalmHeads(schedule, start, w, p.repositories, t.prepared, |p.repositories|);
    NextPlanIsEmpty(git, q.before, later, q.spec, p, t.prepared, end, now);
    EachApplied(p, t, r, q, refused, log);
  }

  lemma BuiltIsApart(s: Source, spec: seq<Repo>, p: Plan)
    requires Built(s, spec, p)
    ensures AllApart(p.repositories)
  {
    hide Collects, Ordered, ValidRepository, Apart;
  }

  lemma EachApplied(p: Plan, t: ManagedJournal.Trace, r: ManagedJournal.ApplyReport, q: ManagedJournal.Situation,
                    refused: bool, log: seq<ManagedJournal.ManagedRecord>)
    requires ManagedJournal.CanHappen(p, t.prepared, t.pushes, t.error) && t.error.None? && p.repositories != []
    requires ManagedJournal.Concluded(p, q, t, refused, r, log)
    ensures r.outcome == Some(Journal.APPLIED) && |r.repositories| == |p.repositories|
    ensures forall i :: 0 <= i < |p.repositories| ==> r.repositories[i].outcome == Journal.APPLIED
  {
    hide ManagedJournal.ResultFits, ManagedJournal.ValidManagedRecord;
    ManagedJournal.AppliedExactly(p, t.prepared, t.pushes, t.error, t.record);
  }
}
