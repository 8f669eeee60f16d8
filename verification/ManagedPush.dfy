/** Leased pushes of verified README commits, in plan order, up to the first failure. */
module ManagedPush {
  import opened Text
  import opened ManagedText
  import opened CommitGraph
  import PlanArtifact
  import opened MirrorExecution
  import Safety = MirrorSafety
  import opened ManagedPlan
  import opened ManagedBuild
  import opened ManagedPreflight
  import opened ManagedCommit

  datatype PushResult = PushResult(uid: string, id: string, branch: string, baseOid: Oid, commitOid: Oid, pushed: bool)

  // ---------------------------------------------------------------------
  // One leased push.
  // ---------------------------------------------------------------------

  /** A push of a commit under a lease during one turn; heads belong to the canonical remote of each repository. */
  function LeasedPush(w: World, target: Branch, commit: Oid, lease: Oid, t: Turn): Attempt {
    Land((a: Oid, c: Oid) => false, Disturb(w, t), Some(commit), target, Some(lease), t)
  }

  class Canonical {
    const schedule: Schedule
    var world: World
    var turn: nat
    var events: seq<Event>

    constructor (schedule: Schedule, world: World)
      ensures this.schedule == schedule && this.world == world && turn == 0 && events == []
    {
      this.schedule, this.world, turn, events := schedule, world, 0, [];
    }

    method ForcePushBranchWithLease(target: Branch, commit: Oid, expectedOld: Oid) returns (error: Option<string>)
      modifies this
      ensures var push := LeasedPush(old(world), target, commit, expectedOld, schedule(old(turn)));
              world == push.world && error == push.error && events == old(events) + [push.event]
                && turn == old(turn) + 1
    {
      var push := LeasedPush(world, target, commit, expectedOld, schedule(turn));
      world, error, events, turn := push.world, push.error, events + [push.event], turn + 1;
    }
  }

  function TargetOf(planned: RepositoryPlan): Branch {
    Branch(planned.uid, planned.target.branch)
  }

  // ---------------------------------------------------------------------
  // Candidates.
  // ---------------------------------------------------------------------

  /** A prepared commit is the planned one: its parent is the reviewed base, and only README.md differs. */
  predicate Trustworthy(git: Plumbing, o: Objects, planned: RepositoryPlan, c: PreparedCommit)
    requires |planned.actions| == 1 && planned.actions[0].desired.content.Some?
  {
    && PreparedFor(c, planned) && PlanArtifact.IsOid(c.treeOid) && PlanArtifact.IsOid(c.commitOid)
    && OnBase(o, planned, c)
    && Verifies(git, o, planned, c.commitOid)
  }

  method CheckCandidate(store: Store, planned: RepositoryPlan, c: PreparedCommit) returns (ok: bool)
    requires Honest(store.git) && |planned.actions| == 1 && planned.actions[0].desired.content.Some?
    ensures ok <==> Trustworthy(store.git, store.objects, planned, c)
  {
    hide Honest, Verifies, PlanArtifact.IsOid;
    if c.uid != planned.uid || c.id != planned.id || c.baseOid != planned.baseOid {
      return false;
    }
    if !PlanArtifact.IsOid(c.treeOid) || !PlanArtifact.IsOid(c.commitOid) {
      return false;
    }
    if c.commitOid !in store.objects.commits || store.objects.commits[c.commitOid].parent != planned.baseOid {
      return false;
    }
    if store.objects.commits[c.commitOid].tree != c.treeOid {
      return false;
    }
    ok := VerifyPreparedCommit(store, planned, c.commitOid, planned.actions[0].desired.content.value);
  }

  predicate AllTrustworthy(git: Plumbing, o: Objects, sha: Digest, plan: Plan, prepared: seq<PreparedCommit>) {
    && |prepared| == |plan.repositories|
    && forall i :: 0 <= i < |prepared| ==> TrustworthyFor(git, o, sha, plan.repositories[i], prepared[i])
  }

  predicate TrustworthyFor(git: Plumbing, o: Objects, sha: Digest, planned: RepositoryPlan, c: PreparedCommit) {
    ValidRepository(sha, planned) && Trustworthy(git, o, planned, c)
  }

  // ---------------------------------------------------------------------
  // The run.
  // ---------------------------------------------------------------------

  function ResultFor(planned: RepositoryPlan, c: PreparedCommit, pushed: bool): PushResult {
    PushResult(planned.uid, planned.id, planned.target.branch, planned.baseOid, c.commitOid, pushed)
  }

  /** The world after the first `n` pushes. */
  function WorldAfterPushes(schedule: Schedule, start: nat, w: World, repos: seq<RepositoryPlan>,
                            prepared: seq<PreparedCommit>, n: nat): World
    requires n <= |repos| == |prepared|
  {
    if n == 0 then w
    else LeasedPush(WorldAfterPushes(schedule, start, w, repos, prepared, n - 1), TargetOf(repos[n - 1]),
                    prepared[n - 1].commitOid,
                    repos[n - 1].baseOid, schedule(start + n - 1)).world
  }

  function PushAt(schedule: Schedule, start: nat, w: World, repos: seq<RepositoryPlan>, prepared: seq<PreparedCommit>,
                  n: nat): Attempt
    requires n < |repos| == |prepared|
  {
    LeasedPush(WorldAfterPushes(schedule, start, w, repos, prepared, n), TargetOf(repos[n]), prepared[n].commitOid,
               repos[n].baseOid, schedule(start + n))
  }

  /** Successes are a prefix of the plan; a failure is the last thing that happens. */
  ghost predicate PushedInOrder(schedule: Schedule, start: nat, w: World, repos: seq<RepositoryPlan>,
                                prepared: seq<PreparedCommit>, results: seq<PushResult>, events: seq<Event>) {
    && |results| == |events| <= |repos| == |prepared|
    && forall i :: 0 <= i < |results| ==>
         var push := PushAt(schedule, start, w, repos, prepared, i);
         && events[i] == push.event && results[i] == ResultFor(repos[i], prepared[i], push.error.None?)
         && (i < |results| - 1 ==> results[i].pushed)
  }

  method Push(s: Source, spec: seq<Repo>, plan: Plan, prepared: seq<PreparedCommit>, store: Store, remote: Canonical)
    returns (results: seq<PushResult>, error: Option<ApplyError>)
    requires Honest(store.git)
    modifies remote
    ensures !AllTrustworthy(store.git, store.objects, s.sha, plan, prepared) ==> error == Some(OtherError)
    ensures AllTrustworthy(store.git, store.objects, s.sha, plan, prepared) && !Holds(s, spec, plan) ==>
              error == Some(if PlanVerdict(s, spec, plan) == StalePlan then StaleError else OtherError)
    ensures !(AllTrustworthy(store.git, store.objects, s.sha, plan, prepared) && Holds(s, spec, plan)) ==>
              results == [] && remote.world == old(remote.world) && remote.events == old(remote.events)
    ensures AllTrustworthy(store.git, store.objects, s.sha, plan, prepared) && Holds(s, spec, plan) ==>
              && old(remote.events) <= remote.events
              && PushedInOrder(remote.schedule, old(remote.turn), old(remote.world), plan.repositories, prepared,
                               results, remote.events[|old(remote.events)|..])
              && remote.world == WorldAfterPushes(remote.schedule, old(remote.turn), old(remote.world),
                                                  plan.repositories, prepared, |results|)
              && (error.None? <==>
                    |results| == |plan.repositories| && forall i :: 0 <= i < |results| ==> results[i].pushed)
              && (error.Some? ==> error.value == OtherError && results != [] && !results[|results| - 1].pushed)
  {
    hide PlanVerdict, Honest, Holds, AllTrustworthy, ValidPlan, PushedInOrder, WorldAfterPushes;
    results := [];
    var valid := Validate(s.sha, plan);
    NotValidNotHeld(s, spec, plan);
    SameCount(store.git, store.objects, s.sha, plan, prepared);
    if !valid || |prepared| != |plan.repositories| {
      return results, Some(OtherError);
    }
    var trustworthy := CheckCandidates(s.sha, plan, prepared, store);
    if !trustworthy {
      return results, Some(OtherError);
    }
    var verdict := ManagedPreflight.PreflightPlan(s, spec, plan);
    if verdict != Passed {
      return results, Some(if verdict == StalePlan then StaleError else OtherError);
    }
    results, error := PushCandidates(plan.repositories, prepared, remote);
  }

  /** What Prepare made, with well-formed object ids, is trustworthy. */
  lemma MadeIsTrustworthy(git: Plumbing, o: Objects, sha: Digest, plan: Plan, prepared: seq<PreparedCommit>)
    requires |prepared| == |plan.repositories|
    requires forall i :: 0 <= i < |prepared| ==>
               && ValidRepository(sha, plan.repositories[i]) && Made(git, o, plan.repositories[i], prepared[i])
               && OnBase(o, plan.repositories[i], prepared[i]) && IdsAreOids(prepared[i])
    ensures AllTrustworthy(git, o, sha, plan, prepared)
  {
    hide ValidRepository, Verifies, PlanArtifact.IsOid, PreparedFor;
    forall i | 0 <= i < |prepared| ensures TrustworthyFor(git, o, sha, plan.repositories[i], prepared[i]) {
      DesiredOf(sha, plan.repositories[i]);
    }
  }

  lemma SameCount(git: Plumbing, o: Objects, sha: Digest, plan: Plan, prepared: seq<PreparedCommit>)
    ensures AllTrustworthy(git, o, sha, plan, prepared) ==> |prepared| == |plan.repositories|
  {
    hide TrustworthyFor;
  }

  method CheckCandidates(sha: Digest, plan: Plan, prepared: seq<PreparedCommit>, store: Store) returns (ok: bool)
    requires Honest(store.git) && ValidPlan(sha, plan) && |prepared| == |plan.repositories|
    ensures ok <==> AllTrustworthy(store.git, store.objects, sha, plan, prepared)
  {
    hide Honest, Trustworthy, ValidRepository, AllApart;
    for i := 0 to |plan.repositories|
      invariant forall k :: 0 <= k < i ==>
                  TrustworthyFor(store.git, store.objects, sha, plan.repositories[k], prepared[k])
    {
      assert ValidRepository(sha, plan.repositories[i]);
      DesiredOf(sha, plan.repositories[i]);
      ok := CheckCandidate(store, plan.repositories[i], prepared[i]);
      if !ok {
        assert !TrustworthyFor(store.git, store.objects, sha, plan.repositories[i], prepared[i]);
        return false;
      }
    }
    return true;
  }

  lemma NotValidNotHeld(s: Source, spec: seq<Repo>, plan: Plan)
    ensures !ValidPlan(s.sha, plan) ==> !Holds(s, spec, plan) && PlanVerdict(s, spec, plan) == Rejected
  {
    hide ValidPlan;
  }

  method PushCandidates(repos: seq<RepositoryPlan>, prepared: seq<PreparedCommit>, remote: Canonical)
    returns (results: seq<PushResult>, error: Option<ApplyError>)
    requires |prepared| == |repos|
    modifies remote
    ensures old(remote.events) <= remote.events
    ensures PushedInOrder(remote.schedule, old(remote.turn), old(remote.world), repos, prepared, results,
                          remote.events[|old(remote.events)|..])
    ensures remote.world == WorldAfterPushes(remote.schedule, old(remote.turn), old(remote.world), repos, prepared,
                                             |results|)
    ensures error.None? <==> |results| == |repos| && forall i :: 0 <= i < |results| ==> results[i].pushed
    ensures error.Some? ==> error.value == OtherError && results != [] && !results[|results| - 1].pushed
  {
    hide LeasedPush, PushedInOrder;
    ghost var start, w, seen := remote.turn, remote.world, |remote.events|;
    results := [];
    assert remote.events[seen..] == [];
    NonePushed(remote.schedule, start, w, repos, prepared);
    for i := 0 to |repos|
      invariant |results| == i && remote.turn == start + i && old(remote.events) <= remote.events
      invariant forall k :: 0 <= k < i ==> results[k].pushed
      invariant PushedInOrder(remote.schedule, start, w, repos, prepared, results, remote.events[seen..])
      invariant remote.world == WorldAfterPushes(remote.schedule, start, w, repos, prepared, i)
    {
      ghost var before := remote.events;
      OneMorePush(remote.schedule, start, w, repos, prepared, results, remote.events[seen..]);
      var failure := remote.ForcePushBranchWithLease(TargetOf(repos[i]), prepared[i].commitOid, repos[i].baseOid);
      assert remote.events[seen..] == before[seen..] + [remote.events[|before|]];
      results := results + [ResultFor(repos[i], prepared[i], failure.None?)];
      if failure.Some? {
        assert !results[|results| - 1].pushed;
        return results, Some(OtherError);
      }
    }
    return results, None;
  }

  lemma NonePushed(schedule: Schedule, start: nat, w: World, repos: seq<RepositoryPlan>, prepared: seq<PreparedCommit>)
    requires |prepared| == |repos|
    ensures PushedInOrder(schedule, start, w, repos, prepared, [], [])
  {
  }

  lemma OneMorePush(schedule: Schedule, start: nat, w: World, repos: seq<RepositoryPlan>, prepared: seq<PreparedCommit>,
                    results: seq<PushResult>, events: seq<Event>)
    requires PushedInOrder(schedule, start, w, repos, prepared, results, events) && |results| < |repos|
    requires forall i :: 0 <= i < |results| ==> results[i].pushed
    ensures var push := PushAt(schedule, start, w, repos, prepared, |results|);
            PushedInOrder(schedule, start, w, repos, prepared,
                          results + [ResultFor(repos[|results|], prepared[|results|], push.error.None?)],
                          events + [push.event])
  {
    hide PushAt;
  }

  // ---------------------------------------------------------------------
  // What a pushed repository means.
  // ---------------------------------------------------------------------

  /**
   * A repository reported pushed now has its canonical branch at a commit whose parent is the reviewed base and whose
   * listing is the base listing with only README.md set as reviewed; the branch was at that base, or someone else had
   * put that very commit there already.
   */
  lemma PushedMeansReviewed(git: Plumbing, o: Objects, sha: Digest, plan: Plan, schedule: Schedule, start: nat,
                            w: World, prepared: seq<PreparedCommit>, results: seq<PushResult>, events: seq<Event>,
                            i: nat)
    requires AllTrustworthy(git, o, sha, plan, prepared)
    requires PushedInOrder(schedule, start, w, plan.repositories, prepared, results, events)
    requires i < |results| && results[i].pushed
    ensures var planned, commit := plan.repositories[i], results[i].commitOid;
            && results[i].uid == planned.uid && results[i].baseOid == planned.baseOid
            && events[i].target == TargetOf(planned) && events[i].after == Some(commit)
            && events[i].target.remote == planned.uid && events[i].target.name == planned.target.branch
            && (events[i].before == Some(planned.baseOid) || events[i].before == Some(commit))
            && commit in o.commits && o.commits[commit].parent == planned.baseOid
            && |planned.actions| == 1 && planned.actions[0].desired.content.Some? && SetsOnlyReadme(o, planned, commit)
  {
    hide SetsOnlyReadme, ValidAction, PlanArtifact.IsOid, WorldAfterPushes, PlanIdentifier, ValidTarget;
    assert TrustworthyFor(git, o, sha, plan.repositories[i], prepared[i]);
    DesiredOf(sha, plan.repositories[i]);
    assert Trustworthy(git, o, plan.repositories[i], prepared[i]);
    var push := PushAt(schedule, start, w, plan.repositories, prepared, i);
    assert results[i] == ResultFor(plan.repositories[i], prepared[i], push.error.None?);
  }

  /** A branch that none of the first `n` pushes targets only drifts. */
  lemma {:induction false} UntouchedBranchDrifts(schedule: Schedule, start: nat, w: World, repos: seq<RepositoryPlan>,
                                                 prepared: seq<PreparedCommit>, n: nat, b: Branch)
    requires n <= |repos| == |prepared| && forall k :: 0 <= k < n ==> TargetOf(repos[k]) != b
    ensures Head(WorldAfterPushes(schedule, start, w, repos, prepared, n), b) ==
              Safety.Drift(schedule, b, start, n, Head(w, b))
  {
    hide LeasedPush, TargetOf, Head;
    if n > 0 {
      UntouchedBranchDrifts(schedule, start, w, repos, prepared, n - 1, b);
      PushReplacesOnlyBase(WorldAfterPushes(schedule, start, w, repos, prepared, n - 1), TargetOf(repos[n - 1]),
                           prepared[n - 1].commitOid, repos[n - 1].baseOid, schedule(start + n - 1));
    }
  }

  /**
   * What a push meets is where outside writers have taken its own branch by then. It is reported exactly when it is
   * acknowledged and meets the reviewed base or its own commit; and a reported push moved the branch from exactly the
   * reviewed base if and only if outside writers had not put that commit there before it.
   */
  lemma PushedMovedFromBase(schedule: Schedule, start: nat, w: World, repos: seq<RepositoryPlan>,
                            prepared: seq<PreparedCommit>, results: seq<PushResult>, events: seq<Event>, i: nat)
    requires PushedInOrder(schedule, start, w, repos, prepared, results, events) && i < |results| && AllApart(repos)
    ensures var base, commit := repos[i].baseOid, prepared[i].commitOid;
            var met := Safety.Drift(schedule, TargetOf(repos[i]), start, i + 1, Head(w, TargetOf(repos[i])));
            && events[i].before == met
            && (results[i].pushed <==>
                  schedule(start + i).delivery == Delivered && (met == Some(base) || met == Some(commit)))
            && (results[i].pushed ==> events[i].after == Some(commit))
            && (results[i].pushed && commit != base ==> (events[i].before == Some(base) <==> met != Some(commit)))
  {
    hide WorldAfterPushes, Disturb, TargetKey, Head;
    var push, target := PushAt(schedule, start, w, repos, prepared, i), TargetOf(repos[i]);
    assert events[i] == push.event && results[i] == ResultFor(repos[i], prepared[i], push.error.None?);
    forall k | 0 <= k < i ensures TargetOf(repos[k]) != target {
      assert Apart(repos[k], repos[i]);
    }
    UntouchedBranchDrifts(schedule, start, w, repos, prepared, i, target);
    DisturbMoves(WorldAfterPushes(schedule, start, w, repos, prepared, i), schedule(start + i));
  }

  /** Another writer gets there first, with the very commit that is about to be pushed. */
  function OvertakenBy(target: Branch, commit: Oid): Schedule {
    (k: nat) => Turn(map[target := Some(commit)], map[], Delivered, "")
  }

  /**
   * Then the push is reported although it moved nothing: the branch was at the candidate and not at the reviewed
   * base.
   */
  lemma PushedWithoutMoving(planned: RepositoryPlan, c: PreparedCommit)
    requires c.commitOid != planned.baseOid
    ensures var w := World(map[], map[TargetOf(planned) := planned.baseOid]);
            var push := PushAt(OvertakenBy(TargetOf(planned), c.commitOid), 0, w, [planned], [c], 0);
            && push.error.None? && ResultFor(planned, c, push.error.None?).pushed
            && push.event.before == push.event.after == Some(c.commitOid)
            && push.event.before != Some(planned.baseOid)
  {
    hide TargetOf;
    assert [planned][0] == planned && [c][0] == c;
  }

  /**
   * Whatever happens, no branch but a planned target is moved by a push, and a failed push replaces nothing but the
   * base.
   */
  lemma PushReplacesOnlyBase(w: World, target: Branch, commit: Oid, lease: Oid, t: Turn)
    ensures var push := LeasedPush(w, target, commit, lease, t);
            && (push.event.before != push.event.after ==>
                  push.event.before == Some(lease) && push.event.after == Some(commit))
            && forall b :: Head(push.world, b) == if b == target then push.event.after
                                                  else Moved(Head(w, b), t.heads, b)
  {
    hide Land, Disturb;
    DisturbMoves(w, t);
    LandIsSafe((a: Oid, c: Oid) => false, Disturb(w, t), Some(commit), target, Some(lease), t);
  }
}
