/** A mirror apply that nothing hinders: from the built plan through its artifact and its records to equal mirrors. */
module AuditedConvergence {
  import opened Text
  import opened CommitGraph
  import opened MirrorStatus
  import opened PlanArtifact
  import opened MirrorPlan
  import opened MirrorPreflight
  import opened MirrorExecution
  import opened ExecutionJournal
  import opened AuditedApply
  import Safety = MirrorSafety
  import Convergence = MirrorConvergence

  /** The artifact of the plan built from this observation and cache. */
  function BuiltArtifact(repo: Repo, observed: RepositoryResult, cache: Cache): Artifact
    requires BuildPlan(repo, observed, cache).Some?
  {
    FromPlans(VERSION, [BuildPlan(repo, observed, cache).value])
  }

  /**
   * The reviewed artifact is the one built from this very observation, the apply is meant and consented to, and the
   * host still shows the default branches of the cache.
   */
  ghost predicate Unhindered(q: Request, host: Host, cache: Cache) {
    && BuildPlan(q.repo, q.observed, cache).Some?
    && q.artifact == BuiltArtifact(q.repo, q.observed, cache) && ValidArtifact(q.artifact)
    && !q.dryRun && (RequiresForce(BuildPlan(q.repo, q.observed, cache).value.actions) ==> q.allowForce)
    && ValidIdentifier(q.executionId) && IsDigest(host.digest(q.artifact))
    && host.hasCache && host.heads == cache.heads
  }

  lemma PlanOfBuilt(repo: Repo, observed: RepositoryResult, cache: Cache)
    requires BuildPlan(repo, observed, cache).Some? && ValidArtifact(BuiltArtifact(repo, observed, cache))
    requires Accepts(repo, observed, BuiltArtifact(repo, observed, cache))
    ensures PlanFor(repo, BuiltArtifact(repo, observed, cache)) == Some(BuildPlan(repo, observed, cache).value)
    ensures Plans(BuiltArtifact(repo, observed, cache)) == Some([BuildPlan(repo, observed, cache).value])
  {
    hide BuildPlan, ValidArtifact, Plans, FromPlans, Observes, ActionsAgree;
    PlansRoundTrip([BuildPlan(repo, observed, cache).value]);
  }

  /** The branches of a planned action are the default branches it was planned on. */
  lemma PlannedOnDefaultBranches(g: Graph, repo: Repo, observed: RepositoryResult, cache: Cache, w: World,
                                 branch: string, canonical: Oid, fetched: seq<Fetched>)
    requires Convergence.Situation(g, repo, observed, cache, w, branch, canonical, fetched)
    ensures InScope(cache.heads, Bind(repo), BuildPlan(repo, observed, cache).value.actions)
  {
    hide Convergence.Situation, BuildPlan, PlanMirror, StableId, BindTargets, TargetId, ObservedIndex, MirrorRemoteName,
         TrimSpace, Runnable, Current, SourceRef, FastForward, RepositoryPath, TrackingRef, Blank;
    Convergence.SituationParts(g, repo, observed, cache, w, branch, canonical, fetched);
    var actions := BuildPlan(repo, observed, cache).value.actions;
    BlankIsEmptyTrimmed(cache.heads["canonical"]);
    forall n | 0 <= n < |actions| ensures OnDefaultBranches(cache.heads, Bind(repo), actions[n]) {
      var i := Convergence.MirrorOfAction(g, repo, observed, cache, w, branch, canonical, fetched, n);
      Convergence.PlannedFor(g, repo, observed, cache, w, branch, canonical, fetched, i);
      Convergence.ActionFacts(g, repo, observed, cache, w, branch, canonical, fetched, i);
    }
  }

  /** The commits of a plan built from plain object ids carry no spaces, so its artifact can be recorded. */
  lemma BuiltIsUnspaced(g: Graph, repo: Repo, observed: RepositoryResult, cache: Cache, w: World, branch: string,
                        canonical: Oid, fetched: seq<Fetched>)
    requires Convergence.Situation(g, repo, observed, cache, w, branch, canonical, fetched)
    requires ValidArtifact(BuiltArtifact(repo, observed, cache))
    ensures UnspacedOids(BuiltArtifact(repo, observed, cache))
  {
    hide Convergence.Situation, BuildPlan, PlanMirror, StableId, TargetId, ObservedIndex, MirrorRemoteName, TrimSpace,
         FastForward, RepositoryPath, ValidRef, UnsafeReason, IsOid, TargetBranch;
    Convergence.SituationParts(g, repo, observed, cache, w, branch, canonical, fetched);
    var actions, artifact := BuildPlan(repo, observed, cache).value.actions, BuiltArtifact(repo, observed, cache);
    forall n | 0 <= n < |actions|
      ensures IsOid(artifact.repositories[0].actions[n].observed) && IsOid(artifact.repositories[0].actions[n].desired)
    {
      var i := Convergence.MirrorOfAction(g, repo, observed, cache, w, branch, canonical, fetched, n);
      Convergence.PlannedFor(g, repo, observed, cache, w, branch, canonical, fetched, i);
      KnownIsPlain(g, repo, observed, cache, w, branch, canonical, fetched, i);
      TrimmedStays(canonical);
      TrimmedStays(fetched[i].head);
      assert ValidRepository(artifact.version, artifact.repositories[0]);
      assert ValidAction(artifact.version, artifact.repositories[0].actions[n]);
    }
  }

  lemma KnownIsPlain(g: Graph, repo: Repo, observed: RepositoryResult, cache: Cache, w: World, branch: string,
                     canonical: Oid, fetched: seq<Fetched>, i: nat)
    requires Convergence.Situation(g, repo, observed, cache, w, branch, canonical, fetched) && i < |fetched|
    ensures Trimmed(canonical) && Trimmed(fetched[i].head)
  {
    hide BuildPlan, TargetId, ObservedIndex, Truthful, Convergence.Fresh, Trimmed;
    Convergence.CommitsAreKnown(g, canonical, fetched[i]);
  }

  /** Nothing stops such a run before its INTENT. */
  lemma NothingStopsIt(g: Graph, q: Request, host: Host, cache: Cache, w: World, branch: string, canonical: Oid,
                       fetched: seq<Fetched>)
    requires Convergence.Situation(g, q.repo, q.observed, cache, w, branch, canonical, fetched)
    requires Unhindered(q, host, cache)
    ensures Gate(q, host, true).None? && CanIntend(host.digest, q.executionId, APPLY, q.artifact)
    ensures PlanFor(q.repo, q.artifact) == Some(BuildPlan(q.repo, q.observed, cache).value)
    ensures Plans(q.artifact) == Some([BuildPlan(q.repo, q.observed, cache).value])
  {
    hide Convergence.Situation, BuildPlan, ValidArtifact, CanIntend, Accepts, InScope, RequiresForce, UnspacedOids,
         Blank, TrimSpace, IsDigest, PlanFor, Plans;
    Convergence.SituationParts(g, q.repo, q.observed, cache, w, branch, canonical, fetched);
    BlankIsEmptyTrimmed(q.executionId);
    BuiltPlanIsAccepted(q.repo, q.observed, cache);
    PlanOfBuilt(q.repo, q.observed, cache);
    PlannedOnDefaultBranches(g, q.repo, q.observed, cache, w, branch, canonical, fetched);
    BuiltIsUnspaced(g, q.repo, q.observed, cache, w, branch, canonical, fetched);
    IntentExactly(host.digest, q.executionId, APPLY, q.artifact);
  }

  lemma {:induction false} NoneFailed(results: seq<ActionResult>)
    requires forall i :: 0 <= i < |results| ==> results[i].outcome == Applied
    ensures CountFailed(results) == 0
  {
    if results != [] {
      NoneFailed(results[..|results| - 1]);
    }
  }

  /** Every action is applied, without an error, and the valid RESULT says so entry by entry. */
  ghost predicate AppliedAndRecorded(q: Request, host: Host, actions: seq<PlannedAction>, e: Execution,
                                     events: seq<Event>) {
    && e.error.None? && |events| == |e.results| == |actions|
    && (forall n :: 0 <= n < |actions| ==> e.results[n].outcome == Applied)
    && |q.artifact.repositories| == 1
    && |IntentOf(host.digest, q.executionId, ModeOf(q), q.artifact).actions| == |e.results|
    && ValidRecord(ResultRecordOf(q, host, e))
    && |ResultRecordOf(q, host, e).actions| == |actions|
    && forall n :: 0 <= n < |actions| ==> ResultRecordOf(q, host, e).actions[n].outcome == APPLIED
  }

  lemma AllApplied(q: Request, host: Host, plan: Plan, bindings: Bindings, reaches: (Oid, Oid) -> bool,
                   schedule: Schedule, w: World, now: World, e: Execution, events: seq<Event>)
    requires !q.dryRun && CanIntend(host.digest, q.executionId, APPLY, q.artifact)
    requires Plans(q.artifact) == Some([plan])
    requires Performed(q, plan.actions, bindings, reaches, schedule, 0, w, now, e, events)
    requires Passes(w.refs, bindings, plan.actions) && AllBound(bindings, plan.actions)
    requires forall n :: 0 <= n < |plan.actions| ==>
               AttemptAt(reaches, bindings, plan.actions, schedule, 0, w, n).error.None?
    ensures AppliedAndRecorded(q, host, plan.actions, e, events)
  {
    hide CanIntend, Plans, Passes, AttemptAt, CountFailed, IntentOf, ValidRecord, Describes, Shows, WorldAfter,
         SourceRef, TargetBranchOf, SafeDiagnostic, ValidArtifact, ResultEntry;
    IntendHasPlan(host.digest, q.executionId, APPLY, q.artifact);
    EveryRunIsRecorded(q, host, bindings, reaches, schedule, 0, w, now, e, events);
    forall n | 0 <= n < |plan.actions|
      ensures e.results[n].outcome == Applied && ResultRecordOf(q, host, e).actions[n].outcome == APPLIED {
      RecordedOutcomeIsTrue(host.redact, host.digest, q.executionId, q.artifact, w.refs, bindings, reaches, schedule, 0,
                            w, e, events, n);
      assert e.results[n] == ResultOf(n, plan.actions[n],
                                      AttemptAt(reaches, bindings, plan.actions, schedule, 0, w, n));
    }
    NoneFailed(e.results);
  }

  /**
   * From observation to equal mirrors: the plan built from a true observation of a freshly fetched repository is
   * accepted as an artifact, passes every check, and has an INTENT; and when nobody else writes and every push is
   * delivered, whatever the audited run does is this: every action is APPLIED, its RESULT says so entry by entry, and
   * every configured mirror is at the canonical commit.
   */
  lemma CleanAuditedRunConverges(g: Graph, q: Request, host: Host, cache: Cache, w: World, branch: string,
                                 canonical: Oid, fetched: seq<Fetched>, reaches: (Oid, Oid) -> bool,
                                 schedule: Schedule, now: World, e: Execution, events: seq<Event>)
    requires Convergence.Situation(g, q.repo, q.observed, cache, w, branch, canonical, fetched)
    requires Unhindered(q, host, cache) && Convergence.Judges(reaches, g)
    requires Safety.Still(schedule) && Convergence.AlwaysDelivers(schedule)
    ensures Gate(q, host, true).None?
    ensures PlanFor(q.repo, q.artifact) == Some(BuildPlan(q.repo, q.observed, cache).value)
    ensures var actions := BuildPlan(q.repo, q.observed, cache).value.actions;
            Performed(q, actions, Bind(q.repo), reaches, schedule, 0, w, now, e, events) ==>
              && AppliedAndRecorded(q, host, actions, e, events)
              && (forall i :: 0 <= i < |q.repo.mirrors| ==>
                    && TargetBranch(q.repo, cache, branch, i).Some?
                    && Head(now, Convergence.MirrorBranch(q.repo, cache, branch, i)) == Some(canonical))
  {
    hide Convergence.Situation, BuildPlan, Gate, CanIntend, PlanFor, Plans, Bind, Passes, WorldAfter, AttemptAt,
         TargetBranch, Convergence.MirrorBranch, Head, Safety.Still, Convergence.AlwaysDelivers, Convergence.Judges,
         Unhindered, AppliedAndRecorded, Ran, SourceRef, TargetBranchOf, CountFailed;
    NothingStopsIt(g, q, host, cache, w, branch, canonical, fetched);
    NotDry(q, host, cache);
    Convergence.SituationParts(g, q.repo, q.observed, cache, w, branch, canonical, fetched);
    Convergence.CleanRunConverges(g, q.repo, q.observed, cache, w, branch, canonical, fetched, reaches, schedule);
    if Performed(q, BuildPlan(q.repo, q.observed, cache).value.actions, Bind(q.repo), reaches, schedule, 0, w, now, e,
                 events) {
      AllApplied(q, host, BuildPlan(q.repo, q.observed, cache).value, Bind(q.repo), reaches, schedule, w, now, e,
                 events);
    }
  }

  lemma NotDry(q: Request, host: Host, cache: Cache)
    requires Unhindered(q, host, cache)
    ensures !q.dryRun && ModeOf(q) == APPLY
  {
  }
}
