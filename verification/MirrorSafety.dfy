/** What every run of the push loop keeps, whoever else writes the remotes meanwhile. */
module MirrorSafety {
  import opened Text
  import opened Permutations
  import opened CommitGraph
  import opened PlanArtifact
  import opened MirrorPlan
  import opened MirrorPreflight
  import opened MirrorExecution

  // ---------------------------------------------------------------------
  // Every push of a run.
  // ---------------------------------------------------------------------

  /** Between two pushes a head is moved by outside writers, or by the push in between if it is that push's target. */
  lemma HeadsAfterOneMore(reaches: (Oid, Oid) -> bool, bindings: Bindings, actions: seq<PlannedAction>,
                          schedule: Schedule, start: nat, w: World, n: nat)
    requires AllBound(bindings, actions) && n < |actions|
    ensures var event := AttemptAt(reaches, bindings, actions, schedule, start, w, n).event;
            && event.target == TargetBranchOf(bindings, actions[n])
            && event.before == Moved(Head(WorldAfter(reaches, bindings, actions, schedule, start, w, n), event.target),
                                     schedule(start + n).heads, event.target)
            && forall b :: Head(WorldAfter(reaches, bindings, actions, schedule, start, w, n + 1), b)
                        == if b == event.target then event.after
                           else Moved(Head(WorldAfter(reaches, bindings, actions, schedule, start, w, n), b),
                                      schedule(start + n).heads, b)
  {
    hide PushDuring, StableId, TrackingRef;
    PushIsSafe(reaches, WorldAfter(reaches, bindings, actions, schedule, start, w, n), SourceRef(bindings, actions[n]),
               TargetBranchOf(bindings, actions[n]), LeaseOf(actions[n]), schedule(start + n));
  }

  /**
   * In every run, each push goes to its action's bound target and replaces only what that action allows:
   * the reviewed old head when forced, an ancestor of the source when not.
   */
  lemma RunIsSafe(reaches: (Oid, Oid) -> bool, bindings: Bindings, actions: seq<PlannedAction>, schedule: Schedule,
                  start: nat, w: World, results: seq<ActionResult>, events: seq<Event>, n: nat)
    requires AllBound(bindings, actions) && Ran(reaches, bindings, actions, schedule, start, w, results, events)
    requires n < |results|
    ensures events[n].target == TargetBranchOf(bindings, actions[n])
    ensures events[n].lease == if actions[n].force then Some(actions[n].expectedOldTarget) else None
    ensures SafeEvent(reaches, events[n])
    ensures results[n].index == n && results[n].action == actions[n] && results[n].outcome != Skipped
    ensures !results[n].stale
    ensures results[n].outcome == Applied ==> events[n].after.Some? && events[n].after == events[n].source
    ensures results[n].outcome == Applied ==> results[n].afterOid == actions[n].expectedSource
  {
    hide PushDuring, StableId, TrackingRef;
    PushIsSafe(reaches, WorldAfter(reaches, bindings, actions, schedule, start, w, n), SourceRef(bindings, actions[n]),
               TargetBranchOf(bindings, actions[n]), LeaseOf(actions[n]), schedule(start + n));
  }

  /** A plan without forced actions never leases, so it never rewinds a mirror. */
  lemma NoForceNoRewind(reaches: (Oid, Oid) -> bool, bindings: Bindings, actions: seq<PlannedAction>,
                        schedule: Schedule, start: nat, w: World, results: seq<ActionResult>, events: seq<Event>)
    requires AllBound(bindings, actions) && Ran(reaches, bindings, actions, schedule, start, w, results, events)
    requires forall a :: a in actions ==> !a.force
    ensures forall e :: e in events && e.before.Some? && e.before != e.after ==>
              e.after.Some? && reaches(e.before.value, e.after.value)
  {
    hide PushDuring, StableId, TrackingRef;
    forall e | e in events && e.before.Some? && e.before != e.after
      ensures e.after.Some? && reaches(e.before.value, e.after.value) {
      var n :| 0 <= n < |events| && events[n] == e;
      RunIsSafe(reaches, bindings, actions, schedule, start, w, results, events, n);
      assert actions[n] in actions;
    }
  }

  // ---------------------------------------------------------------------
  // Evidence.
  // ---------------------------------------------------------------------

  /** Nobody else fetches into a tracking ref during the run. */
  ghost predicate QuietRef(schedule: Schedule, ref: string) {
    forall k :: ref !in schedule(k).refs
  }

  /** No push target shares a tracking ref with a source. */
  predicate SeparateRefs(bindings: Bindings, actions: seq<PlannedAction>)
    requires AllBound(bindings, actions)
  {
    forall i, j :: 0 <= i < |actions| && 0 <= j < |actions| ==>
      SourceRef(bindings, actions[i]) !=
        TrackingRef(TargetBranchOf(bindings, actions[j]).remote, TargetBranchOf(bindings, actions[j]).name)
  }

  /** What outside writers alone make of a tracking ref during `n` turns: their last write, if there is one. */
  function RefDrift(schedule: Schedule, ref: string, start: nat, n: nat, was: Option<Oid>): Option<Oid> {
    if n == 0 then was
    else if ref in schedule(start + n - 1).refs then Some(schedule(start + n - 1).refs[ref])
    else RefDrift(schedule, ref, start, n - 1, was)
  }

  lemma {:induction false} QuietRefStays(schedule: Schedule, ref: string, start: nat, n: nat, was: Option<Oid>)
    requires QuietRef(schedule, ref)
    ensures RefDrift(schedule, ref, start, n, was) == was
  {
    if n > 0 {
      QuietRefStays(schedule, ref, start, n - 1, was);
    }
  }

  /** A push writes no tracking ref but its target's, and sends what outside writers last left under its own. */
  lemma PushMeetsRef(reaches: (Oid, Oid) -> bool, w: World, ref: string, target: Branch, lease: Option<Oid>, t: Turn,
                     other: string)
    ensures var push := PushDuring(reaches, w, ref, target, lease, t);
            && push.event.source == (if ref in t.refs then Some(t.refs[ref]) else RefOf(w.refs, ref))
            && (other != TrackingRef(target.remote, target.name) ==>
                  RefOf(push.world.refs, other) == if other in t.refs then Some(t.refs[other])
                                                   else RefOf(w.refs, other))
  {
    hide TrackingRef;
  }

  /** With sources apart from targets, the run itself never writes a source's tracking ref. */
  lemma {:induction false} RefDrifts(reaches: (Oid, Oid) -> bool, bindings: Bindings, actions: seq<PlannedAction>,
                                     schedule: Schedule, start: nat, w: World, n: nat, i: nat)
    requires AllBound(bindings, actions) && SeparateRefs(bindings, actions) && n <= |actions| && i < |actions|
    ensures var ref := SourceRef(bindings, actions[i]);
            RefOf(WorldAfter(reaches, bindings, actions, schedule, start, w, n).refs, ref) ==
            RefDrift(schedule, ref, start, n, RefOf(w.refs, ref))
  {
    hide StableId, TrackingRef, SourceRef, TargetBranchOf, PushDuring, RefOf;
    if n > 0 {
      RefDrifts(reaches, bindings, actions, schedule, start, w, n - 1, i);
      var a := actions[n - 1];
      PushMeetsRef(reaches, WorldAfter(reaches, bindings, actions, schedule, start, w, n - 1), SourceRef(bindings, a),
                   TargetBranchOf(bindings, a), LeaseOf(a), schedule(start + n - 1), SourceRef(bindings, actions[i]));
    }
  }

  /**
   * Every push sends what outside writers last left under its source ref, and otherwise what that ref named before
   * the run.
   */
  lemma SourceDrifts(reaches: (Oid, Oid) -> bool, bindings: Bindings, actions: seq<PlannedAction>,
                     schedule: Schedule, start: nat, w: World, n: nat)
    requires AllBound(bindings, actions) && SeparateRefs(bindings, actions) && n < |actions|
    ensures var ref := SourceRef(bindings, actions[n]);
            AttemptAt(reaches, bindings, actions, schedule, start, w, n).event.source ==
            RefDrift(schedule, ref, start, n + 1, RefOf(w.refs, ref))
  {
    hide StableId, TrackingRef, SourceRef, TargetBranchOf, PushDuring, RefOf;
    RefDrifts(reaches, bindings, actions, schedule, start, w, n, n);
    PushMeetsRef(reaches, WorldAfter(reaches, bindings, actions, schedule, start, w, n),
                 SourceRef(bindings, actions[n]),
                 TargetBranchOf(bindings, actions[n]), LeaseOf(actions[n]), schedule(start + n),
                 SourceRef(bindings, actions[n]));
  }

  /** With a quiet cache, every push sends exactly the commit its ref named before the run. */
  lemma SourceIsReviewed(reaches: (Oid, Oid) -> bool, bindings: Bindings, actions: seq<PlannedAction>,
                         schedule: Schedule, start: nat, w: World, n: nat)
    requires AllBound(bindings, actions) && SeparateRefs(bindings, actions) && n < |actions|
    requires QuietRef(schedule, SourceRef(bindings, actions[n]))
    requires SourceRef(bindings, actions[n]) in w.refs
    ensures AttemptAt(reaches, bindings, actions, schedule, start, w, n).event.source ==
              Some(w.refs[SourceRef(bindings, actions[n])])
  {
    hide StableId, TrackingRef, SourceRef, TargetBranchOf;
    SourceDrifts(reaches, bindings, actions, schedule, start, w, n);
    var ref := SourceRef(bindings, actions[n]);
    QuietRefStays(schedule, ref, start, n + 1, RefOf(w.refs, ref));
  }

  /** The recorded object ids carry no white space, as an INTENT record demands. */
  predicate PlainOids(w: World, actions: seq<PlannedAction>) {
    && (forall ref :: ref in w.refs ==> Trimmed(w.refs[ref]))
    && (forall i :: 0 <= i < |actions| ==> Trimmed(actions[i].expectedSource) && Trimmed(actions[i].expectedOldTarget))
  }

  /**
   * With a quiet cache, a preflighted run pushes only reviewed commits, and APPLIED evidence is the truth:
   * at that push the target's head became the recorded object id.
   */
  lemma EvidenceIsTrue(reaches: (Oid, Oid) -> bool, bindings: Bindings, actions: seq<PlannedAction>, schedule: Schedule,
                       start: nat, w: World, results: seq<ActionResult>, events: seq<Event>, n: nat)
    requires Passes(w.refs, bindings, actions) && AllBound(bindings, actions) && SeparateRefs(bindings, actions)
    requires Ran(reaches, bindings, actions, schedule, start, w, results, events) && n < |results|
    requires PlainOids(w, actions) && QuietRef(schedule, SourceRef(bindings, actions[n]))
    ensures events[n].source == Some(actions[n].expectedSource)
    ensures results[n].outcome == Applied ==> events[n].after == Some(results[n].afterOid)
  {
    hide PushDuring, StableId, TrackingRef, Passes, PlainOids, WorldAfter;
    PassedSource(bindings, actions, w, n);
    SourceIsReviewed(reaches, bindings, actions, schedule, start, w, n);
    RunIsSafe(reaches, bindings, actions, schedule, start, w, results, events, n);
  }

  /** What a preflight with plain object ids read under a source ref is the reviewed commit. */
  lemma PassedSource(bindings: Bindings, actions: seq<PlannedAction>, w: World, n: nat)
    requires Passes(w.refs, bindings, actions) && PlainOids(w, actions) && n < |actions|
    ensures RefOf(w.refs, SourceRef(bindings, actions[n])) == Some(actions[n].expectedSource)
  {
    hide StableId, TrackingRef, TrimSpace, Trimmed, Runnable;
    assert Current(w.refs, bindings, actions[n]);
    TrimmedStays(w.refs[SourceRef(bindings, actions[n])]);
    TrimmedStays(actions[n].expectedSource);
  }

  /**
   * In every preflighted run APPLIED evidence is the truth if and only if no outside writer had, between
   * preflight and that push, left another commit than the reviewed one under the source's tracking ref.
   */
  lemma EvidenceIsTrueExactly(reaches: (Oid, Oid) -> bool, bindings: Bindings, actions: seq<PlannedAction>,
                              schedule: Schedule, start: nat, w: World, results: seq<ActionResult>, events: seq<Event>,
                              n: nat)
    requires AllBound(bindings, actions) && SeparateRefs(bindings, actions)
    requires Ran(reaches, bindings, actions, schedule, start, w, results, events) && n < |results|
    requires results[n].outcome == Applied
    ensures var ref := SourceRef(bindings, actions[n]);
            && (events[n].after == Some(results[n].afterOid)
                <==> RefDrift(schedule, ref, start, n + 1, RefOf(w.refs, ref)) == Some(actions[n].expectedSource))
            && (Passes(w.refs, bindings, actions) && PlainOids(w, actions) ==>
                  (events[n].after == Some(results[n].afterOid)
                   <==> RefDrift(schedule, ref, start, n + 1,
                                 Some(actions[n].expectedSource)) == Some(actions[n].expectedSource)))
  {
    hide StableId, TrackingRef, Passes, PlainOids, SourceRef, TargetBranchOf;
    RunIsSafe(reaches, bindings, actions, schedule, start, w, results, events, n);
    SourceDrifts(reaches, bindings, actions, schedule, start, w, n);
    if Passes(w.refs, bindings, actions) && PlainOids(w, actions) {
      PassedSource(bindings, actions, w, n);
    }
  }

  /** The world as reviewed: both refs of an action name what its plan says, and the target's head does too. */
  function ReviewedWorld(bindings: Bindings, a: PlannedAction): World
    requires StableId(a.target) in bindings.targets
  {
    var target := TargetBranchOf(bindings, a);
    World(map[SourceRef(bindings, a) := a.expectedSource,
              TrackingRef(target.remote, target.name) := a.expectedOldTarget],
          map[target := a.expectedOldTarget])
  }

  /** One concurrent fetch of the source after preflight. */
  function FetchDuring(bindings: Bindings, a: PlannedAction, moved: Oid): Schedule {
    (k: nat) => Turn(map[], map[SourceRef(bindings, a) := moved], Delivered, "")
  }

  /**
   * When a concurrent fetch moves the source ref after a passing preflight, and what it fetched still fast-forwards
   * the target, the record names a commit that was never pushed.
   */
  lemma EvidenceCanBeFalse(bindings: Bindings, a: PlannedAction, moved: Oid)
    requires Runnable(bindings, a) && AllBound(bindings, [a]) && SeparateRefs(bindings, [a])
    requires !a.force && moved != a.expectedSource
    ensures var reaches := (x: Oid, y: Oid) => x == a.expectedOldTarget && (y == a.expectedSource || y == moved);
            var w := ReviewedWorld(bindings, a);
            var attempt := AttemptAt(reaches, bindings, [a], FetchDuring(bindings, a, moved), 0, w, 0);
            && Passes(w.refs, bindings, [a])
            && ResultOf(0, a, attempt).outcome == Applied
            && ResultOf(0, a, attempt).afterOid == a.expectedSource
            && attempt.event.after == Some(moved)
  {
    hide StableId, TrackingRef, Runnable, TrimSpace, TargetBranchOf;
    assert [a][0] == a;
    ReviewedPasses(bindings, a);
  }

  lemma ReviewedPasses(bindings: Bindings, a: PlannedAction)
    requires Runnable(bindings, a) && AllBound(bindings, [a]) && SeparateRefs(bindings, [a])
    ensures Passes(ReviewedWorld(bindings, a).refs, bindings, [a])
  {
    hide StableId, TrackingRef, Blank, TrimSpace;
    assert [a][0] == a;
  }

  // ---------------------------------------------------------------------
  // Independence.
  // ---------------------------------------------------------------------

  predicate DistinctTargets(bindings: Bindings, actions: seq<PlannedAction>)
    requires AllBound(bindings, actions)
  {
    forall i, j :: 0 <= i < j < |actions| ==>
      TargetBranchOf(bindings, actions[i]) != TargetBranchOf(bindings, actions[j])
  }

  /** Where outside writers alone take a head during `n` turns. */
  function Drift(schedule: Schedule, b: Branch, start: nat, n: nat, head: Option<Oid>): Option<Oid> {
    if n == 0 then head else Moved(Drift(schedule, b, start, n - 1, head), schedule(start + n - 1).heads, b)
  }

  /** A head that no action of a stretch targets only drifts. */
  lemma {:induction false} UntouchedHeadDrifts(reaches: (Oid, Oid) -> bool, bindings: Bindings,
                                               actions: seq<PlannedAction>, schedule: Schedule, start: nat, w: World,
                                               m: nat, n: nat, b: Branch)
    requires AllBound(bindings, actions) && m <= n <= |actions|
    requires forall k :: m <= k < n ==> TargetBranchOf(bindings, actions[k]) != b
    ensures Head(WorldAfter(reaches, bindings, actions, schedule, start, w, n), b)
         == Drift(schedule, b, start + m, n - m, Head(WorldAfter(reaches, bindings, actions, schedule, start, w, m), b))
    decreases n
  {
    hide TargetBranchOf, AttemptAt, WorldAfter, Head;
    if m < n {
      UntouchedHeadDrifts(reaches, bindings, actions, schedule, start, w, m, n - 1, b);
      HeadsAfterOneMore(reaches, bindings, actions, schedule, start, w, n - 1);
    }
  }

  /**
   * Each push meets the head its own remote drifted to, and after it that head only drifts on:
   * no other action of the run can be seen from a target.
   */
  lemma OnlyOwnRemoteMatters(reaches: (Oid, Oid) -> bool, bindings: Bindings, actions: seq<PlannedAction>,
                             schedule: Schedule, start: nat, w: World, n: nat)
    requires AllBound(bindings, actions) && DistinctTargets(bindings, actions) && n < |actions|
    ensures var attempt := AttemptAt(reaches, bindings, actions, schedule, start, w, n);
            var target := TargetBranchOf(bindings, actions[n]);
            && attempt.event.before == Drift(schedule, target, start, n + 1, Head(w, target))
            && Head(WorldAfter(reaches, bindings, actions, schedule, start, w, |actions|), target)
               == Drift(schedule, target, start + n + 1, |actions| - n - 1, attempt.event.after)
  {
    hide TargetBranchOf, AttemptAt, WorldAfter, Head;
    var target := TargetBranchOf(bindings, actions[n]);
    StartingWorld(reaches, bindings, actions, schedule, start, w);
    UntouchedHeadDrifts(reaches, bindings, actions, schedule, start, w, 0, n, target);
    HeadsAfterOneMore(reaches, bindings, actions, schedule, start, w, n);
    UntouchedHeadDrifts(reaches, bindings, actions, schedule, start, w, n + 1, |actions|, target);
  }

  lemma StartingWorld(reaches: (Oid, Oid) -> bool, bindings: Bindings, actions: seq<PlannedAction>, schedule: Schedule,
                      start: nat, w: World)
    requires AllBound(bindings, actions)
    ensures WorldAfter(reaches, bindings, actions, schedule, start, w, 0) == w
  {
  }

  // ---------------------------------------------------------------------
  // Runs nobody disturbs.
  // ---------------------------------------------------------------------

  ghost predicate Still(schedule: Schedule) {
    forall k :: schedule(k).heads == map[] && schedule(k).refs == map[]
  }

  /** How the transport answers for each target, whenever it is asked. */
  type Transport = Branch -> (Delivery, string)

  ghost predicate AnsweredBy(schedule: Schedule, start: nat, bindings: Bindings, actions: seq<PlannedAction>,
                             transport: Transport)
    requires AllBound(bindings, actions)
  {
    forall n :: 0 <= n < |actions| ==>
      transport(TargetBranchOf(bindings, actions[n])) == (schedule(start + n).delivery, schedule(start + n).message)
  }

  /** The push of one action on its own, in the world before the run. */
  function Alone(reaches: (Oid, Oid) -> bool, bindings: Bindings, a: PlannedAction, w: World,
                 answer: (Delivery, string)): (Event, Option<string>)
    requires StableId(a.target) in bindings.targets
  {
    var target, ref := TargetBranchOf(bindings, a), SourceRef(bindings, a);
    var push := Land(reaches, w, RefOf(w.refs, ref), target, LeaseOf(a), Turn(map[], map[], answer.0, answer.1));
    (push.event, push.error)
  }

  lemma {:induction false} StillDrift(schedule: Schedule, b: Branch, start: nat, n: nat, head: Option<Oid>)
    requires Still(schedule)
    ensures Drift(schedule, b, start, n, head) == head
  {
    if n > 0 {
      StillDrift(schedule, b, start, n - 1, head);
    }
  }

  /** In an undisturbed run every action fares as it would alone. */
  lemma StillAttempt(reaches: (Oid, Oid) -> bool, bindings: Bindings, actions: seq<PlannedAction>, schedule: Schedule,
                     start: nat, w: World, transport: Transport, n: nat)
    requires AllBound(bindings, actions) && SeparateRefs(bindings, actions) && DistinctTargets(bindings, actions)
    requires n < |actions|
    requires Still(schedule) && AnsweredBy(schedule, start, bindings, actions, transport)
    ensures var attempt := AttemptAt(reaches, bindings, actions, schedule, start, w, n);
            (attempt.event, attempt.error) ==
              Alone(reaches, bindings, actions[n], w, transport(TargetBranchOf(bindings, actions[n])))
  {
    hide StableId, SourceRef, TrackingRef, Disturb;
    var target := TargetBranchOf(bindings, actions[n]);
    var before := WorldAfter(reaches, bindings, actions, schedule, start, w, n);
    OnlyOwnRemoteMatters(reaches, bindings, actions, schedule, start, w, n);
    StillDrift(schedule, target, start, n + 1, Head(w, target));
    SourceDrifts(reaches, bindings, actions, schedule, start, w, n);
    QuietRefStays(schedule, SourceRef(bindings, actions[n]), start, n + 1,
                  RefOf(w.refs, SourceRef(bindings, actions[n])));
  }

  /** ... and leaves its target as that push did; every other head is as before the run. */
  lemma StillHeads(reaches: (Oid, Oid) -> bool, bindings: Bindings, actions: seq<PlannedAction>, schedule: Schedule,
                   start: nat, w: World, transport: Transport)
    requires AllBound(bindings, actions) && SeparateRefs(bindings, actions) && DistinctTargets(bindings, actions)
    requires Still(schedule) && AnsweredBy(schedule, start, bindings, actions, transport)
    ensures var final := WorldAfter(reaches, bindings, actions, schedule, start, w, |actions|);
            && (forall n :: 0 <= n < |actions| ==>
                  var target := TargetBranchOf(bindings, actions[n]);
                  Head(final, target) == Alone(reaches, bindings, actions[n], w, transport(target)).0.after)
            && (forall b ::
                  (forall n :: 0 <= n < |actions| ==> TargetBranchOf(bindings, actions[n]) != b) ==>
                    Head(final, b) == Head(w, b))
  {
    hide StableId, TargetBranchOf, AttemptAt, WorldAfter, Head, Alone, AnsweredBy, SeparateRefs, DistinctTargets;
    var final := WorldAfter(reaches, bindings, actions, schedule, start, w, |actions|);
    forall n | 0 <= n < |actions|
      ensures var target := TargetBranchOf(bindings, actions[n]);
              Head(final, target) == Alone(reaches, bindings, actions[n], w, transport(target)).0.after
    {
      var target := TargetBranchOf(bindings, actions[n]);
      OnlyOwnRemoteMatters(reaches, bindings, actions, schedule, start, w, n);
      StillAttempt(reaches, bindings, actions, schedule, start, w, transport, n);
      StillDrift(schedule, target, start + n + 1, |actions| - n - 1,
                 AttemptAt(reaches, bindings, actions, schedule, start, w, n).event.after);
    }
    StartingWorld(reaches, bindings, actions, schedule, start, w);
    forall b | forall n :: 0 <= n < |actions| ==> TargetBranchOf(bindings, actions[n]) != b
      ensures Head(final, b) == Head(w, b) {
      UntouchedHeadDrifts(reaches, bindings, actions, schedule, start, w, 0, |actions|, b);
      StillDrift(schedule, b, start, |actions|, Head(w, b));
    }
  }

  lemma PermutedShape(bindings: Bindings, actions: seq<PlannedAction>, permuted: seq<PlannedAction>)
    requires multiset(actions) == multiset(permuted) && AllBound(bindings, actions) && AllBound(bindings, permuted)
    ensures SeparateRefs(bindings, actions) ==> SeparateRefs(bindings, permuted)
    ensures DistinctTargets(bindings, actions) ==> DistinctTargets(bindings, permuted)
  {
    hide StableId, SourceRef, TrackingRef, TargetBranchOf, DistinctTargets, Map, NoDuplicates;
    SameMembers(actions, permuted);
    assert forall i :: 0 <= i < |permuted| ==> permuted[i] in actions;
    TargetsOfActions(bindings, actions);
    TargetsOfActions(bindings, permuted);
    var target := TargetsBy(bindings);
    MapOfPermutation(target, actions, permuted);
    DistinctUnderPermutation(Map(target, actions), Map(target, permuted));
  }

  function TargetsBy(bindings: Bindings): PlannedAction --> Branch {
    (a: PlannedAction) requires StableId(a.target) in bindings.targets => TargetBranchOf(bindings, a)
  }

  lemma TargetsOfActions(bindings: Bindings, actions: seq<PlannedAction>)
    requires AllBound(bindings, actions)
    ensures forall i :: 0 <= i < |actions| ==> TargetsBy(bindings).requires(actions[i])
    ensures DistinctTargets(bindings, actions) <==> NoDuplicates(Map(TargetsBy(bindings), actions))
  {
    hide StableId, TargetBranchOf, Map;
    var targets := Map(TargetsBy(bindings), actions);
    assert forall i :: 0 <= i < |actions| ==> targets[i] == TargetBranchOf(bindings, actions[i]);
  }

  /**
   * Around its own push an action meets the same in both runs: outside writers have taken its source ref and its
   * target's head to the same place by then, and the transport answers the same.
   */
  ghost predicate MeetsTheSame(bindings: Bindings, a: PlannedAction, w: World, schedule: Schedule, i: nat,
                               other: Schedule, j: nat)
    requires StableId(a.target) in bindings.targets
  {
    var ref, target := SourceRef(bindings, a), TargetBranchOf(bindings, a);
    && RefDrift(schedule, ref, 0, i + 1, RefOf(w.refs, ref)) == RefDrift(other, ref, 0, j + 1, RefOf(w.refs, ref))
    && Drift(schedule, target, 0, i + 1, Head(w, target)) == Drift(other, target, 0, j + 1, Head(w, target))
    && schedule(i).delivery == other(j).delivery && schedule(i).message == other(j).message
  }

  /** `m` turns from `i` in one run take a head where `n` turns from `j` take it in the other. */
  ghost predicate DriftsTheSame(b: Branch, schedule: Schedule, i: nat, m: nat, other: Schedule, j: nat, n: nat) {
    forall head :: Drift(schedule, b, i, m, head) == Drift(other, b, j, n, head)
  }

  /** Whatever else the two runs do, an action that meets the same fares the same. */
  lemma PermutedAttempt(reaches: (Oid, Oid) -> bool, bindings: Bindings, actions: seq<PlannedAction>,
                        permuted: seq<PlannedAction>, schedule: Schedule, other: Schedule, w: World, i: nat, j: nat)
    requires AllBound(bindings, actions) && SeparateRefs(bindings, actions) && DistinctTargets(bindings, actions)
    requires AllBound(bindings, permuted) && SeparateRefs(bindings, permuted) && DistinctTargets(bindings, permuted)
    requires i < |actions| && j < |permuted| && actions[i] == permuted[j]
    requires MeetsTheSame(bindings, actions[i], w, schedule, i, other, j)
    ensures var one, two := AttemptAt(reaches, bindings, actions, schedule, 0, w, i),
              AttemptAt(reaches, bindings, permuted, other, 0, w, j);
            && one.event == two.event && one.error == two.error
            && ResultOf(0, actions[i], one) == ResultOf(0, permuted[j], two)
  {
    hide StableId, SourceRef, TargetBranchOf, TrackingRef, PushDuring, WorldAfter;
    OnlyOwnRemoteMatters(reaches, bindings, actions, schedule, 0, w, i);
    OnlyOwnRemoteMatters(reaches, bindings, permuted, other, 0, w, j);
    SourceDrifts(reaches, bindings, actions, schedule, 0, w, i);
    SourceDrifts(reaches, bindings, permuted, other, 0, w, j);
    PushFromWhatItMeets(reaches, WorldAfter(reaches, bindings, actions, schedule, 0, w, i),
                        WorldAfter(reaches, bindings, permuted, other, 0, w, j),
                        SourceRef(bindings, actions[i]), TargetBranchOf(bindings, actions[i]), LeaseOf(actions[i]),
                        schedule(i), other(j));
  }

  /** Two pushes that meet one head and one source and are answered alike are one push. */
  lemma PushFromWhatItMeets(reaches: (Oid, Oid) -> bool, v: World, w: World, ref: string, target: Branch,
                            lease: Option<Oid>, s: Turn, t: Turn)
    requires s.delivery == t.delivery && s.message == t.message
    requires PushDuring(reaches, v, ref, target, lease, s).event.before ==
               PushDuring(reaches, w, ref, target, lease, t).event.before
    requires PushDuring(reaches, v, ref, target, lease, s).event.source ==
               PushDuring(reaches, w, ref, target, lease, t).event.source
    ensures PushDuring(reaches, v, ref, target, lease, s).event == PushDuring(reaches, w, ref, target, lease, t).event
    ensures PushDuring(reaches, v, ref, target, lease, s).error == PushDuring(reaches, w, ref, target, lease, t).error
  {
    hide TrackingRef, Disturb;
  }

  /** When outside writers treat a target alike after its push too, its final head is the same. */
  lemma PermutedTarget(reaches: (Oid, Oid) -> bool, bindings: Bindings, actions: seq<PlannedAction>,
                       permuted: seq<PlannedAction>, schedule: Schedule, other: Schedule, w: World, i: nat, j: nat)
    requires AllBound(bindings, actions) && SeparateRefs(bindings, actions) && DistinctTargets(bindings, actions)
    requires AllBound(bindings, permuted) && SeparateRefs(bindings, permuted) && DistinctTargets(bindings, permuted)
    requires i < |actions| == |permuted| && j < |permuted| && actions[i] == permuted[j]
    requires MeetsTheSame(bindings, actions[i], w, schedule, i, other, j)
    requires DriftsTheSame(TargetBranchOf(bindings, actions[i]), schedule, i + 1, |actions| - i - 1, other, j + 1,
                           |permuted| - j - 1)
    ensures var target := TargetBranchOf(bindings, actions[i]);
            Head(WorldAfter(reaches, bindings, actions, schedule, 0, w, |actions|), target) ==
            Head(WorldAfter(reaches, bindings, permuted, other, 0, w, |permuted|), target)
  {
    hide StableId, SourceRef, TargetBranchOf, AttemptAt, WorldAfter, Head, MeetsTheSame, SeparateRefs, DistinctTargets,
         Drift, ResultOf;
    PermutedAttempt(reaches, bindings, actions, permuted, schedule, other, w, i, j);
    OnlyOwnRemoteMatters(reaches, bindings, actions, schedule, 0, w, i);
    OnlyOwnRemoteMatters(reaches, bindings, permuted, other, 0, w, j);
  }

  /** A branch no action targets drifts as outside writers take it. */
  lemma UntargetedBranch(reaches: (Oid, Oid) -> bool, bindings: Bindings, actions: seq<PlannedAction>,
                         schedule: Schedule, w: World, b: Branch)
    requires AllBound(bindings, actions) && forall n :: 0 <= n < |actions| ==> TargetBranchOf(bindings, actions[n]) != b
    ensures Head(WorldAfter(reaches, bindings, actions, schedule, 0, w, |actions|), b) ==
              Drift(schedule, b, 0, |actions|, Head(w, b))
  {
    hide TargetBranchOf, WorldAfter, Head;
    StartingWorld(reaches, bindings, actions, schedule, 0, w);
    UntouchedHeadDrifts(reaches, bindings, actions, schedule, 0, w, 0, |actions|, b);
  }

  /** Every action meets the same in both orders. */
  ghost predicate AllMeetTheSame(bindings: Bindings, actions: seq<PlannedAction>, permuted: seq<PlannedAction>,
                                 w: World, schedule: Schedule, other: Schedule)
    requires AllBound(bindings, actions)
  {
    forall i, j :: 0 <= i < |actions| && 0 <= j < |permuted| && actions[i] == permuted[j] ==>
      MeetsTheSame(bindings, actions[i], w, schedule, i, other, j)
  }

  /**
   * Outside writers treat every branch alike for the rest of both runs: a target after its push, another branch
   * throughout.
   */
  ghost predicate AllDriftTheSame(bindings: Bindings, actions: seq<PlannedAction>, permuted: seq<PlannedAction>,
                                  w: World, schedule: Schedule, other: Schedule)
    requires AllBound(bindings, actions) && |permuted| == |actions|
  {
    && (forall i, j :: 0 <= i < |actions| && 0 <= j < |permuted| && actions[i] == permuted[j] ==>
          DriftsTheSame(TargetBranchOf(bindings, actions[i]), schedule, i + 1, |actions| - i - 1, other, j + 1,
                        |permuted| - j - 1))
    && (forall b :: (forall n :: 0 <= n < |actions| ==> TargetBranchOf(bindings, actions[n]) != b) ==>
          Drift(schedule, b, 0, |actions|, Head(w, b)) == Drift(other, b, 0, |actions|, Head(w, b)))
  }

  /**
   * Targets are independent, whatever outside writers do: permuting the actions permutes their events and outcomes
   * as long as each one meets the same around its own push, and then leaves the same heads as long as each branch is
   * treated alike afterwards.
   */
  lemma PermutedRun(reaches: (Oid, Oid) -> bool, bindings: Bindings, actions: seq<PlannedAction>,
                    permuted: seq<PlannedAction>, schedule: Schedule, other: Schedule, w: World)
    requires multiset(actions) == multiset(permuted) && AllBound(bindings, actions) && AllBound(bindings, permuted)
    requires SeparateRefs(bindings, actions) && DistinctTargets(bindings, actions)
    requires AllMeetTheSame(bindings, actions, permuted, w, schedule, other)
    ensures |permuted| == |actions|
    ensures forall i, j :: 0 <= i < |actions| && 0 <= j < |permuted| && actions[i] == permuted[j] ==>
              var one, two := AttemptAt(reaches, bindings, actions, schedule, 0, w, i),
                AttemptAt(reaches, bindings, permuted, other, 0, w, j);
              one.event == two.event && ResultOf(0, actions[i], one) == ResultOf(0, permuted[j], two)
    ensures AllDriftTheSame(bindings, actions, permuted, w, schedule, other) ==>
              WorldAfter(reaches, bindings, actions, schedule, 0, w, |actions|).heads ==
              WorldAfter(reaches, bindings, permuted, other, 0, w, |permuted|).heads
  {
    hide StableId, AttemptAt, WorldAfter, SeparateRefs, DistinctTargets, TargetBranchOf, MeetsTheSame, DriftsTheSame;
    PermutedShape(bindings, actions, permuted);
    SameMembers(actions, permuted);
    forall i, j | 0 <= i < |actions| && 0 <= j < |permuted| && actions[i] == permuted[j]
      ensures AttemptAt(reaches, bindings, actions, schedule, 0, w, i).event ==
                AttemptAt(reaches, bindings, permuted, other, 0, w, j).event
      ensures ResultOf(0, actions[i], AttemptAt(reaches, bindings, actions, schedule, 0, w, i)) ==
              ResultOf(0, permuted[j], AttemptAt(reaches, bindings, permuted, other, 0, w, j))
    {
      PermutedAttempt(reaches, bindings, actions, permuted, schedule, other, w, i, j);
    }
    if AllDriftTheSame(bindings, actions, permuted, w, schedule, other) {
      PermutedHeads(reaches, bindings, actions, permuted, schedule, other, w);
    }
  }

  lemma PermutedHeads(reaches: (Oid, Oid) -> bool, bindings: Bindings, actions: seq<PlannedAction>,
                      permuted: seq<PlannedAction>, schedule: Schedule, other: Schedule, w: World)
    requires multiset(actions) == multiset(permuted) && |actions| == |permuted| && AllBound(bindings, actions)
    requires AllBound(bindings, permuted)
    requires SeparateRefs(bindings, actions) && DistinctTargets(bindings, actions)
    requires SeparateRefs(bindings, permuted) && DistinctTargets(bindings, permuted)
    requires AllMeetTheSame(bindings, actions, permuted, w, schedule, other)
    requires AllDriftTheSame(bindings, actions, permuted, w, schedule, other)
    ensures WorldAfter(reaches, bindings, actions, schedule, 0, w, |actions|).heads ==
            WorldAfter(reaches, bindings, permuted, other, 0, w, |permuted|).heads
  {
    hide StableId, WorldAfter, SeparateRefs, DistinctTargets, TargetBranchOf, MeetsTheSame, DriftsTheSame, Head;
    SameMembers(actions, permuted);
    var one, two := WorldAfter(reaches, bindings, actions, schedule, 0, w, |actions|),
      WorldAfter(reaches, bindings, permuted, other, 0, w, |permuted|);
    forall b ensures Head(one, b) == Head(two, b) {
      if n :| 0 <= n < |actions| && TargetBranchOf(bindings, actions[n]) == b {
        assert actions[n] in permuted;
        var m :| 0 <= m < |permuted| && permuted[m] == actions[n];
        PermutedTarget(reaches, bindings, actions, permuted, schedule, other, w, n, m);
      } else {
        forall m | 0 <= m < |permuted| ensures TargetBranchOf(bindings, permuted[m]) != b {
          assert permuted[m] in actions;
        }
        UntargetedBranch(reaches, bindings, actions, schedule, w, b);
        UntargetedBranch(reaches, bindings, permuted, other, w, b);
      }
    }
    SameHeads(one, two);
  }

  /**
   * In runs nobody disturbs all of that holds: permuting the actions permutes their outcomes and leaves the same
   * heads.
   */
  lemma PermutedStillRun(reaches: (Oid, Oid) -> bool, bindings: Bindings, actions: seq<PlannedAction>,
                         permuted: seq<PlannedAction>, schedule: Schedule, other: Schedule, w: World,
                         transport: Transport)
    requires multiset(actions) == multiset(permuted) && AllBound(bindings, actions) && AllBound(bindings, permuted)
    requires SeparateRefs(bindings, actions) && DistinctTargets(bindings, actions)
    requires Still(schedule) && AnsweredBy(schedule, 0, bindings, actions, transport)
    requires Still(other) && AnsweredBy(other, 0, bindings, permuted, transport)
    ensures forall i, j :: 0 <= i < |actions| && 0 <= j < |permuted| && actions[i] == permuted[j] ==>
              ResultOf(0, actions[i], AttemptAt(reaches, bindings, actions, schedule, 0, w, i)) ==
              ResultOf(0, permuted[j], AttemptAt(reaches, bindings, permuted, other, 0, w, j))
    ensures WorldAfter(reaches, bindings, actions, schedule, 0, w, |actions|).heads ==
            WorldAfter(reaches, bindings, permuted, other, 0, w, |permuted|).heads
  {
    hide StableId, AttemptAt, WorldAfter, SeparateRefs, DistinctTargets, SourceRef, TargetBranchOf;
    SameMembers(actions, permuted);
    forall i, j | 0 <= i < |actions| && 0 <= j < |permuted| && actions[i] == permuted[j]
      ensures MeetsTheSame(bindings, actions[i], w, schedule, i, other, j)
      ensures DriftsTheSame(TargetBranchOf(bindings, actions[i]), schedule, i + 1, |actions| - i - 1, other, j + 1,
                            |permuted| - j - 1)
    {
      var ref, target := SourceRef(bindings, actions[i]), TargetBranchOf(bindings, actions[i]);
      QuietRefStays(schedule, ref, 0, i + 1, RefOf(w.refs, ref));
      QuietRefStays(other, ref, 0, j + 1, RefOf(w.refs, ref));
      StillEverywhere(schedule, target);
      StillEverywhere(other, target);
    }
    forall b ensures Drift(schedule, b, 0, |actions|, Head(w, b)) == Drift(other, b, 0, |actions|, Head(w, b)) {
      StillEverywhere(schedule, b);
      StillEverywhere(other, b);
    }
    PermutedRun(reaches, bindings, actions, permuted, schedule, other, w);
  }

  lemma StillEverywhere(schedule: Schedule, b: Branch)
    requires Still(schedule)
    ensures forall start: nat, n: nat, head :: Drift(schedule, b, start, n, head) == head
  {
    forall start: nat, n: nat, head ensures Drift(schedule, b, start, n, head) == head {
      StillDrift(schedule, b, start, n, head);
    }
  }

  lemma SameHeads(one: World, two: World)
    requires forall b :: Head(one, b) == Head(two, b)
    ensures one.heads == two.heads
  {
    assert forall b :: b in one.heads <==> Head(one, b).Some?;
    assert forall b :: b in two.heads <==> Head(two, b).Some?;
  }
}
