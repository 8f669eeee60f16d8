/** Reconciliation side effects: complete preflight, then independent pushes against remotes others also write. */
module MirrorExecution {
  import opened Text
  import opened CommitGraph
  import opened PlanArtifact
  import opened MirrorPlan
  import opened MirrorPreflight

  // ---------------------------------------------------------------------
  // The world a run acts on.
  // ---------------------------------------------------------------------

  datatype Branch = Branch(remote: string, name: string)

  /** Tracking refs in the repository's own cache, and the branch heads of the remotes. */
  datatype World = World(refs: map<string, Oid>, heads: map<Branch, Oid>)

  /** A push is acknowledged, refused without effect, or takes effect although its sender sees an error. */
  datatype Delivery = Delivered | RefusedDelivery | Unacknowledged

  /** What happens around one push: outside writers first, then the transport. */
  datatype Turn = Turn(heads: map<Branch, Option<Oid>>, refs: map<string, Oid>, delivery: Delivery, message: string)

  /** One turn for each push of a run. */
  type Schedule = nat -> Turn

  function Head(w: World, b: Branch): Option<Oid> {
    if b in w.heads then Some(w.heads[b]) else None
  }

  function Moved(head: Option<Oid>, moves: map<Branch, Option<Oid>>, b: Branch): Option<Oid> {
    if b in moves then moves[b] else head
  }

  function Disturb(w: World, t: Turn): (w': World)
    ensures forall b :: Head(w', b) == Moved(Head(w, b), t.heads, b)
  {
    World(w.refs + t.refs,
          map b | b in w.heads.Keys + t.heads.Keys
            && Moved(Head(w, b), t.heads, b).Some? :: Moved(Head(w, b), t.heads, b).value)
  }

  /**
   * Git's push rule. An up-to-date push always succeeds; a leased push needs the leased head;
   * a plain push creates the branch or fast-forwards it.
   */
  predicate Allowed(reaches: (Oid, Oid) -> bool, head: Option<Oid>, source: Oid, lease: Option<Oid>) {
    || head == Some(source)
    || (if lease.Some? then head == lease else head.None? || reaches(head.value, source))
  }

  /** One push as the remote saw it. */
  datatype Event = Event(target: Branch, source: Option<Oid>, lease: Option<Oid>, before: Option<Oid>,
                         after: Option<Oid>)

  datatype Attempt = Attempt(world: World, event: Event, error: Option<string>)

  function SourceRef(bindings: Bindings, a: PlannedAction): string {
    TrackingRef(bindings.source, a.source.branch)
  }

  function TargetBranchOf(bindings: Bindings, a: PlannedAction): Branch
    requires StableId(a.target) in bindings.targets
  {
    Branch(bindings.targets[StableId(a.target)], a.target.branch)
  }

  function LeaseOf(a: PlannedAction): Option<Oid> {
    if a.force then Some(a.expectedOldTarget) else None
  }

  /** A push of a commit to `target`, answered by a turn, among the heads as they are by then. */
  function Land(reaches: (Oid, Oid) -> bool, w: World, source: Option<Oid>, target: Branch, lease: Option<Oid>,
                t: Turn): Attempt {
    var before := Head(w, target);
    if source.None? || t.delivery == RefusedDelivery || !Allowed(reaches, before, source.value, lease) then
      Attempt(w, Event(target, source, lease, before, before), Some(t.message))
    else
      Attempt(w.(heads := w.heads[target := source.value]), Event(target, source, lease, before, source),
              if t.delivery == Unacknowledged then Some(t.message) else None)
  }

  function RefOf(refs: map<string, Oid>, ref: string): Option<Oid> {
    if ref in refs then Some(refs[ref]) else None
  }

  /** A push of what `ref` names to `target` during one turn; an acknowledged one updates the target's tracking ref. */
  function PushDuring(reaches: (Oid, Oid) -> bool, w: World, ref: string, target: Branch, lease: Option<Oid>,
                      t: Turn): Attempt {
    var seen := Disturb(w, t);
    var push := Land(reaches, seen, RefOf(seen.refs, ref), target, lease, t);
    if push.error.Some? then push
    else
      var tracking := TrackingRef(target.remote, target.name);
      push.(world := push.world.(refs := push.world.refs[tracking := push.event.source.value]))
  }

  /** What a push may replace: nothing, the leased head, or an ancestor of what it writes. */
  predicate SafeEvent(reaches: (Oid, Oid) -> bool, e: Event) {
    e.before != e.after ==>
      && e.source.Some? && e.after == e.source
      && (if e.lease.Some? then e.before == e.lease else e.before.None? || reaches(e.before.value, e.source.value))
  }

  lemma LandIsSafe(reaches: (Oid, Oid) -> bool, w: World, source: Option<Oid>, target: Branch, lease: Option<Oid>,
                   t: Turn)
    ensures var push := Land(reaches, w, source, target, lease, t);
            && push.event.target == target && push.event.source == source && push.event.lease == lease
            && push.event.before == Head(w, target) && push.world.refs == w.refs
            && (forall b :: Head(push.world, b) == if b == target then push.event.after else Head(w, b))
            && SafeEvent(reaches, push.event)
            && (push.error.None? ==> source.Some? && push.event.after == source)
  {
  }

  /** A push touches only its target, replaces only what it may, and an acknowledged one left its source there. */
  lemma PushIsSafe(reaches: (Oid, Oid) -> bool, w: World, ref: string, target: Branch, lease: Option<Oid>, t: Turn)
    ensures var push := PushDuring(reaches, w, ref, target, lease, t);
            && push.event.target == target && push.event.lease == lease
            && push.event.before == Moved(Head(w, target), t.heads, target)
            && Head(push.world, target) == push.event.after
            && (forall b :: b != target ==> Head(push.world, b) == Moved(Head(w, b), t.heads, b))
            && SafeEvent(reaches, push.event)
            && (push.error.None? ==> push.event.source.Some? && push.event.after == push.event.source)
  {
    hide TrackingRef, Disturb, Land, SafeEvent;
    var seen := Disturb(w, t);
    DisturbMoves(w, t);
    LandIsSafe(reaches, seen, RefOf(seen.refs, ref), target, lease, t);
  }

  lemma DisturbMoves(w: World, t: Turn)
    ensures forall b :: Head(Disturb(w, t), b) == Moved(Head(w, b), t.heads, b)
  {
  }

  /** Git as the executor uses it; every push is answered by the next turn of the schedule. */
  class Git {
    const reaches: (Oid, Oid) -> bool
    const schedule: Schedule
    var world: World
    var turn: nat
    var events: seq<Event>

    constructor (reaches: (Oid, Oid) -> bool, schedule: Schedule, world: World)
      ensures this.reaches == reaches && this.schedule == schedule
      ensures this.world == world && turn == 0 && events == []
    {
      this.reaches, this.schedule, this.world, turn, events := reaches, schedule, world, 0, [];
    }

    method ResolveRevision(ref: string) returns (oid: Option<Oid>)
      ensures oid == if ref in world.refs then Some(world.refs[ref]) else None
    {
      return if ref in world.refs then Some(world.refs[ref]) else None;
    }

    /** Creates or fast-forwards the target, whatever moved before, and touches no other head. */
    method PushBranch(ref: string, target: Branch) returns (error: Option<string>)
      modifies this
      ensures var push := PushDuring(reaches, old(world), ref, target, None, schedule(old(turn)));
              world == push.world && error == push.error && events == old(events) + [push.event]
                && turn == old(turn) + 1
      ensures var e := events[|events| - 1];
              && e.target == target && e.lease == None
              && Head(world, target) == e.after
              && (e.after != e.before ==>
                    e.after == e.source && (e.before.None?
                                            || (e.source.Some? && reaches(e.before.value, e.source.value))))
              && (error.None? ==> e.source.Some? && e.after == e.source)
      ensures forall b :: b != target ==> Head(world, b) == Moved(Head(old(world), b), schedule(old(turn)).heads, b)
    {
      PushIsSafe(reaches, world, ref, target, None, schedule(turn));
      hide PushDuring, Moved;
      var push := PushDuring(reaches, world, ref, target, None, schedule(turn));
      world, error, events, turn := push.world, push.error, events + [push.event], turn + 1;
    }

    /** Replaces the leased head and nothing else, whatever moved before, and touches no other head. */
    method ForcePushBranchWithLease(ref: string, target: Branch, expectedOld: Oid) returns (error: Option<string>)
      modifies this
      ensures var push := PushDuring(reaches, old(world), ref, target, Some(expectedOld), schedule(old(turn)));
              world == push.world && error == push.error && events == old(events) + [push.event]
                && turn == old(turn) + 1
      ensures var e := events[|events| - 1];
              && e.target == target && e.lease == Some(expectedOld)
              && Head(world, target) == e.after
              && (e.after != e.before ==> e.after == e.source && e.before == Some(expectedOld))
              && (error.None? ==> e.source.Some? && e.after == e.source)
      ensures forall b :: b != target ==> Head(world, b) == Moved(Head(old(world), b), schedule(old(turn)).heads, b)
    {
      PushIsSafe(reaches, world, ref, target, Some(expectedOld), schedule(turn));
      hide PushDuring, Moved;
      var push := PushDuring(reaches, world, ref, target, Some(expectedOld), schedule(turn));
      world, error, events, turn := push.world, push.error, events + [push.event], turn + 1;
    }
  }

  // ---------------------------------------------------------------------
  // Results.
  // ---------------------------------------------------------------------

  datatype Outcome = Applied | Failed | Skipped

  datatype ActionResult = ActionResult(
    index: nat, action: PlannedAction, outcome: Outcome, afterOid: Oid, stale: bool, error: string)

  datatype ExecutionError = InvalidArtifact | PreflightFailed(index: nat, stale: bool) | PushesFailed(count: nat)

  function AllSkipped(actions: seq<PlannedAction>): (r: seq<ActionResult>)
    ensures |r| == |actions| && forall i :: 0 <= i < |r| ==> r[i] == ActionResult(i, actions[i], Skipped, "", false, "")
  {
    seq(|actions|, i requires 0 <= i < |actions| => ActionResult(i, actions[i], Skipped, "", false, ""))
  }

  predicate AllApplied(results: seq<ActionResult>) {
    results != [] && forall i :: 0 <= i < |results| ==> results[i].outcome == Applied
  }

  function CountFailed(results: seq<ActionResult>): nat {
    if results == [] then 0
    else CountFailed(results[..|results| - 1]) + (if results[|results| - 1].outcome == Failed then 1 else 0)
  }

  // ---------------------------------------------------------------------
  // Preflight.
  // ---------------------------------------------------------------------

  predicate WellFormedAction(a: PlannedAction) {
    && a.kind == PUSH_BRANCH
    && !Blank(a.source.name) && !Blank(a.source.branch) && !Blank(a.target.name) && !Blank(a.target.branch)
    && !Blank(a.expectedSource) && !Blank(a.expectedOldTarget)
  }

  predicate Bound(bindings: Bindings, a: PlannedAction) {
    !Blank(bindings.source) && StableId(a.target) in bindings.targets && !Blank(bindings.targets[StableId(a.target)])
  }

  predicate Runnable(bindings: Bindings, a: PlannedAction) {
    WellFormedAction(a) && Bound(bindings, a)
  }

  predicate RefIs(refs: map<string, Oid>, ref: string, expected: string) {
    ref in refs && TrimSpace(refs[ref]) == TrimSpace(expected)
  }

  /** Both refs of an action still resolve, in the cache, to what was reviewed. */
  predicate Current(refs: map<string, Oid>, bindings: Bindings, a: PlannedAction)
    requires Runnable(bindings, a)
  {
    && RefIs(refs, SourceRef(bindings, a), a.expectedSource)
    && RefIs(refs, TrackingRef(bindings.targets[StableId(a.target)], a.target.branch), a.expectedOldTarget)
  }

  /** Preflight passes every action or names the first that fails; malformed ones are reported before stale ones. */
  predicate Passes(refs: map<string, Oid>, bindings: Bindings, actions: seq<PlannedAction>) {
    forall i :: 0 <= i < |actions| ==> Runnable(bindings, actions[i]) && Current(refs, bindings, actions[i])
  }

  predicate FirstMalformed(bindings: Bindings, actions: seq<PlannedAction>, i: nat) {
    i < |actions| && !Runnable(bindings, actions[i]) && forall k :: 0 <= k < i ==> Runnable(bindings, actions[k])
  }

  predicate FirstStale(refs: map<string, Oid>, bindings: Bindings, actions: seq<PlannedAction>, i: nat) {
    && i < |actions| && (forall k :: 0 <= k < |actions| ==> Runnable(bindings, actions[k]))
    && !Current(refs, bindings, actions[i]) && forall k :: 0 <= k < i ==> Current(refs, bindings, actions[k])
  }

  datatype Execution = Execution(results: seq<ActionResult>, error: Option<ExecutionError>)

  function FailPreflight(actions: seq<PlannedAction>, i: nat, stale: bool): Execution
    requires i < |actions|
  {
    var message := if stale then "stale action" else "invalid action";
    Execution(AllSkipped(actions)[i := ActionResult(i, actions[i], Failed, "", stale, message)],
              Some(PreflightFailed(i, stale)))
  }

  /** What preflight reports, as a relation to the cache it read. */
  ghost predicate Preflights(refs: map<string, Oid>, bindings: Bindings, actions: seq<PlannedAction>, e: Execution) {
    match e.error
    case None => Passes(refs, bindings, actions) && e.results == AllSkipped(actions)
    case Some(PreflightFailed(i, false)) => FirstMalformed(bindings, actions, i)
      && e == FailPreflight(actions, i, false)
    case Some(PreflightFailed(i, true)) => FirstStale(refs, bindings, actions, i)
      && e == FailPreflight(actions, i, true)
    case _ => false
  }

  method PreflightPlan(actions: seq<PlannedAction>, git: Git, bindings: Bindings) returns (e: Execution)
    ensures Preflights(git.world.refs, bindings, actions, e)
  {
    hide Blank, WellFormedAction, StableId, AllSkipped, Current, Bound;
    var results := AllSkipped(actions);
    for i := 0 to |actions|
      invariant forall k :: 0 <= k < i ==> Runnable(bindings, actions[k])
    {
      if !WellFormedAction(actions[i]) || !Bound(bindings, actions[i]) {
        return FailPreflight(actions, i, false);
      }
    }
    for i := 0 to |actions|
      invariant forall k :: 0 <= k < i ==> Current(git.world.refs, bindings, actions[k])
    {
      var current := ValidateCurrentRefs(actions[i], git, bindings);
      if !current {
        return FailPreflight(actions, i, true);
      }
    }
    return Execution(results, None);
  }

  method ValidateCurrentRefs(a: PlannedAction, git: Git, bindings: Bindings) returns (current: bool)
    requires Runnable(bindings, a)
    ensures current <==> Current(git.world.refs, bindings, a)
  {
    hide TrimSpace, Blank;
    var source := git.ResolveRevision(SourceRef(bindings, a));
    if source.None? || TrimSpace(source.value) != TrimSpace(a.expectedSource) {
      return false;
    }
    var target := git.ResolveRevision(TrackingRef(bindings.targets[StableId(a.target)], a.target.branch));
    return target.Some? && TrimSpace(target.value) == TrimSpace(a.expectedOldTarget);
  }

  // ---------------------------------------------------------------------
  // The push loop.
  // ---------------------------------------------------------------------

  function Try(reaches: (Oid, Oid) -> bool, bindings: Bindings, a: PlannedAction, w: World, t: Turn): Attempt
    requires StableId(a.target) in bindings.targets
  {
    PushDuring(reaches, w, SourceRef(bindings, a), TargetBranchOf(bindings, a), LeaseOf(a), t)
  }

  function ResultOf(i: nat, a: PlannedAction, attempt: Attempt): ActionResult {
    if attempt.error.Some? then ActionResult(i, a, Failed, "", false, attempt.error.value)
    else ActionResult(i, a, Applied, a.expectedSource, false, "")
  }

  /** Evidence carries the action and its number, and the reviewed commit of an acknowledged push, or Git's message. */
  lemma ResultSays(i: nat, a: PlannedAction, attempt: Attempt)
    ensures var r := ResultOf(i, a, attempt);
            && r.index == i && r.action == a && !r.stale
            && (r.outcome == Applied <==> attempt.error.None?) && (r.outcome == Failed <==> attempt.error.Some?)
            && r.afterOid == (if attempt.error.None? then a.expectedSource else "")
            && r.error == (if attempt.error.Some? then attempt.error.value else "")
  {
  }

  predicate AllBound(bindings: Bindings, actions: seq<PlannedAction>) {
    forall i :: 0 <= i < |actions| ==> StableId(actions[i].target) in bindings.targets
  }

  /** The world after the first `n` pushes of a run that starts at turn `start`. */
  function WorldAfter(reaches: (Oid, Oid) -> bool, bindings: Bindings, actions: seq<PlannedAction>, schedule: Schedule,
                      start: nat, w: World, n: nat): World
    requires n <= |actions| && AllBound(bindings, actions)
  {
    if n == 0 then w
    else Try(reaches, bindings, actions[n - 1], WorldAfter(reaches, bindings, actions, schedule, start, w, n - 1),
             schedule(start + n - 1)).world
  }

  /** The n-th push of a run. */
  function AttemptAt(reaches: (Oid, Oid) -> bool, bindings: Bindings, actions: seq<PlannedAction>, schedule: Schedule,
                     start: nat, w: World, n: nat): Attempt
    requires n < |actions| && AllBound(bindings, actions)
  {
    Try(reaches, bindings, actions[n], WorldAfter(reaches, bindings, actions, schedule, start, w, n),
        schedule(start + n))
  }

  /** The evidence of the first pushes of a run: one event and one result per action, in order. */
  ghost predicate Ran(reaches: (Oid, Oid) -> bool, bindings: Bindings, actions: seq<PlannedAction>, schedule: Schedule,
                      start: nat, w: World, results: seq<ActionResult>, events: seq<Event>)
    requires AllBound(bindings, actions)
  {
    && |results| == |events| <= |actions|
    && forall n :: 0 <= n < |results| ==>
         && results[n] == ResultOf(n, actions[n], AttemptAt(reaches, bindings, actions, schedule, start, w, n))
         && events[n] == AttemptAt(reaches, bindings, actions, schedule, start, w, n).event
  }

  lemma ExtendRun(reaches: (Oid, Oid) -> bool, bindings: Bindings, actions: seq<PlannedAction>, schedule: Schedule,
                  start: nat, w: World, results: seq<ActionResult>, events: seq<Event>)
    requires AllBound(bindings, actions) && Ran(reaches, bindings, actions, schedule, start, w, results, events)
    requires |results| < |actions|
    ensures var attempt := AttemptAt(reaches, bindings, actions, schedule, start, w, |results|);
            Ran(reaches, bindings, actions, schedule, start, w,
                results + [ResultOf(|results|, actions[|results|], attempt)], events + [attempt.event])
  {
    hide AttemptAt, ResultOf;
  }

  lemma PassingIsBound(refs: map<string, Oid>, bindings: Bindings, actions: seq<PlannedAction>)
    requires Passes(refs, bindings, actions)
    ensures AllBound(bindings, actions)
  {
  }

  /**
   * Every action is attempted in order after a passing preflight; a failure neither stops the loop nor undoes a
   * success.
   */
  method ExecuteActions(actions: seq<PlannedAction>, git: Git, bindings: Bindings) returns (e: Execution)
    modifies git
    ensures !Passes(old(git.world.refs), bindings, actions) ==>
              && git.world == old(git.world) && git.events == old(git.events) && git.turn == old(git.turn)
              && e.error.Some? && Preflights(old(git.world.refs), bindings, actions, e)
    ensures Passes(old(git.world.refs), bindings, actions) ==>
              && AllBound(bindings, actions)
              && git.turn == old(git.turn) + |actions|
              && git.world == WorldAfter(git.reaches, bindings, actions, git.schedule, old(git.turn), old(git.world),
                                         |actions|)
              && old(git.events) <= git.events
              && |e.results| == |actions|
              && Ran(git.reaches, bindings, actions, git.schedule, old(git.turn), old(git.world), e.results,
                     git.events[|old(git.events)|..])
              && e.error == (if CountFailed(e.results) == 0 then None else Some(PushesFailed(CountFailed(e.results))))
  {
    hide StableId, Try, Passes, Preflights, TargetBranchOf;
    e := PreflightPlan(actions, git, bindings);
    PreflightDecides(git.world.refs, bindings, actions, e);
    if e.error.Some? {
      return;
    }
    PassingIsBound(git.world.refs, bindings, actions);
    e := PushAll(actions, git, bindings, e.results);
  }

  lemma PreflightDecides(refs: map<string, Oid>, bindings: Bindings, actions: seq<PlannedAction>, e: Execution)
    requires Preflights(refs, bindings, actions, e)
    ensures e.error.None? <==> Passes(refs, bindings, actions)
    ensures e.error.None? ==> e.results == AllSkipped(actions)
  {
  }

  method PushAll(actions: seq<PlannedAction>, git: Git, bindings: Bindings, skipped: seq<ActionResult>)
    returns (e: Execution)
    requires AllBound(bindings, actions) && skipped == AllSkipped(actions)
    modifies git
    ensures git.turn == old(git.turn) + |actions|
    ensures git.world == WorldAfter(git.reaches, bindings, actions, git.schedule, old(git.turn), old(git.world),
                                    |actions|)
    ensures old(git.events) <= git.events && |e.results| == |actions|
    ensures Ran(git.reaches, bindings, actions, git.schedule, old(git.turn), old(git.world), e.results,
                git.events[|old(git.events)|..])
    ensures e.error == (if CountFailed(e.results) == 0 then None else Some(PushesFailed(CountFailed(e.results))))
  {
    hide StableId, Try, TargetBranchOf, Ran, CountFailed;
    ghost var w, start, seen := git.world, git.turn, |git.events|;
    NothingRan(git.reaches, bindings, actions, git.schedule, start, w);
    var results, failed := skipped, 0;
    assert results[..0] == [] && git.events[seen..] == [];
    var i := 0;
    while i < |actions|
      invariant 0 <= i <= |actions| == |results|
      invariant git.turn == start + i && old(git.events) <= git.events
      invariant git.world == WorldAfter(git.reaches, bindings, actions, git.schedule, start, w, i)
      invariant Ran(git.reaches, bindings, actions, git.schedule, start, w, results[..i], git.events[seen..])
      invariant results[i..] == skipped[i..]
      invariant failed == CountFailed(results[..i])
    {
      ExtendRun(git.reaches, bindings, actions, git.schedule, start, w, results[..i], git.events[seen..]);
      assert results[i] == results[i..][0] == ActionResult(i, actions[i], Skipped, "", false, "");
      ghost var before, done := git.events, results[..i];
      ghost var attempt := AttemptAt(git.reaches, bindings, actions, git.schedule, start, w, i);
      var actionErr := PushAction(actions[i], git, bindings);
      assert git.events[seen..] == before[seen..] + [attempt.event];
      var result := results[i];
      if actionErr.Some? {
        failed := failed + 1;
        result := result.(outcome := Failed, error := actionErr.value);
      } else {
        result := result.(outcome := Applied, afterOid := actions[i].expectedSource);
      }
      assert result == ResultOf(i, actions[i], attempt);
      CountOneMore(done, result);
      assert results[i := result][..i + 1] == done + [result];
      results := results[i := result];
      i := i + 1;
    }
    assert results[..|results|] == results;
    e := Execution(results, if failed == 0 then None else Some(PushesFailed(failed)));
  }

  lemma NothingRan(reaches: (Oid, Oid) -> bool, bindings: Bindings, actions: seq<PlannedAction>, schedule: Schedule,
                   start: nat, w: World)
    requires AllBound(bindings, actions)
    ensures Ran(reaches, bindings, actions, schedule, start, w, [], [])
    ensures CountFailed([]) == 0
  {
  }

  lemma CountOneMore(results: seq<ActionResult>, result: ActionResult)
    ensures CountFailed(results + [result]) == CountFailed(results) + (if result.outcome == Failed then 1 else 0)
  {
    assert (results + [result])[..|results|] == results;
  }

  method PushAction(action: PlannedAction, git: Git, bindings: Bindings) returns (error: Option<string>)
    requires StableId(action.target) in bindings.targets
    modifies git
    ensures var attempt := Try(git.reaches, bindings, action, old(git.world), git.schedule(old(git.turn)));
            git.world == attempt.world && error == attempt.error && git.events == old(git.events) + [attempt.event]
              && git.turn == old(git.turn) + 1
  {
    hide StableId, TrackingRef, PushDuring;
    var target := TargetBranchOf(bindings, action);
    if action.force {
      error := git.ForcePushBranchWithLease(SourceRef(bindings, action), target, action.expectedOldTarget);
    } else {
      error := git.PushBranch(SourceRef(bindings, action), target);
    }
  }
}
