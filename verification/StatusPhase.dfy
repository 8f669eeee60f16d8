/** Which error the status phase reports: the one of the failure that arrives first. */
module StatusPhase {
  import opened Text
  import opened Permutations
  import opened WorkerPool

  predicate Failing<R>(run: nat -> TaskResult<R>, i: nat) {
    run(i).error.Some?
  }

  /** How many of the repositories before `i` fail. */
  function FailuresBefore<R>(run: nat -> TaskResult<R>, i: nat): nat {
    if i == 0 then 0 else FailuresBefore(run, i - 1) + (if Failing(run, i - 1) then 1 else 0)
  }

  /** The first failing repository among those that arrived. */
  function FirstFailure<R>(run: nat -> TaskResult<R>, arrived: seq<nat>): Option<nat> {
    if arrived == [] then None
    else
      var before := FirstFailure(run, arrived[..|arrived| - 1]);
      if before.Some? then before
      else if Failing(run, arrived[|arrived| - 1]) then Some(arrived[|arrived| - 1]) else None
  }

  lemma {:induction false} FirstFailureIsIn<R>(run: nat -> TaskResult<R>, arrived: seq<nat>)
    ensures FirstFailure(run, arrived).Some? ==>
              FirstFailure(run, arrived).value in arrived && Failing(run, FirstFailure(run, arrived).value)
    ensures FirstFailure(run, arrived).None? ==> forall i :: i in arrived ==> !Failing(run, i)
    ensures FirstArrived(run, arrived) ==
              if FirstFailure(run, arrived).Some? then run(FirstFailure(run, arrived).value).error else None
  {
    if arrived != [] {
      FirstFailureIsIn(run, arrived[..|arrived| - 1]);
    }
  }

  lemma FirstFailureAfter<R>(run: nat -> TaskResult<R>, arrived: seq<nat>, task: nat)
    ensures FirstFailure(run, arrived + [task]) ==
              if FirstFailure(run, arrived).Some? then FirstFailure(run, arrived)
              else if Failing(run, task) then Some(task) else None
  {
    assert (arrived + [task])[..|arrived|] == arrived;
  }

  /** What has been sent, in that order. */
  function SentSoFar(s: State): seq<nat> {
    s.received + s.channel
  }

  // ---------------------------------------------------------------------
  // A failure that arrives first found all earlier ones executing.
  // ---------------------------------------------------------------------

  lemma {:induction false} EarlierAreRunning<R>(run: nat -> TaskResult<R>, tasks: seq<Phase>, t: nat)
    requires t <= |tasks| && forall k :: 0 <= k < t && Failing(run, k) ==> tasks[k] == Running
    ensures FailuresBefore(run, t) <= Total(IsRunning, tasks[..t])
  {
    if t > 0 {
      EarlierAreRunning(run, tasks, t - 1);
      assert tasks[..t][..t - 1] == tasks[..t - 1];
    }
  }

  lemma {:induction false} TotalOfPart(weight: Phase -> nat, tasks: seq<Phase>, t: nat)
    requires t <= |tasks|
    ensures Total(weight, tasks[..t]) <= Total(weight, tasks)
  {
    if t == |tasks| {
      assert tasks[..t] == tasks;
    } else {
      TotalOfPart(weight, tasks[..|tasks| - 1], t);
      assert tasks[..|tasks| - 1][..t] == tasks[..t];
    }
  }

  /** When a failure is sent before any other, it and all earlier failures hold a slot. */
  lemma FirstSendNeedsSlots<R>(run: nat -> TaskResult<R>, n: nat, parallel: nat, s: State, t: nat)
    requires Inv(StatusPool(n, parallel), s) && InPhase(s, t, Running) && Failing(run, t)
    requires FirstFailure(run, SentSoFar(s)).None?
    ensures t < n && FailuresBefore(run, t) < parallel
  {
    hide Total, NoDuplicates, CountOk;
    FirstFailureIsIn(run, SentSoFar(s));
    forall k | 0 <= k < t && Failing(run, k) ensures s.tasks[k] == Running {
      assert s.tasks[k] != Idle;
      assert k !in SentSoFar(s);
    }
    EarlierAreRunning(run, s.tasks, t);
    TotalOfPart(IsRunning, s.tasks, t + 1);
    OneMoreRunning(s.tasks, t);
    RunningHoldsSlot(s.tasks);
  }

  lemma OneMoreRunning(tasks: seq<Phase>, t: nat)
    requires t < |tasks| && tasks[t] == Running
    ensures Total(IsRunning, tasks[..t + 1]) == Total(IsRunning, tasks[..t]) + 1
  {
    assert tasks[..t + 1][..t] == tasks[..t];
  }

  lemma {:induction false} FirstFailureHadSlots<R>(run: nat -> TaskResult<R>, n: nat, parallel: nat, steps: seq<Step>)
    requires Run(StatusPool(n, parallel), Init(StatusPool(n, parallel)), steps).Some?
    ensures var s := Run(StatusPool(n, parallel), Init(StatusPool(n, parallel)), steps).value;
            var first := FirstFailure(run, SentSoFar(s));
            first.Some? ==> first.value < n && Failing(run, first.value) && FailuresBefore(run, first.value) < parallel
  {
    hide Inv, Next, FirstFailure;
    var p := StatusPool(n, parallel);
    if steps == [] {
      assert SentSoFar(Init(p)) == [];
      FirstFailureIsIn(run, []);
    } else {
      var earlier, step := steps[..|steps| - 1], steps[|steps| - 1];
      FirstFailureHadSlots(run, n, parallel, earlier);
      RunKeepsInv(p, earlier);
      var before := Run(p, Init(p), earlier).value;
      OnlySendsSend(p, before, step);
      if step.Send? {
        FirstFailureAfter(run, SentSoFar(before), step.task);
        if FirstFailure(run, SentSoFar(before)).None? && Failing(run, step.task) {
          FirstSendNeedsSlots(run, n, parallel, before, step.task);
        }
      } else {
        assert SentSoFar(before) + [] == SentSoFar(before);
      }
    }
  }

  lemma OnlySendsSend(p: Pool, s: State, step: Step)
    requires Next(p, s, step).Some?
    ensures SentSoFar(Next(p, s, step).value) == SentSoFar(s) + (if step.Send? then [step.task] else [])
    ensures step.Send? ==> InPhase(s, step.task, Running)
  {
    if step.Receive? {
      assert s.channel == [s.channel[0]] + s.channel[1..];
    }
  }

  // ---------------------------------------------------------------------
  // Every run can be taken to its end.
  // ---------------------------------------------------------------------

  /** From every reachable state the end can be reached, and what was sent stays sent. */
  lemma {:induction false} CanFinish(p: Pool, s: State) returns (end: State)
    requires Reachable(p, s) && CountOk(p.ok) <= Limit(p)
    ensures Reachable(p, end) && end.main.Finished? && SentSoFar(s) <= SentSoFar(end)
    decreases RemainingWork(p, s)
  {
    hide Reachable, Next, Inv;
    ReachableKeepsInv(p, s);
    if s.main.Finished? {
      return s;
    }
    var step := SomeStep(p, s);
    var after := Next(p, s, step).value;
    OneStep(p, s, step);
    ReachableKeepsInv(p, after);
    InvBounds(p, s);
    InvBounds(p, after);
    StepDoesWork(p, s, step);
    OnlySendsSend(p, s, step);
    end := CanFinish(p, after);
  }

  function RemainingWork(p: Pool, s: State): nat {
    if NextRepo(s, |p.ok|) <= |p.ok| then Remaining(p, s) else 0
  }

  lemma ReachableKeepsInv(p: Pool, s: State)
    requires Reachable(p, s)
    ensures Inv(p, s)
  {
    hide Inv, Next;
    var steps :| Run(p, Init(p), steps) == Some(s);
    RunKeepsInv(p, steps);
  }

  lemma {:induction false} FirstFailureStays<R>(run: nat -> TaskResult<R>, arrived: seq<nat>, later: seq<nat>)
    requires arrived <= later && FirstFailure(run, arrived).Some?
    ensures FirstFailure(run, later) == FirstFailure(run, arrived)
  {
    if |arrived| < |later| {
      FirstFailureStays(run, arrived, later[..|later| - 1]);
    } else {
      assert arrived == later;
    }
  }

  // ---------------------------------------------------------------------
  // A run that holds the earlier failures back.
  // ---------------------------------------------------------------------

  /** The first `i` tasks were dispatched; those that fail still execute, and the others have ended. */
  ghost predicate HoldingBack<R>(run: nat -> TaskResult<R>, n: nat, s: State, i: nat) {
    && i <= n && |s.tasks| == n && s.main == AtRepo(i) && s.closer == NotStarted && s.received == []
    && s.slots == FailuresBefore(run, i)
    && |s.channel| <= i && |s.channel| + s.waiting == n
    && (forall k :: i <= k < n ==> s.tasks[k] == Idle)
    && FirstFailure(run, s.channel) == None
  }

  lemma DispatchNext(n: nat, parallel: nat, s: State, i: nat) returns (spawned: State)
    requires Reachable(StatusPool(n, parallel), s) && s.main == AtRepo(i) && i < n && s.slots < parallel
    requires |s.tasks| == n
    ensures Reachable(StatusPool(n, parallel), spawned)
    ensures spawned == s.(main := AtRepo(i + 1), slots := s.slots + 1, tasks := s.tasks[i := Running])
  {
    hide Reachable;
    var p := StatusPool(n, parallel);
    OneStep(p, s, Add);
    var added := Next(p, s, Add).value;
    OneStep(p, added, Acquire);
    var acquired := Next(p, added, Acquire).value;
    OneStep(p, acquired, Spawn);
    spawned := Next(p, acquired, Spawn).value;
  }

  lemma {:induction false} HoldBack<R>(run: nat -> TaskResult<R>, n: nat, parallel: nat, i: nat) returns (s: State)
    requires i <= n && (i > 0 ==> FailuresBefore(run, i - 1) < parallel)
    ensures Reachable(StatusPool(n, parallel), s) && HoldingBack(run, n, s, i)
  {
    hide Reachable, Run;
    var p := StatusPool(n, parallel);
    if i == 0 {
      StartIsReachable(p);
      AllOk(p.ok);
      return Init(p);
    }
    var before := HoldBack(run, n, parallel, i - 1);
    s := DispatchNext(n, parallel, before, i - 1);
    if !Failing(run, i - 1) {
      RunsToEnd(p, s, i - 1);
      FirstFailureAfter(run, before.channel, i - 1);
      s := s.(tasks := s.tasks[i - 1 := Done], channel := s.channel + [i - 1], slots := s.slots - 1,
              waiting := s.waiting - 1);
    }
  }

  /** With a slot for it and one for each earlier failure, a failure can arrive first. */
  lemma CanArriveFirst<R>(run: nat -> TaskResult<R>, n: nat, parallel: nat, t: nat) returns (end: State)
    requires t < n && Failing(run, t) && FailuresBefore(run, t) < parallel
    ensures Reachable(StatusPool(n, parallel), end) && end.main.Finished?
    ensures FirstFailure(run, end.received) == Some(t)
  {
    hide Reachable, Next, Inv, FirstFailure, NoDuplicates;
    var p := StatusPool(n, parallel);
    FewerBefore(run, t);
    var held := HoldBack(run, n, parallel, t);
    var spawned := DispatchNext(n, parallel, held, t);
    SendIsPossible(p, spawned, t);
    OneStep(p, spawned, Send(t));
    var sent := Next(p, spawned, Send(t)).value;
    OnlySendsSend(p, spawned, Send(t));
    FirstFailureAfter(run, held.channel, t);
    assert SentSoFar(sent) == held.channel + [t];
    AllOk(p.ok);
    end := CanFinish(p, sent);
    FirstFailureStays(run, SentSoFar(sent), SentSoFar(end));
    FinishedHasReceived(p, end);
  }

  lemma FewerBefore<R>(run: nat -> TaskResult<R>, t: nat)
    ensures t > 0 ==> FailuresBefore(run, t - 1) <= FailuresBefore(run, t)
  {
  }

  lemma SendIsPossible(p: Pool, s: State, t: nat)
    requires InPhase(s, t, Running) && |s.channel| < p.capacity
    ensures Next(p, s, Send(t)).Some?
  {
  }

  lemma FinishedHasReceived(p: Pool, s: State)
    requires Reachable(p, s) && s.main.Finished?
    ensures SentSoFar(s) == s.received
  {
    hide Reachable;
    ReachableKeepsInv(p, s);
  }

  // ---------------------------------------------------------------------
  // Exactly which error is reported.
  // ---------------------------------------------------------------------

  /** The failures that can arrive first are exactly those with fewer failures before them than there are slots. */
  lemma ArrivesFirstExactly<R>(run: nat -> TaskResult<R>, n: nat, parallel: nat, t: nat)
    ensures (exists s :: Reachable(StatusPool(n, parallel), s) && s.main.Finished?
                         && FirstFailure(run, s.received) == Some(t))
            <==> t < n && Failing(run, t) && FailuresBefore(run, t) < parallel
  {
    hide Next, Init, FirstFailure;
    var p := StatusPool(n, parallel);
    forall s | Reachable(p, s) && s.main.Finished? && FirstFailure(run, s.received) == Some(t)
      ensures t < n && Failing(run, t) && FailuresBefore(run, t) < parallel {
      FinishedHasReceived(p, s);
      var steps :| Run(p, Init(p), steps) == Some(s);
      FirstFailureHadSlots(run, n, parallel, steps);
    }
    if t < n && Failing(run, t) && FailuresBefore(run, t) < parallel {
      var end := CanArriveFirst(run, n, parallel, t);
    }
  }

  /** The failures that have a slot while all earlier ones hold theirs have one error. */
  predicate EarlyFailuresAgree<R>(run: nat -> TaskResult<R>, n: nat, parallel: nat) {
    forall i, j :: 0 <= i < n && 0 <= j < n && Failing(run, i) && Failing(run, j)
                   && FailuresBefore(run, i) < parallel && FailuresBefore(run, j) < parallel ==>
      run(i).error == run(j).error
  }

  /** The sequential first error is that of the first failing repository. */
  lemma {:induction false} SequentialFirstError<R>(withError: (R, string) -> R, run: nat -> TaskResult<R>, n: nat)
    ensures var first := Sequentially(seq(n, _ => true), withError, run).firstError;
            && (first.None? ==> FailuresBefore(run, n) == 0 && forall i :: 0 <= i < n ==> !Failing(run, i))
            && (first.Some? ==> FailuresBefore(run, n) > 0
                                && exists i :: 0 <= i < n && Failing(run, i) && FailuresBefore(run, i) == 0
                                               && run(i).error == first)
  {
    if n > 0 {
      SequentialFirstError(withError, run, n - 1);
      assert seq(n, _ => true)[..n - 1] == seq(n - 1, _ => true);
    }
  }

  /**
   * The status phase always reports the error of the sequential run if and only if the first `parallel` failing
   * repositories in configuration order have one error.
   */
  lemma FirstErrorIsSequentialExactly<R>(withError: (R, string) -> R, run: nat -> TaskResult<R>, n: nat, parallel: nat)
    requires parallel >= 1
    ensures (forall s :: Reachable(StatusPool(n, parallel), s) && s.main.Finished? ==>
               FirstArrived(run, s.received) == Sequentially(seq(n, _ => true), withError, run).firstError)
            <==> EarlyFailuresAgree(run, n, parallel)
  {
    hide Reachable, FirstFailure, Sequentially, FirstArrived, EarlyFailuresAgree, Arrivals;
    var p := StatusPool(n, parallel);
    var first := Sequentially(seq(n, _ => true), withError, run).firstError;
    SequentialFirstError(withError, run, n);
    if EarlyFailuresAgree(run, n, parallel) {
      forall s | Reachable(p, s) && s.main.Finished? ensures FirstArrived(run, s.received) == first {
        ReportsSequential(withError, run, n, parallel, s);
      }
    } else {
      var i, j := SomeDisagree(run, n, parallel);
      var t := if run(i).error == first then j else i;
      var end := CanArriveFirst(run, n, parallel, t);
      FirstFailureIsIn(run, end.received);
    }
  }

  lemma SomeDisagree<R>(run: nat -> TaskResult<R>, n: nat, parallel: nat) returns (i: nat, j: nat)
    requires !EarlyFailuresAgree(run, n, parallel)
    ensures i < n && j < n && Failing(run, i) && Failing(run, j) && run(i).error != run(j).error
    ensures FailuresBefore(run, i) < parallel && FailuresBefore(run, j) < parallel
  {
    i, j :| 0 <= i < n && 0 <= j < n && Failing(run, i) && Failing(run, j)
            && FailuresBefore(run, i) < parallel && FailuresBefore(run, j) < parallel
            && run(i).error != run(j).error;
  }

  lemma ReportsSequential<R>(withError: (R, string) -> R, run: nat -> TaskResult<R>, n: nat, parallel: nat, s: State)
    requires parallel >= 1 && EarlyFailuresAgree(run, n, parallel)
    requires Reachable(StatusPool(n, parallel), s) && s.main.Finished?
    ensures FirstArrived(run, s.received) == Sequentially(seq(n, _ => true), withError, run).firstError
  {
    hide Reachable, FirstFailure, Sequentially, FirstArrived, NoDuplicates;
    SequentialFirstError(withError, run, n);
    FirstFailureIsIn(run, s.received);
    FinishedHasAll(StatusPool(n, parallel), s);
    var first := FirstFailure(run, s.received);
    if first.Some? {
      ArrivesFirstExactly(run, n, parallel, first.value);
    }
  }

  /** With one slot the status phase is the sequential run. */
  lemma OneSlotIsSequential<R>(withError: (R, string) -> R, run: nat -> TaskResult<R>, n: nat, s: State)
    requires Reachable(StatusPool(n, 1), s) && s.main.Finished?
    ensures FirstArrived(run, s.received) == Sequentially(seq(n, _ => true), withError, run).firstError
  {
    hide Reachable, Sequentially, FirstArrived;
    forall i, j | 0 <= i < j < n && Failing(run, i) && Failing(run, j) ensures FailuresBefore(run, j) >= 1 {
      FailureCounts(run, i, j);
    }
    FirstErrorIsSequentialExactly(withError, run, n, 1);
  }

  lemma {:induction false} FailureCounts<R>(run: nat -> TaskResult<R>, i: nat, j: nat)
    requires i < j && Failing(run, i)
    ensures FailuresBefore(run, j) >= 1
  {
    if i < j - 1 {
      FailureCounts(run, i, j - 1);
    }
  }

  /** With two slots and two different failures either error can be reported. */
  lemma FirstCheckErrorDependsOnArrival<R>(run: nat -> TaskResult<R>) returns (s: State, t: State)
    requires run(0).error == Some("first") && run(1).error == Some("second")
    ensures Reachable(StatusPool(2, 2), s) && s.main.Finished? && FirstArrived(run, s.received) == Some("first")
    ensures Reachable(StatusPool(2, 2), t) && t.main.Finished? && FirstArrived(run, t.received) == Some("second")
  {
    hide Reachable, FirstArrived, FirstFailure;
    assert FailuresBefore(run, 0) == 0 && FailuresBefore(run, 1) <= 1;
    s := CanArriveFirst(run, 2, 2, 0);
    FirstFailureIsIn(run, s.received);
    t := CanArriveFirst(run, 2, 2, 1);
    FirstFailureIsIn(run, t.received);
  }
}
