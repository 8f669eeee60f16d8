/** The bounded pool that runs one task per usable repository, as steps that interleave in any order. */
module WorkerPool {
  import opened Text
  import opened Permutations

  /** A task before it starts, executing, after its send, after it freed its slot, after wg.Done. */
  datatype Phase = Idle | Running | Sent | Released | Done

  /**
   * The dispatching loop: at a repository, after wg.Add, after taking a slot; then the collecting loop; then the end.
   */
  datatype Main = AtRepo(next: nat) | Added(next: nat) | Acquired(next: nat) | Collecting | Finished

  datatype Closer = NotStarted | Waiting | Closed

  /**
   * Which repositories have a task, the number of slots, the size of the result channel, and whether the group counts
   * all tasks before the loop, as the status phase does, or one at a time, as the apply phase does.
   */
  datatype Pool = Pool(ok: seq<bool>, parallel: nat, capacity: nat, upfront: bool)

  /** A result is known by the index of its task. */
  datatype State = State(
    main: Main, tasks: seq<Phase>, slots: nat, waiting: nat, channel: seq<nat>, closer: Closer, received: seq<nat>)

  datatype Step =
    | Skip | Add | Acquire | Spawn | StartCloser
    | Send(task: nat) | Release(task: nat) | Finish(task: nat)
    | Close | Receive | Return

  function Init(p: Pool): State {
    State(AtRepo(0), seq(|p.ok|, _ => Idle), 0, if p.upfront then CountOk(p.ok) else 0, [], NotStarted, [])
  }

  predicate InPhase(s: State, task: nat, phase: Phase) {
    task < |s.tasks| && s.tasks[task] == phase
  }

  /** A send needs room, or, without a buffer, a collector that waits. */
  predicate CanSend(p: Pool, s: State) {
    |s.channel| < p.capacity || (p.capacity == 0 && s.main.Collecting? && s.channel == [])
  }

  /**
   * The state after a step, or nothing while that step is blocked. A send checks for room only, never whether the
   * channel was closed.
   */
  function Next(p: Pool, s: State, step: Step): Option<State> {
    match step
    case Skip =>
      if s.main.AtRepo? && s.main.next < |p.ok| && !p.ok[s.main.next] then Some(s.(main := AtRepo(s.main.next + 1)))
      else None
    case Add =>
      if s.main.AtRepo? && s.main.next < |p.ok| && p.ok[s.main.next] then
        Some(s.(main := Added(s.main.next), waiting := if p.upfront then s.waiting else s.waiting + 1))
      else None
    case Acquire =>
      if s.main.Added? && s.slots < p.parallel then Some(s.(main := Acquired(s.main.next), slots := s.slots + 1))
      else None
    case Spawn =>
      if s.main.Acquired? && s.main.next < |s.tasks|
      then Some(s.(main := AtRepo(s.main.next + 1), tasks := s.tasks[s.main.next := Running])) else None
    case StartCloser =>
      if s.main.AtRepo? && s.main.next == |p.ok| then Some(s.(main := Collecting, closer := Waiting)) else None
    case Send(task) =>
      if InPhase(s, task, Running) && CanSend(p, s)
      then Some(s.(tasks := s.tasks[task := Sent], channel := s.channel + [task])) else None
    case Release(task) =>
      if InPhase(s, task, Sent) && s.slots > 0 then Some(s.(tasks := s.tasks[task := Released], slots := s.slots - 1))
      else None
    case Finish(task) =>
      if InPhase(s, task, Released) && s.waiting > 0
      then Some(s.(tasks := s.tasks[task := Done], waiting := s.waiting - 1)) else None
    case Close =>
      if s.closer.Waiting? && s.waiting == 0 then Some(s.(closer := Closed)) else None
    case Receive =>
      if s.main.Collecting? && s.channel != []
      then Some(s.(channel := s.channel[1..], received := s.received + [s.channel[0]])) else None
    case Return =>
      if s.main.Collecting? && s.channel == [] && s.closer.Closed? then Some(s.(main := Finished)) else None
  }

  function Run(p: Pool, s: State, steps: seq<Step>): Option<State> {
    if steps == [] then Some(s)
    else
      var before := Run(p, s, steps[..|steps| - 1]);
      if before.None? then None else Next(p, before.value, steps[|steps| - 1])
  }

  ghost predicate Reachable(p: Pool, s: State) {
    exists steps :: Run(p, Init(p), steps) == Some(s)
  }

  // ---------------------------------------------------------------------
  // Counting tasks.
  // ---------------------------------------------------------------------

  function Total(weight: Phase -> nat, tasks: seq<Phase>): nat {
    if tasks == [] then 0 else Total(weight, tasks[..|tasks| - 1]) + weight(tasks[|tasks| - 1])
  }

  lemma {:induction false} TotalUpdate(weight: Phase -> nat, tasks: seq<Phase>, i: nat, phase: Phase)
    requires i < |tasks|
    ensures Total(weight, tasks[i := phase]) + weight(tasks[i]) == Total(weight, tasks) + weight(phase)
  {
    var last := |tasks| - 1;
    if i == last {
      assert tasks[i := phase][..last] == tasks[..last];
    } else {
      TotalUpdate(weight, tasks[..last], i, phase);
      assert tasks[i := phase][..last] == tasks[..last][i := phase];
    }
  }

  lemma {:induction false} TotalIsPositive(weight: Phase -> nat, tasks: seq<Phase>)
    ensures Total(weight, tasks) > 0 ==> exists i :: 0 <= i < |tasks| && weight(tasks[i]) > 0
  {
    if tasks != [] {
      TotalIsPositive(weight, tasks[..|tasks| - 1]);
      if Total(weight, tasks[..|tasks| - 1]) > 0 {
        var i :| 0 <= i < |tasks| - 1 && weight(tasks[..|tasks| - 1][i]) > 0;
        assert tasks[i] == tasks[..|tasks| - 1][i];
      }
    }
  }

  lemma {:induction false} TotalAtLeast(weight: Phase -> nat, tasks: seq<Phase>, i: nat)
    requires i < |tasks|
    ensures Total(weight, tasks) >= weight(tasks[i])
  {
    if i < |tasks| - 1 {
      TotalAtLeast(weight, tasks[..|tasks| - 1], i);
    }
  }

  lemma {:induction false} IdleTotal(weight: Phase -> nat, tasks: seq<Phase>)
    requires forall i :: 0 <= i < |tasks| ==> tasks[i] == Idle
    requires weight(Idle) == 0
    ensures Total(weight, tasks) == 0
  {
    if tasks != [] {
      IdleTotal(weight, tasks[..|tasks| - 1]);
    }
  }

  function HoldsSlot(phase: Phase): nat {
    if phase == Running || phase == Sent then 1 else 0
  }

  function HoldsGroup(phase: Phase): nat {
    if phase == Running || phase == Sent || phase == Released then 1 else 0
  }

  function HasSent(phase: Phase): nat {
    if phase == Sent || phase == Released || phase == Done then 1 else 0
  }

  function Started(phase: Phase): nat {
    if phase == Idle then 0 else 1
  }

  function IsRunning(phase: Phase): nat {
    if phase == Running then 1 else 0
  }

  lemma {:induction false} SentOrRunning(tasks: seq<Phase>)
    ensures Total(HasSent, tasks) + Total(IsRunning, tasks) == Total(Started, tasks)
  {
    if tasks != [] {
      SentOrRunning(tasks[..|tasks| - 1]);
    }
  }

  function CountOk(ok: seq<bool>): (n: nat)
    ensures n <= |ok|
  {
    if ok == [] then 0 else CountOk(ok[..|ok| - 1]) + (if ok[|ok| - 1] then 1 else 0)
  }

  lemma {:induction false} StartedFewer(ok: seq<bool>, tasks: seq<Phase>, next: nat)
    requires |tasks| == |ok|
    requires forall i :: 0 <= i < |tasks| ==> (tasks[i] != Idle <==> i < next && ok[i])
    ensures Total(Started, tasks) <= CountOk(ok)
    ensures next < |ok| && ok[next] ==> Total(Started, tasks) < CountOk(ok)
  {
    if tasks != [] {
      var last := |tasks| - 1;
      StartedFewer(ok[..last], tasks[..last], if next < last then next else last);
      if next < last {
        assert ok[..last][next] == ok[next];
      }
    }
  }

  // ---------------------------------------------------------------------
  // The invariant.
  // ---------------------------------------------------------------------

  function NextRepo(s: State, n: nat): nat {
    match s.main
    case AtRepo(i) => i
    case Added(i) => i
    case Acquired(i) => i
    case Collecting => n
    case Finished => n
  }

  /** Which tasks were started. */
  predicate Launched(p: Pool, s: State) {
    && |s.tasks| == |p.ok|
    && NextRepo(s, |p.ok|) <= |p.ok|
    && (s.main.Added? || s.main.Acquired? ==> s.main.next < |p.ok| && p.ok[s.main.next])
    && forall i :: 0 <= i < |s.tasks| ==> (s.tasks[i] != Idle <==> i < NextRepo(s, |p.ok|) && p.ok[i])
  }

  /** The tasks the group counts although they have not started. */
  function Pending(p: Pool, s: State): nat
    requires NextRepo(s, |p.ok|) <= |p.ok|
  {
    if p.upfront then CountOk(p.ok[NextRepo(s, |p.ok|)..]) else if s.main.Added? || s.main.Acquired? then 1 else 0
  }

  lemma {:induction false} CountTail(ok: seq<bool>, i: nat)
    requires i < |ok|
    ensures CountOk(ok[i..]) == (if ok[i] then 1 else 0) + CountOk(ok[i + 1..])
    decreases |ok|
  {
    var last := |ok| - 1;
    if i == last {
      assert ok[i..] == [ok[i]] && ok[i + 1..] == [] && [ok[i]][..0] == [];
    } else {
      CountTail(ok[..last], i);
      assert ok[i..][..last - i] == ok[..last][i..] && ok[i + 1..][..last - i - 1] == ok[..last][i + 1..];
    }
  }

  lemma CountWhole(ok: seq<bool>)
    ensures CountOk(ok[0..]) == CountOk(ok) && CountOk(ok[|ok|..]) == 0
  {
    assert ok[0..] == ok && ok[|ok|..] == [];
  }

  /**
   * The semaphore holds one slot for each task between Acquire and Release; the group counts each one between Add and
   * Done.
   */
  predicate Counted(p: Pool, s: State)
    requires NextRepo(s, |p.ok|) <= |p.ok|
  {
    && s.slots == Total(HoldsSlot, s.tasks) + (if s.main.Acquired? then 1 else 0)
    && s.slots <= p.parallel
    && s.waiting == Total(HoldsGroup, s.tasks) + Pending(p, s)
  }

  /** Every sent result is in the channel or received, once. */
  ghost predicate Delivered(s: State) {
    && |s.received| + |s.channel| == Total(HasSent, s.tasks)
    && NoDuplicates(s.received + s.channel)
    && forall i: nat :: i in s.received + s.channel <==> i < |s.tasks| && HasSent(s.tasks[i]) == 1
  }

  predicate Closing(s: State) {
    && (s.closer.NotStarted? <==> !s.main.Collecting? && !s.main.Finished?)
    && (s.closer.Closed? ==> s.waiting == 0)
    && (s.main.Finished? ==> s.closer.Closed? && s.channel == [])
    && (s.closer.NotStarted? ==> s.received == [])
  }

  ghost predicate Inv(p: Pool, s: State) {
    Launched(p, s) && Counted(p, s) && Delivered(s) && Closing(s)
  }

  lemma InitInv(p: Pool)
    ensures Inv(p, Init(p))
  {
    IdleTotal(HoldsSlot, Init(p).tasks);
    IdleTotal(HoldsGroup, Init(p).tasks);
    IdleTotal(HasSent, Init(p).tasks);
    CountWhole(p.ok);
  }

  lemma MainStepInv(p: Pool, s: State, step: Step)
    requires Inv(p, s) && Next(p, s, step).Some?
    requires step.Skip? || step.Add? || step.Acquire? || step.StartCloser? || step.Close? || step.Return?
    ensures Inv(p, Next(p, s, step).value)
  {
    hide Total, NoDuplicates, CountOk;
    if step.Skip? {
      CountTail(p.ok, s.main.next);
    }
    CountWhole(p.ok);
  }

  lemma SpawnInv(p: Pool, s: State)
    requires Inv(p, s) && Next(p, s, Spawn).Some?
    ensures Inv(p, Next(p, s, Spawn).value)
  {
    hide Total, NoDuplicates, CountOk;
    var i := s.main.next;
    CountTail(p.ok, i);
    TotalUpdate(HoldsSlot, s.tasks, i, Running);
    TotalUpdate(HoldsGroup, s.tasks, i, Running);
    TotalUpdate(HasSent, s.tasks, i, Running);
  }

  lemma SendInv(p: Pool, s: State, task: nat)
    requires Inv(p, s) && Next(p, s, Send(task)).Some?
    ensures Inv(p, Next(p, s, Send(task)).value)
  {
    hide Total, NoDuplicates;
    TotalUpdate(HoldsSlot, s.tasks, task, Sent);
    TotalUpdate(HoldsGroup, s.tasks, task, Sent);
    TotalUpdate(HasSent, s.tasks, task, Sent);
    var all := s.received + s.channel;
    var after := Next(p, s, Send(task)).value;
    assert after.received + after.channel == all + [task];
    assert task !in all;
    OneMore(all, task);
    TotalAtLeast(HoldsGroup, s.tasks, task);
  }

  lemma OneMore(all: seq<nat>, task: nat)
    requires NoDuplicates(all) && task !in all
    ensures NoDuplicates(all + [task])
    ensures forall i: nat :: i in all + [task] <==> i in all || i == task
  {
  }

  lemma ReleaseInv(p: Pool, s: State, task: nat)
    requires Inv(p, s) && Next(p, s, Release(task)).Some?
    ensures Inv(p, Next(p, s, Release(task)).value)
  {
    hide Total, NoDuplicates;
    TotalUpdate(HoldsSlot, s.tasks, task, Released);
    TotalUpdate(HoldsGroup, s.tasks, task, Released);
    TotalUpdate(HasSent, s.tasks, task, Released);
  }

  lemma FinishInv(p: Pool, s: State, task: nat)
    requires Inv(p, s) && Next(p, s, Finish(task)).Some?
    ensures Inv(p, Next(p, s, Finish(task)).value)
  {
    hide Total, NoDuplicates;
    TotalUpdate(HoldsSlot, s.tasks, task, Done);
    TotalUpdate(HoldsGroup, s.tasks, task, Done);
    TotalUpdate(HasSent, s.tasks, task, Done);
  }

  lemma ReceiveInv(p: Pool, s: State)
    requires Inv(p, s) && Next(p, s, Receive).Some?
    ensures Inv(p, Next(p, s, Receive).value)
  {
    hide Total, NoDuplicates;
    assert s.received + [s.channel[0]] + s.channel[1..] == s.received + s.channel;
  }

  /** Every step keeps the invariant. */
  lemma StepKeepsInv(p: Pool, s: State, step: Step)
    requires Inv(p, s) && Next(p, s, step).Some?
    ensures Inv(p, Next(p, s, step).value)
  {
    hide Inv, Next;
    match step
    case Spawn => SpawnInv(p, s);
    case Send(task) => SendInv(p, s, task);
    case Release(task) => ReleaseInv(p, s, task);
    case Finish(task) => FinishInv(p, s, task);
    case Receive => ReceiveInv(p, s);
    case _ => MainStepInv(p, s, step);
  }

  lemma {:induction false} RunKeepsInv(p: Pool, steps: seq<Step>)
    ensures Run(p, Init(p), steps).Some? ==> Inv(p, Run(p, Init(p), steps).value)
  {
    hide Inv, Next;
    InitInv(p);
    if steps != [] {
      RunKeepsInv(p, steps[..|steps| - 1]);
      var before := Run(p, Init(p), steps[..|steps| - 1]);
      if before.Some? && Next(p, before.value, steps[|steps| - 1]).Some? {
        StepKeepsInv(p, before.value, steps[|steps| - 1]);
      }
    }
  }

  // ---------------------------------------------------------------------
  // Safety.
  // ---------------------------------------------------------------------

  /** In every reachable state at most `parallel` tasks execute, and nothing is sent to a closed channel. */
  lemma BoundedAndNeverClosedEarly(p: Pool, s: State)
    requires Reachable(p, s)
    ensures Total(IsRunning, s.tasks) <= p.parallel
    ensures s.closer.Closed? ==> forall i :: 0 <= i < |s.tasks| ==> s.tasks[i] == Idle || s.tasks[i] == Done
  {
    hide Next;
    var steps :| Run(p, Init(p), steps) == Some(s);
    RunKeepsInv(p, steps);
    RunningHoldsSlot(s.tasks);
    if s.closer.Closed? {
      NoneHoldsGroup(s.tasks);
    }
  }

  lemma {:induction false} RunningHoldsSlot(tasks: seq<Phase>)
    ensures Total(IsRunning, tasks) <= Total(HoldsSlot, tasks)
  {
    if tasks != [] {
      RunningHoldsSlot(tasks[..|tasks| - 1]);
    }
  }

  lemma {:induction false} NoneHoldsGroup(tasks: seq<Phase>)
    requires Total(HoldsGroup, tasks) == 0
    ensures forall i :: 0 <= i < |tasks| ==> HoldsGroup(tasks[i]) == 0
  {
    if tasks != [] {
      NoneHoldsGroup(tasks[..|tasks| - 1]);
    }
  }

  /** With room for every usable repository, no send ever blocks. */
  lemma NoSendBlocks(p: Pool, s: State, task: nat)
    requires Reachable(p, s) && p.capacity >= CountOk(p.ok) && InPhase(s, task, Running)
    ensures |s.channel| < p.capacity && Next(p, s, Send(task)).Some?
  {
    var steps :| Run(p, Init(p), steps) == Some(s);
    hide Run, Init, NoDuplicates;
    RunKeepsInv(p, steps);
    SentOrRunning(s.tasks);
    StartedFewer(p.ok, s.tasks, NextRepo(s, |p.ok|));
    TotalAtLeast(IsRunning, s.tasks, task);
  }

  // ---------------------------------------------------------------------
  // No deadlock.
  // ---------------------------------------------------------------------

  function IsSent(phase: Phase): nat {
    if phase == Sent then 1 else 0
  }

  lemma {:induction false} SlotsByPhase(tasks: seq<Phase>)
    ensures Total(HoldsSlot, tasks) == Total(IsRunning, tasks) + Total(IsSent, tasks)
  {
    if tasks != [] {
      SlotsByPhase(tasks[..|tasks| - 1]);
    }
  }

  /** How many tasks can be dispatched before the dispatcher must wait for a slot that nobody frees. */
  function Limit(p: Pool): nat {
    if p.parallel == 0 then 0 else p.capacity + p.parallel
  }

  ghost predicate Deadlocked(p: Pool, s: State) {
    !s.main.Finished? && forall step :: Next(p, s, step).None?
  }

  /** Some step is possible until the end. */
  lemma SomeStep(p: Pool, s: State) returns (step: Step)
    requires Inv(p, s) && !s.main.Finished? && CountOk(p.ok) <= Limit(p)
    ensures Next(p, s, step).Some?
  {
    hide Total, NoDuplicates, CountOk;
    match s.main
    case AtRepo(i) =>
      step := if i == |p.ok| then StartCloser else if p.ok[i] then Add else Skip;
    case Added(_) =>
      step := StepWhileDispatching(p, s);
    case Acquired(_) =>
      step := Spawn;
    case Collecting =>
      step := StepWhileCollecting(p, s);
  }

  lemma StepWhileDispatching(p: Pool, s: State) returns (step: Step)
    requires Inv(p, s) && s.main.Added? && CountOk(p.ok) <= Limit(p)
    ensures Next(p, s, step).Some?
  {
    hide Total, NoDuplicates, CountOk;
    if s.slots < p.parallel {
      return Acquire;
    }
    StartedFewer(p.ok, s.tasks, s.main.next);
    SentOrRunning(s.tasks);
    SlotsByPhase(s.tasks);
    if |s.channel| < p.capacity {
      TotalIsPositive(HoldsSlot, s.tasks);
      var i :| 0 <= i < |s.tasks| && HoldsSlot(s.tasks[i]) > 0;
      TotalAtLeast(HoldsSlot, s.tasks, i);
      return if s.tasks[i] == Sent then Release(i) else Send(i);
    }
    TotalIsPositive(IsSent, s.tasks);
    var i :| 0 <= i < |s.tasks| && IsSent(s.tasks[i]) > 0;
    return Release(i);
  }

  lemma StepWhileCollecting(p: Pool, s: State) returns (step: Step)
    requires Inv(p, s) && s.main.Collecting?
    ensures Next(p, s, step).Some?
  {
    hide Total, NoDuplicates, CountOk;
    CountWhole(p.ok);
    if s.channel != [] {
      return Receive;
    }
    if s.closer.Closed? {
      return Return;
    }
    if s.waiting == 0 {
      return Close;
    }
    TotalIsPositive(HoldsGroup, s.tasks);
    var i :| 0 <= i < |s.tasks| && HoldsGroup(s.tasks[i]) > 0;
    TotalAtLeast(HoldsSlot, s.tasks, i);
    return if s.tasks[i] == Running then Send(i) else if s.tasks[i] == Sent then Release(i) else Finish(i);
  }

  /**
   * The state of a run that dispatches as fast as it can while nothing is collected: early tasks finish, later ones
   * block on their send.
   */
  function Crowded(p: Pool, i: nat): State
    requires i <= |p.ok|
  {
    if i == 0 then Init(p)
    else
      var s := Crowded(p, i - 1);
      var next := s.(main := AtRepo(i));
      if !p.ok[i - 1] then next
      else if |s.channel| < p.capacity then
        next.(tasks := Put(s.tasks, i - 1, Done), channel := s.channel + [i - 1],
              waiting := if p.upfront && s.waiting > 0 then s.waiting - 1 else s.waiting)
      else
        next.(tasks := Put(s.tasks, i - 1, Running), slots := s.slots + 1,
              waiting := if p.upfront then s.waiting else s.waiting + 1)
  }

  function Put(tasks: seq<Phase>, i: nat, phase: Phase): (r: seq<Phase>)
    ensures |r| == |tasks|
  {
    if i < |tasks| then tasks[i := phase] else tasks
  }

  lemma OneStep(p: Pool, s: State, step: Step)
    requires Reachable(p, s) && Next(p, s, step).Some?
    ensures Reachable(p, Next(p, s, step).value)
  {
    hide Next, Init;
    var steps :| Run(p, Init(p), steps) == Some(s);
    assert (steps + [step])[..|steps|] == steps;
    assert Run(p, Init(p), steps + [step]) == Next(p, s, step);
  }

  lemma {:induction false} CrowdedShape(p: Pool, i: nat)
    requires i <= |p.ok|
    ensures var s, c := Crowded(p, i), CountOk(p.ok[..i]);
            && s.main == AtRepo(i) && |s.tasks| == |p.ok| && s.closer == NotStarted && s.received == []
            && |s.channel| == (if c < p.capacity then c else p.capacity)
            && s.slots == c - |s.channel|
            && s.waiting == (if p.upfront then CountOk(p.ok) else c) - |s.channel|
            && (forall k :: 0 <= k < |s.tasks| ==> s.tasks[k] in [Idle, Done, Running])
            && (forall k :: 0 <= k < |s.tasks| && s.tasks[k] == Running ==> |s.channel| == p.capacity)
            && (forall k :: i <= k < |s.tasks| ==> s.tasks[k] == Idle)
  {
    hide CountOk;
    if i == 0 {
      CountWhole(p.ok);
      assert p.ok[..0] == p.ok[|p.ok|..];
    } else {
      CrowdedShape(p, i - 1);
      CountNext(p.ok, i - 1);
      CountOfPart(p.ok, i - 1);
    }
  }

  lemma CountNext(ok: seq<bool>, i: nat)
    requires i < |ok|
    ensures CountOk(ok[..i + 1]) == CountOk(ok[..i]) + (if ok[i] then 1 else 0)
  {
    assert ok[..i + 1][..i] == ok[..i];
  }

  lemma {:induction false} CrowdedIsReachable(p: Pool, i: nat)
    requires i <= |p.ok| && CountOk(p.ok[..i]) <= Limit(p)
    ensures Reachable(p, Crowded(p, i))
  {
    hide Next, Reachable;
    if i == 0 {
      StartIsReachable(p);
    } else {
      assert p.ok[..i][..i - 1] == p.ok[..i - 1];
      CrowdedIsReachable(p, i - 1);
      CrowdedShape(p, i - 1);
      CountOfPart(p.ok, i - 1);
      CrowdMore(p, i - 1, Crowded(p, i - 1));
    }
  }

  lemma {:induction false} CountOfPart(ok: seq<bool>, i: nat)
    requires i < |ok|
    ensures CountOk(ok[..i]) + (if ok[i] then 1 else 0) <= CountOk(ok)
  {
    var last := |ok| - 1;
    if i < last {
      CountOfPart(ok[..last], i);
      assert ok[..last][..i] == ok[..i];
    }
  }

  lemma StartIsReachable(p: Pool)
    ensures Reachable(p, Init(p))
  {
    assert Run(p, Init(p), []) == Some(Init(p));
  }

  lemma CrowdMore(p: Pool, i: nat, s: State)
    requires i < |p.ok| && s == Crowded(p, i) && Reachable(p, s) && CountOk(p.ok[..i + 1]) <= Limit(p)
    requires s.main == AtRepo(i) && |s.tasks| == |p.ok| && s.tasks[i] == Idle && s.closer == NotStarted
    requires p.upfront && p.ok[i] ==> s.waiting > 0
    requires s.slots == CountOk(p.ok[..i]) - |s.channel|
    requires |s.channel| == if CountOk(p.ok[..i]) < p.capacity then CountOk(p.ok[..i]) else p.capacity
    ensures Reachable(p, Crowded(p, i + 1))
  {
    hide Reachable, Run, Init, CountOk;
    CountNext(p.ok, i);
    if !p.ok[i] {
      OneStep(p, s, Skip);
    } else {
      OneStep(p, s, Add);
      var added := Next(p, s, Add).value;
      OneStep(p, added, Acquire);
      var acquired := Next(p, added, Acquire).value;
      OneStep(p, acquired, Spawn);
      if |s.channel| < p.capacity {
        var spawned := Next(p, acquired, Spawn).value;
        RunsToEnd(p, spawned, i);
        assert spawned.tasks[i := Done] == s.tasks[i := Done];
      }
    }
  }

  lemma RunsToEnd(p: Pool, s: State, i: nat)
    requires Reachable(p, s) && InPhase(s, i, Running) && |s.channel| < p.capacity && s.slots > 0 && s.waiting > 0
    ensures Reachable(p,
                      s.(tasks := s.tasks[i := Done], channel := s.channel + [i], slots := s.slots - 1,
                         waiting := s.waiting - 1))
  {
    hide Reachable, Run, Init;
    OneStep(p, s, Send(i));
    var sent := Next(p, s, Send(i)).value;
    OneStep(p, sent, Release(i));
    var released := Next(p, sent, Release(i)).value;
    OneStep(p, released, Finish(i));
    assert Next(p, released, Finish(i)).value.tasks == s.tasks[i := Done];
  }

  /** The first repository to be dispatched beyond the limit. */
  lemma {:induction false} FirstBeyond(ok: seq<bool>, limit: nat) returns (i: nat)
    requires CountOk(ok) > limit
    ensures i < |ok| && ok[i] && CountOk(ok[..i]) == limit
  {
    var last := |ok| - 1;
    if CountOk(ok[..last]) > limit {
      i := FirstBeyond(ok[..last], limit);
      assert ok[..last][..i] == ok[..i];
    } else {
      i := last;
    }
  }

  /**
   * The pool can deadlock exactly when there are more usable repositories than slots and channel room together,
   * or any at all without a slot.
   */
  lemma DeadlockExactly(p: Pool)
    ensures (exists s :: Reachable(p, s) && Deadlocked(p, s)) <==> CountOk(p.ok) > Limit(p)
  {
    if CountOk(p.ok) > Limit(p) {
      DeadlockBeyondLimit(p);
    } else {
      forall s | Reachable(p, s) ensures !Deadlocked(p, s) {
        hide Run, Next, Init;
        var steps :| Run(p, Init(p), steps) == Some(s);
        RunKeepsInv(p, steps);
        if !s.main.Finished? {
          var step := SomeStep(p, s);
        }
      }
    }
  }

  lemma DeadlockBeyondLimit(p: Pool)
    requires CountOk(p.ok) > Limit(p)
    ensures exists s :: Reachable(p, s) && Deadlocked(p, s)
  {
    hide Reachable, Run, Init, Crowded;
    var i := FirstBeyond(p.ok, Limit(p));
    CrowdedIsReachable(p, i);
    CrowdedShape(p, i);
    var s := Crowded(p, i);
    OneStep(p, s, Add);
    var stuck := Next(p, s, Add).value;
    forall step ensures Next(p, stuck, step).None? {
    }
    assert Deadlocked(p, stuck);
  }

  /** With at least one slot and a channel sized by the number of usable repositories there is no deadlock. */
  lemma SizedChannelNeverDeadlocks(p: Pool, s: State)
    requires p.parallel >= 1 && p.capacity == CountOk(p.ok) && Reachable(p, s)
    ensures !Deadlocked(p, s)
  {
    hide Deadlocked, Reachable, CountOk;
    DeadlockExactly(p);
  }

  // ---------------------------------------------------------------------
  // Every run ends.
  // ---------------------------------------------------------------------

  function Work(phase: Phase): nat {
    match phase
    case Idle => 0
    case Running => 5
    case Sent => 3
    case Released => 2
    case Done => 1
  }

  function MainWork(s: State, n: nat): nat
    requires NextRepo(s, n) <= n
  {
    match s.main
    case AtRepo(i) => 10 * (n - i) + 4
    case Added(i) => 10 * (n - i) + 3
    case Acquired(i) => 10 * (n - i) + 2
    case Collecting => 1
    case Finished => 0
  }

  function Remaining(p: Pool, s: State): nat
    requires NextRepo(s, |p.ok|) <= |p.ok|
  {
    MainWork(s, |p.ok|) + Total(Work, s.tasks) + |s.channel| + (if s.closer.Closed? then 0 else 1)
  }

  lemma StepDoesWork(p: Pool, s: State, step: Step)
    requires Inv(p, s) && Next(p, s, step).Some? && Inv(p, Next(p, s, step).value)
    ensures Remaining(p, Next(p, s, step).value) < Remaining(p, s)
  {
    hide Total, NoDuplicates, CountOk, Launched, Delivered, Closing;
    match step
    case Spawn => TotalUpdate(Work, s.tasks, s.main.next, Running);
    case Send(task) => TotalUpdate(Work, s.tasks, task, Sent);
    case Release(task) => TotalUpdate(Work, s.tasks, task, Released);
    case Finish(task) => TotalUpdate(Work, s.tasks, task, Done);
    case _ =>
  }

  /** No run takes more than a number of steps fixed by the number of repositories. */
  lemma {:induction false} RunsAreBounded(p: Pool, steps: seq<Step>)
    requires Run(p, Init(p), steps).Some?
    ensures NextRepo(Run(p, Init(p), steps).value, |p.ok|) <= |p.ok|
    ensures |steps| + Remaining(p, Run(p, Init(p), steps).value) <= 10 * |p.ok| + 5
  {
    hide Next, Inv, Remaining;
    RunKeepsInv(p, steps);
    if steps == [] {
      StartingWork(p);
    } else {
      var before := Run(p, Init(p), steps[..|steps| - 1]).value;
      RunKeepsInv(p, steps[..|steps| - 1]);
      RunsAreBounded(p, steps[..|steps| - 1]);
      InvBounds(p, Run(p, Init(p), steps).value);
      StepDoesWork(p, before, steps[|steps| - 1]);
    }
  }

  lemma InvBounds(p: Pool, s: State)
    requires Inv(p, s)
    ensures NextRepo(s, |p.ok|) <= |p.ok|
  {
  }

  lemma StartingWork(p: Pool)
    ensures NextRepo(Init(p), |p.ok|) <= |p.ok| && Remaining(p, Init(p)) <= 10 * |p.ok| + 5
  {
    IdleTotal(Work, Init(p).tasks);
  }

  // ---------------------------------------------------------------------
  // What the collector has when the run ends.
  // ---------------------------------------------------------------------

  /** Every usable repository once, in some order. */
  ghost predicate Arrivals(ok: seq<bool>, received: seq<nat>) {
    NoDuplicates(received) && forall i: nat :: i in received <==> i < |ok| && ok[i]
  }

  /** A finished run received exactly one result of every usable repository. */
  lemma FinishedHasAll(p: Pool, s: State)
    requires Reachable(p, s) && s.main.Finished?
    ensures Arrivals(p.ok, s.received)
  {
    hide Next, NoDuplicates;
    var steps :| Run(p, Init(p), steps) == Some(s);
    RunKeepsInv(p, steps);
    NoneHoldsGroup(s.tasks);
    assert s.received + s.channel == s.received;
  }

  datatype TaskResult<R> = TaskResult(result: R, error: Option<string>)

  datatype Collected<R> = Collected(results: seq<R>, failed: nat, firstError: Option<string>)

  /** A task's result as it is reported, its error written into it. */
  function Reported<R>(withError: (R, string) -> R, t: TaskResult<R>): R {
    if t.error.Some? then withError(t.result, t.error.value) else t.result
  }

  /** One repository after the other, in configuration order. */
  function Sequentially<R>(ok: seq<bool>, withError: (R, string) -> R, run: nat -> TaskResult<R>): Collected<R> {
    if ok == [] then Collected([], 0, None)
    else
      var i := |ok| - 1;
      var before := Sequentially(ok[..i], withError, run);
      if !ok[i] then before
      else
        Collected(before.results + [Reported(withError, run(i))],
                  before.failed + (if run(i).error.Some? then 1 else 0),
                  if before.firstError.Some? then before.firstError else run(i).error)
  }

  /** The repositories whose task failed. */
  function FailedOk<R>(ok: seq<bool>, run: nat -> TaskResult<R>): (r: seq<bool>)
    ensures |r| == |ok|
  {
    seq(|ok|, i requires 0 <= i < |ok| => ok[i] && run(i).error.Some?)
  }

  /**
   * The sequential run gives one result for each usable repository, in order, with its error in it; it counts the
   * failed ones, and its error is that of the first of them.
   */
  lemma SequentialSays<R>(ok: seq<bool>, withError: (R, string) -> R, run: nat -> TaskResult<R>)
    ensures var c := Sequentially(ok, withError, run);
            && |c.results| == CountOk(ok) && c.failed == CountOk(FailedOk(ok, run))
            && (forall i :: 0 <= i < |ok| && ok[i] ==>
                  && CountOk(ok[..i]) < |c.results|
                  && c.results[CountOk(ok[..i])] ==
                       match run(i).error
                       case None => run(i).result
                       case Some(message) => withError(run(i).result, message))
            && (c.firstError.None? ==> forall i :: 0 <= i < |ok| ==> !FailedOk(ok, run)[i])
            && (c.firstError.Some? ==>
                  exists i :: 0 <= i < |ok| && FailedOk(ok, run)[i] && run(i).error == c.firstError
                              && forall k :: 0 <= k < i ==> !FailedOk(ok, run)[k])
  {
    hide CountOk, Sequentially, FailedOk;
    SequentialCounts(ok, withError, run);
    SequentialFirst(ok, withError, run);
    forall i | 0 <= i < |ok| && ok[i]
      ensures var c := Sequentially(ok, withError, run);
              && CountOk(ok[..i]) < |c.results|
              && c.results[CountOk(ok[..i])] == match run(i).error
                                                case None => run(i).result
                                                case Some(message) => withError(run(i).result, message) {
      SequentialResult(ok, withError, run, i);
    }
  }

  lemma {:induction false} SequentialCounts<R>(ok: seq<bool>, withError: (R, string) -> R, run: nat -> TaskResult<R>)
    ensures var c := Sequentially(ok, withError, run);
            |c.results| == CountOk(ok) && c.failed == CountOk(FailedOk(ok, run))
  {
    if ok != [] {
      SequentialCounts(ok[..|ok| - 1], withError, run);
      assert FailedOk(ok, run)[..|ok| - 1] == FailedOk(ok[..|ok| - 1], run);
    }
  }

  lemma {:induction false} SequentialResult<R>(ok: seq<bool>, withError: (R, string) -> R, run: nat -> TaskResult<R>,
                                               i: nat)
    requires i < |ok| && ok[i]
    ensures var c := Sequentially(ok, withError, run);
            && CountOk(ok[..i]) < |c.results|
            && c.results[CountOk(ok[..i])] == match run(i).error
                                              case None => run(i).result
                                              case Some(message) => withError(run(i).result, message)
  {
    var last := |ok| - 1;
    if i == last {
      SequentialCounts(ok[..last], withError, run);
    } else {
      SequentialResult(ok[..last], withError, run, i);
      assert ok[..last][..i] == ok[..i];
    }
  }

  lemma {:induction false} SequentialFirst<R>(ok: seq<bool>, withError: (R, string) -> R, run: nat -> TaskResult<R>)
    ensures var first := Sequentially(ok, withError, run).firstError;
            && (first.None? ==> forall i :: 0 <= i < |ok| ==> !FailedOk(ok, run)[i])
            && (first.Some? ==>
                  exists i :: 0 <= i < |ok| && FailedOk(ok, run)[i] && run(i).error == first
                              && forall k :: 0 <= k < i ==> !FailedOk(ok, run)[k])
  {
    if ok != [] {
      SequentialFirst(ok[..|ok| - 1], withError, run);
      assert forall i :: 0 <= i < |ok| - 1 ==> FailedOk(ok, run)[i] == FailedOk(ok[..|ok| - 1], run)[i];
    }
  }

  /** Whatever the order of arrival, output, failure count and first error are those of the sequential run. */
  method CollectApplyResults<R>(ok: seq<bool>, withError: (R, string) -> R, run: nat -> TaskResult<R>,
                                received: seq<nat>)
    returns (c: Collected<R>)
    requires Arrivals(ok, received)
    ensures c == Sequentially(ok, withError, run)
  {
    hide Reported, NoDuplicates;
    var ordered: seq<Option<R>> := seq(|ok|, _ => None);
    var errors: seq<Option<string>> := seq(|ok|, _ => None);
    for j := 0 to |received|
      invariant |ordered| == |errors| == |ok|
      invariant forall i :: 0 <= i < |ok| ==>
                  ordered[i] == if i in received[..j] then Some(Reported(withError, run(i))) else None
      invariant forall i :: 0 <= i < |ok| ==> errors[i] == if i in received[..j] then run(i).error else None
    {
      var i := received[j];
      assert i in received;
      assert received[..j + 1] == received[..j] + [i];
      if run(i).error.Some? {
        errors := errors[i := run(i).error];
      }
      ordered := ordered[i := Some(Reported(withError, run(i)))];
    }
    assert received[..|received|] == received;
    c := Collected([], 0, None);
    for i := 0 to |ok|
      invariant c == Collected(Sequentially(ok[..i], withError, run).results, 0, None)
    {
      assert ok[..i + 1][..i] == ok[..i];
      if ordered[i].Some? {
        c := c.(results := c.results + [ordered[i].value]);
      }
    }
    assert ok[..|ok|] == ok && ok[..0] == [];
    for i := 0 to |ok|
      invariant c.results == Sequentially(ok, withError, run).results
      invariant c.failed == Sequentially(ok[..i], withError, run).failed
      invariant c.firstError == Sequentially(ok[..i], withError, run).firstError
    {
      assert ok[..i + 1][..i] == ok[..i];
      assert !ok[i] ==> i !in received;
      if errors[i].Some? {
        c := c.(failed := c.failed + 1, firstError := if c.firstError.None? then errors[i] else c.firstError);
      }
    }
  }

  // ---------------------------------------------------------------------
  // Observing first: the summary that sizes the channel.
  // ---------------------------------------------------------------------

  datatype Summary<R> = Summary(results: seq<Option<R>>, ok: seq<bool>, failedCount: nat, firstError: Option<string>,
                                failureCode: nat)

  /** The error that arrived first. */
  function FirstArrived<R>(run: nat -> TaskResult<R>, received: seq<nat>): Option<string> {
    if received == [] then None
    else
      var before := FirstArrived(run, received[..|received| - 1]);
      if before.Some? then before else run(received[|received| - 1]).error
  }

  /** The pool of the status phase: every repository has a task, and the channel has room for all of them. */
  function StatusPool(n: nat, parallel: nat): Pool {
    Pool(seq(n, _ => true), parallel, n, true)
  }

  lemma {:induction false} AllOk(ok: seq<bool>)
    requires forall i :: 0 <= i < |ok| ==> ok[i]
    ensures CountOk(ok) == |ok|
  {
    if ok != [] {
      AllOk(ok[..|ok| - 1]);
    }
  }

  /**
   * With a slot the status phase never deadlocks, none of its sends blocks, and when it ends one result of every
   * repository has arrived.
   */
  lemma StatusPhaseArrives(n: nat, parallel: nat, s: State)
    requires parallel >= 1 && Reachable(StatusPool(n, parallel), s)
    ensures !Deadlocked(StatusPool(n, parallel), s)
    ensures forall task :: InPhase(s, task, Running) ==> Next(StatusPool(n, parallel), s, Send(task)).Some?
    ensures s.main.Finished? ==> Arrivals(seq(n, _ => true), s.received)
  {
    hide Reachable, Deadlocked, Next, Arrivals;
    var p := StatusPool(n, parallel);
    AllOk(p.ok);
    SizedChannelNeverDeadlocks(p, s);
    forall task | InPhase(s, task, Running) ensures Next(p, s, Send(task)).Some? {
      NoSendBlocks(p, s, task);
    }
    if s.main.Finished? {
      FinishedHasAll(p, s);
    }
  }

  /** failedCount is exactly the number of repositories that are not ok. */
  method SummarizeChecks<R>(n: nat, run: nat -> TaskResult<R>, alarming: R -> bool, received: seq<nat>)
    returns (summary: Summary<R>)
    requires Arrivals(seq(n, _ => true), received)
    ensures |summary.ok| == |summary.results| == n
    ensures forall i :: 0 <= i < n ==>
              && summary.ok[i] == run(i).error.None?
              && summary.results[i] == if run(i).error.None? then Some(run(i).result) else None
    ensures n - summary.failedCount == CountOk(summary.ok)
    ensures summary.firstError == FirstArrived(run, received)
    ensures summary.failureCode == if exists i :: 0 <= i < n && run(i).error.None? && alarming(run(i).result) then 2
                                   else 0
  {
    hide CountOk;
    summary := Summary(seq(n, _ => None), seq(n, _ => false), 0, None, 0);
    NoneOk(summary.ok);
    for j := 0 to |received|
      invariant |summary.ok| == |summary.results| == n
      invariant forall i :: 0 <= i < n ==>
                  && summary.ok[i] == (i in received[..j] && run(i).error.None?)
                  && summary.results[i] == if summary.ok[i] then Some(run(i).result) else None
      invariant CountOk(summary.ok) + summary.failedCount == j
      invariant summary.firstError == FirstArrived(run, received[..j])
      invariant summary.failureCode == if exists i :: 0 <= i < n && summary.ok[i] && alarming(run(i).result) then 2
                                       else 0
    {
      var i := received[j];
      assert i in received;
      assert received[..j + 1] == received[..j] + [i] && received[..j + 1][..j] == received[..j];
      var outcome := run(i);
      if outcome.error.Some? {
        summary := summary.(failedCount := summary.failedCount + 1,
                            firstError := if summary.firstError.None? then outcome.error else summary.firstError);
      } else {
        CountOneMoreOk(summary.ok, i);
        summary := summary.(results := summary.results[i := Some(outcome.result)], ok := summary.ok[i := true],
                            failureCode := if alarming(outcome.result) then 2 else summary.failureCode);
      }
    }
    assert received[..|received|] == received;
    AllArrived(n, received);
  }

  lemma {:induction false} NoneOk(ok: seq<bool>)
    requires forall i :: 0 <= i < |ok| ==> !ok[i]
    ensures CountOk(ok) == 0
  {
    if ok != [] {
      NoneOk(ok[..|ok| - 1]);
    }
  }

  lemma {:induction false} CountOneMoreOk(ok: seq<bool>, i: nat)
    requires i < |ok| && !ok[i]
    ensures CountOk(ok[i := true]) == CountOk(ok) + 1
  {
    var last := |ok| - 1;
    if i == last {
      assert ok[i := true][..last] == ok[..last];
    } else {
      CountOneMoreOk(ok[..last], i);
      assert ok[i := true][..last] == ok[..last][i := true];
    }
  }

  /** n distinct indices below n are n in number. */
  lemma {:induction false} AllArrived(n: nat, received: seq<nat>)
    requires Arrivals(seq(n, _ => true), received)
    ensures |received| == n
  {
    var all := seq(n, i => i);
    assert NoDuplicates(all);
    forall i: nat ensures i in all <==> i < n {
      if i < n {
        assert all[i] == i;
      }
    }
    CountsOfDistinct(received);
    CountsOfDistinct(all);
    forall x: nat ensures multiset(received)[x] == multiset(all)[x] {
      assert x in received <==> x in all;
    }
    assert multiset(received) == multiset(all);
    SameMembers(received, all);
  }
}
