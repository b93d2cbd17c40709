/** The stop handshake of labs/lab13/kthread/kthread.c: the kernel thread and the module's exit,
    each waiting for a flag the other sets, without signals.

    `wait_event_interruptible` is split where the kernel can interleave: test the condition, join
    the queue and mark the task interruptible, test again, sleep, leave the queue. A wake-up only
    reaches a task that is in the queue at that moment, so a lost wake-up can be expressed.
  */
module StopHandshake {

  datatype WaitAt = FastCheck | Prepare | Recheck | Schedule | FinishWait | Returned

  /** A task inside `wait_event`; `runnable` is false while its state is TASK_INTERRUPTIBLE. */
  datatype Waiter = Waiter(at: WaitAt, runnable: bool, queued: bool) {
    predicate Asleep() {
      at == Schedule && !runnable
    }

    predicate CanAdvance() {
      !Asleep() && at != Returned
    }

    function Advance(condition: bool): Waiter
      requires CanAdvance()
    {
      match at
      case FastCheck => this.(at := if condition then Returned else Prepare)
      case Prepare => Waiter(Recheck, false, true)
      case Recheck => this.(at := if condition then FinishWait else Schedule)
      case Schedule => this.(at := Prepare)
      case FinishWait => Waiter(Returned, true, false)
    }

    /** `wake_up` on the queue this task waits in. */
    function Woken(): Waiter {
      if queued && !runnable then Waiter(at, true, false) else this
    }
  }

  const ENTERING := Waiter(FastCheck, true, false)

  datatype ThreadAt = AwaitStop | SetTerminated | WakeExit | ThreadDone
  datatype ExitAt = SetStop | WakeThread | AwaitTerminated | ExitDone

  /** `exitSlept` records whether the exit function ever gave up the processor in its wait. */
  datatype State = State(stop: bool, terminated: bool, thread: ThreadAt, exit: ExitAt,
                         threadWait: Waiter, exitWait: Waiter, exitSlept: bool)

  const LOADED := State(false, false, AwaitStop, SetStop, ENTERING, ENTERING, false)

  datatype Actor = Thread | Exit

  predicate Enabled(s: State, who: Actor) {
    match who
    case Thread => s.thread != ThreadDone && (s.thread == AwaitStop ==> s.threadWait.CanAdvance())
    case Exit => s.exit != ExitDone && (s.exit == AwaitTerminated ==> s.exitWait.CanAdvance())
  }

  function Step(s: State, who: Actor): State
    requires Enabled(s, who)
  {
    match who
    case Thread => (
      match s.thread
      case AwaitStop =>
        var w := s.threadWait.Advance(s.stop);
        s.(threadWait := w, thread := if w.at == Returned then SetTerminated else AwaitStop)
      case SetTerminated => s.(terminated := true, thread := WakeExit)
      case WakeExit => s.(exitWait := s.exitWait.Woken(), thread := ThreadDone)
    )
    case Exit => (
      match s.exit
      case SetStop => s.(stop := true, exit := WakeThread)
      case WakeThread => s.(threadWait := s.threadWait.Woken(), exit := AwaitTerminated)
      case AwaitTerminated =>
        var w := s.exitWait.Advance(s.terminated);
        s.(exitWait := w, exit := if w.at == Returned then ExitDone else AwaitTerminated,
           exitSlept := s.exitSlept || w.at == Schedule)
    )
  }

  /** In the queue exactly while marked interruptible, which is from joining until woken or leaving. */
  ghost predicate WaiterOk(w: Waiter) {
    && (w.queued <==> !w.runnable)
    && (w.at in {FastCheck, Prepare, Returned} ==> w.runnable)
  }

  ghost predicate Inv(s: State) {
    && WaiterOk(s.threadWait) && WaiterOk(s.exitWait)
    && (s.threadWait.at == Returned <==> s.thread != AwaitStop)
    && (s.exitWait.at == Returned <==> s.exit == ExitDone)
    && (s.exit in {SetStop, WakeThread} ==> s.exitWait == ENTERING)
    && (s.stop <==> s.exit != SetStop)
    && (s.terminated <==> s.thread in {WakeExit, ThreadDone})
    && (s.thread != AwaitStop || s.threadWait.at == FinishWait ==> s.stop)
    && (s.exit == ExitDone || s.exitWait.at == FinishWait ==> s.terminated)
    // No wake-up is lost: a sleeper's wake-up is still to come.
    && (s.threadWait.Asleep() ==> s.exit in {SetStop, WakeThread})
    && (s.exitWait.Asleep() ==> s.thread != ThreadDone)
    // A queued task that is runnable again was woken, so the other side is past its wake-up.
    && (s.threadWait.at in {Recheck, Schedule} && s.threadWait.runnable ==> s.exit in {AwaitTerminated, ExitDone})
    && (s.exitWait.at in {Recheck, Schedule} && s.exitWait.runnable ==> s.thread == ThreadDone)
    && (s.exitSlept && !s.exitWait.Asleep() ==> s.thread == ThreadDone)
    && (s.exitWait.at == Schedule ==> s.exitSlept)
  }

  lemma StepOk(s: State, who: Actor)
    requires Inv(s) && Enabled(s, who)
    ensures Inv(Step(s, who))
  {
  }

  // -- A measure over every run --------------------------------------------------------------

  /** Steps a waiter can still take if it is not woken; a waiter woken in its sleep starts over. */
  function WaitRank(w: Waiter): nat {
    match w.at
    case FastCheck => 9
    case Prepare => 8
    case Recheck => 7
    case Schedule => if w.runnable then 9 else 6
    case FinishWait => 5
    case Returned => 0
  }

  /** The wake-up each side still owes is worth more than what it can give back to the other. */
  function Rank(s: State): nat {
    WaitRank(s.threadWait)
     + (match s.thread case AwaitStop => 20 case SetTerminated => 20 case WakeExit => 10 case ThreadDone => 0)
     + WaitRank(s.exitWait)
     + (match s.exit case SetStop => 20 case WakeThread => 10 case AwaitTerminated => 0 case ExitDone => 0)
  }

  /** Every step uses up rank, so no run goes on forever. */
  lemma StepLowersRank(s: State, who: Actor)
    requires Inv(s) && Enabled(s, who)
    ensures Rank(Step(s, who)) < Rank(s)
  {
  }

  /** Unless both sides are done, one of them can move: nobody sleeps with no wake-up to come. */
  lemma NeverStuck(s: State)
    requires Inv(s) && (s.thread != ThreadDone || s.exit != ExitDone)
    ensures Enabled(s, Thread) || Enabled(s, Exit)
  {
  }

  // -- Runs ----------------------------------------------------------------------------------

  /** A run from the loaded module. */
  ghost predicate Run(schedule: seq<Actor>, states: seq<State>) {
    Path(schedule, states) && states[0] == LOADED
  }

  /** Actor `schedule[k]` makes step k. */
  ghost predicate Path(schedule: seq<Actor>, states: seq<State>) {
    && |states| == |schedule| + 1
    && forall k :: 0 <= k < |schedule| ==> Follows(states[k], schedule[k], states[k + 1])
  }

  ghost predicate Follows(s: State, who: Actor, t: State) {
    Enabled(s, who) && t == Step(s, who)
  }

  lemma {:induction false} RunOk(schedule: seq<Actor>, states: seq<State>)
    requires Run(schedule, states)
    ensures Inv(states[|schedule|])
    ensures |schedule| + Rank(states[|schedule|]) <= Rank(LOADED)
  {
    if schedule != [] {
      var n := |schedule| - 1;
      RunOk(schedule[..n], states[..n + 1]);
      assert Follows(states[n], schedule[n], states[n + 1]);
      StepOk(states[n], schedule[n]);
      StepLowersRank(states[n], schedule[n]);
    }
  }

  /** Every run that cannot go on has both sides done, both flags set, and nobody queued; and no
      run is longer than the initial rank. */
  lemma HandshakeCompletes(schedule: seq<Actor>, states: seq<State>)
    requires Run(schedule, states)
    ensures |schedule| <= Rank(LOADED)
    ensures var s := states[|schedule|];
            (forall who :: !Enabled(s, who)) ==>
              && s.thread == ThreadDone && s.exit == ExitDone && s.stop && s.terminated
              && !s.threadWait.queued && !s.exitWait.queued
  {
    RunOk(schedule, states);
    var s := states[|schedule|];
    if forall who :: !Enabled(s, who) {
      assert !Enabled(s, Thread) && !Enabled(s, Exit);
      if s.thread != ThreadDone || s.exit != ExitDone {
        NeverStuck(s);
      }
    }
  }

  /** A side is asleep only while the wake-up that will reach it has not been sent. */
  lemma NoLostWakeUp(schedule: seq<Actor>, states: seq<State>)
    requires Run(schedule, states)
    ensures var s := states[|schedule|];
            && (s.threadWait.Asleep() ==> s.exit in {SetStop, WakeThread} && s.threadWait.queued)
            && (s.exitWait.Asleep() ==> s.thread != ThreadDone && s.exitWait.queued)
  {
    RunOk(schedule, states);
  }

  /** When exit has returned, the thread has set its flag, and it did so only after the stop flag. */
  lemma ExitWaitsForTheFlag(schedule: seq<Actor>, states: seq<State>)
    requires Run(schedule, states)
    ensures var s := states[|schedule|];
            && (s.exit == ExitDone ==> s.terminated && s.thread in {WakeExit, ThreadDone})
            && (s.terminated ==> s.stop)
  {
    RunOk(schedule, states);
  }

  // -- When exit can return before the thread is done ----------------------------------------

  predicate Overtaken(s: State) {
    s.exit == ExitDone && s.thread != ThreadDone
  }

  /** Some continuation lets exit return while the thread still has its `wake_up` to do. */
  ghost predicate MayReturnFirst(s: State) {
    exists schedule, states :: Path(schedule, states) && states[0] == s && Overtaken(states[|schedule|])
  }

  /** Whoever must move so that exit gets past its wait before the thread's wake-up. */
  function Ahead(s: State): Actor {
    if s.exit == SetStop || s.exit == WakeThread || s.thread == WakeExit then Exit else Thread
  }

  lemma AheadMoves(s: State)
    requires Inv(s) && s.thread != ThreadDone && s.exit != ExitDone && !s.exitSlept
    ensures Enabled(s, Ahead(s))
    ensures Step(s, Ahead(s)).thread != ThreadDone && !Step(s, Ahead(s)).exitSlept
  {
  }

  lemma {:induction false} Overtake(s: State) returns (schedule: seq<Actor>, states: seq<State>)
    requires Inv(s) && s.thread != ThreadDone && (s.exit == ExitDone || !s.exitSlept)
    ensures Path(schedule, states) && states[0] == s && Overtaken(states[|schedule|])
    decreases Rank(s)
  {
    if s.exit == ExitDone {
      schedule, states := [], [s];
    } else {
      AheadMoves(s);
      StepOk(s, Ahead(s));
      StepLowersRank(s, Ahead(s));
      var rest, after := Overtake(Step(s, Ahead(s)));
      schedule, states := [Ahead(s)] + rest, [s] + after;
      forall k | 0 <= k < |schedule| ensures Follows(states[k], schedule[k], states[k + 1]) {
        assert k > 0 ==> Follows(after[k - 1], rest[k - 1], after[k]);
      }
    }
  }

  /** The thread is done, or exit has slept and is still waiting for the thread's wake-up. */
  ghost predicate TooLate(s: State) {
    s.thread == ThreadDone || (s.exitSlept && s.exit != ExitDone)
  }

  lemma {:induction false} TooLateForGood(schedule: seq<Actor>, states: seq<State>)
    requires Path(schedule, states) && Inv(states[0]) && TooLate(states[0])
    ensures Inv(states[|schedule|]) && TooLate(states[|schedule|])
  {
    if schedule != [] {
      var n := |schedule| - 1;
      TooLateForGood(schedule[..n], states[..n + 1]);
      assert Follows(states[n], schedule[n], states[n + 1]);
      StepOk(states[n], schedule[n]);
    }
  }

  lemma MayReturnFirstExactly(s: State)
    requires Inv(s)
    ensures MayReturnFirst(s) <==> s.thread != ThreadDone && (s.exit == ExitDone || !s.exitSlept)
  {
    if s.thread != ThreadDone && (s.exit == ExitDone || !s.exitSlept) {
      var schedule, states := Overtake(s);
    } else if MayReturnFirst(s) {
      var schedule, states :|
        Path(schedule, states) && states[0] == s && Overtaken(states[|schedule|]);
      TooLateForGood(schedule, states);
    }
  }

  /** In every reachable state exit can still return before the thread is done exactly if the
      thread is not done and exit has not slept, or has returned already. */
  lemma ExitReturnsFirstExactly(schedule: seq<Actor>, states: seq<State>)
    requires Run(schedule, states)
    ensures var s := states[|schedule|];
            MayReturnFirst(s) <==> s.thread != ThreadDone && (s.exit == ExitDone || !s.exitSlept)
  {
    RunOk(schedule, states);
    MayReturnFirstExactly(states[|schedule|]);
  }

  /** If exit ever slept, it returns only after the thread's last wake-up is done. */
  lemma ExitThatSleptOutlivesThread(schedule: seq<Actor>, states: seq<State>)
    requires Run(schedule, states)
    ensures var s := states[|schedule|]; s.exit == ExitDone && s.exitSlept ==> s.thread == ThreadDone
  {
    RunOk(schedule, states);
  }

  /** If exit never slept this can fail: the thread sets its flag, exit sees it at once and
      returns, and the thread still has its `wake_up` to do. */
  lemma ExitMayReturnFirst() returns (schedule: seq<Actor>, states: seq<State>)
    ensures Run(schedule, states)
    ensures states[|schedule|].exit == ExitDone && !states[|schedule|].exitSlept
    ensures states[|schedule|].thread == WakeExit
  {
    schedule := [Exit, Exit, Thread, Thread, Exit];
    var s1 := Step(LOADED, Exit);
    var s2 := Step(s1, Exit);
    var s3 := Step(s2, Thread);
    var s4 := Step(s3, Thread);
    var s5 := Step(s4, Exit);
    states := [LOADED, s1, s2, s3, s4, s5];
  }
}
