/** Infinite runs of labs/lab13/deferred/kernel/deferred.c once exit has begun: under a fair scheduler
    teardown completes, also past a handler that keeps arming its own timer again.
  */
module FairTeardown {
  import opened Deferred

  ghost predicate StepAt(actions: nat -> Action, run: nat -> State, k: nat) {
    Follows(run(k), actions(k), run(k + 1))
  }

  ghost predicate Endless(actions: nat -> Action, run: nat -> State) {
    forall k: nat :: StepAt(actions, run, k)
  }

  /** As long as exit has work left, not only deaths go on happening. */
  ghost predicate NotOnlyDeaths(actions: nat -> Action, run: nat -> State) {
    forall k: nat :: run(k).exit == Gone || exists j: nat :: k <= j && !actions(j).Die?
  }

  /** A handler that has started gets to move. */
  ghost predicate HandlerRuns(actions: nat -> Action, run: nat -> State) {
    forall k: nat :: run(k).timer.handler == Idle || exists j: nat :: k <= j && actions(j) == HandlerStep
  }

  /** If `del_timer_sync` finds the handler at rest again and again, it gets through once. */
  ghost predicate DeletionGetsThrough(actions: nat -> Action, run: nat -> State) {
    (forall k: nat :: DeletableAfter(run, k)) ==> exists j: nat :: Deletes(run(j), actions(j))
  }

  ghost predicate DeletableAfter(run: nat -> State, k: nat) {
    exists j: nat :: k <= j && CanDelete(run(j))
  }

  predicate CanDelete(s: State) {
    s.exit == DeleteTimer && s.timer.handler == Idle
  }

  predicate Deletes(s: State, a: Action) {
    s.exit == DeleteTimer && a == ExitStep
  }

  ghost predicate Fair(actions: nat -> Action, run: nat -> State) {
    NotOnlyDeaths(actions, run) && HandlerRuns(actions, run) && DeletionGetsThrough(actions, run)
  }

  lemma {:induction false} Along(actions: nat -> Action, run: nat -> State, i: nat, k: nat)
    requires Endless(actions, run) && Inv(run(i)) && i <= k
    ensures Inv(run(k)) && Stage(run(k).exit) >= Stage(run(i).exit)
    decreases k - i
  {
    if i < k {
      assert StepAt(actions, run, i);
      StepOk(run(i), actions(i));
      ThenNotBack(run(i), actions(i));
      Along(actions, run, i + 1, k);
    }
  }

  // -- The handler comes to rest again and again ----------------------------------------------

  /** Nothing but its own steps moves a handler that has started. */
  lemma HandlerMovesItself(s: State, a: Action)
    requires Enabled(s, a) && s.timer.handler != Idle
    ensures if a == HandlerStep
            then HandlerRank(Step(s, a).timer.handler) < HandlerRank(s.timer.handler)
            else Step(s, a).timer.handler == s.timer.handler
  {
  }

  /** The first step of the handler at or after `k`. */
  lemma {:induction false} HandlerWaits(actions: nat -> Action, run: nat -> State, k: nat, j: nat) returns (m: nat)
    requires Endless(actions, run) && k <= j && actions(j) == HandlerStep && run(k).timer.handler != Idle
    ensures k <= m && HandlerRank(run(m).timer.handler) < HandlerRank(run(k).timer.handler)
    decreases j - k
  {
    assert StepAt(actions, run, k);
    HandlerMovesItself(run(k), actions(k));
    if actions(k) == HandlerStep {
      m := k + 1;
    } else {
      m := HandlerWaits(actions, run, k + 1, j);
    }
  }

  lemma {:induction false} HandlerRests(actions: nat -> Action, run: nat -> State, k: nat) returns (m: nat)
    requires Endless(actions, run) && HandlerRuns(actions, run)
    ensures k <= m && run(m).timer.handler == Idle
    decreases HandlerRank(run(k).timer.handler)
  {
    if run(k).timer.handler == Idle {
      m := k;
    } else {
      var j: nat :| k <= j && actions(j) == HandlerStep;
      m := HandlerWaits(actions, run, k, j);
      m := HandlerRests(actions, run, m);
    }
  }

  // -- Exit gets past the timer, then to its end ----------------------------------------------

  ghost predicate TimerDeleted(run: nat -> State, k: nat) {
    Stage(run(k).exit) >= 2
  }

  lemma Deletable(actions: nat -> Action, run: nat -> State, k: nat)
    requires Endless(actions, run) && HandlerRuns(actions, run) && Inv(run(0)) && run(0).exit != Loaded
    requires forall j: nat :: !TimerDeleted(run, j)
    ensures DeletableAfter(run, k)
  {
    var m := HandlerRests(actions, run, k);
    Along(actions, run, 0, m);
    assert !TimerDeleted(run, m);
  }

  lemma DeletionDeletes(actions: nat -> Action, run: nat -> State, j: nat)
    requires Endless(actions, run) && Deletes(run(j), actions(j))
    ensures TimerDeleted(run, j + 1)
  {
    assert StepAt(actions, run, j);
  }

  lemma TimerIsDeleted(actions: nat -> Action, run: nat -> State) returns (k: nat)
    requires Endless(actions, run) && Fair(actions, run) && Inv(run(0)) && run(0).exit != Loaded
    ensures TimerDeleted(run, k)
  {
    if forall j: nat :: !TimerDeleted(run, j) {
      forall i: nat ensures DeletableAfter(run, i) {
        Deletable(actions, run, i);
      }
      var j: nat :| Deletes(run(j), actions(j));
      DeletionDeletes(actions, run, j);
    }
    k :| TimerDeleted(run, k);
  }

  /** The first step other than a death at or after `k`. */
  lemma {:induction false} NextMove(actions: nat -> Action, run: nat -> State, k: nat, j: nat) returns (m: nat)
    requires Endless(actions, run) && Inv(run(k)) && Stage(run(k).exit) >= 2 && k <= j && !actions(j).Die?
    ensures k <= m && 0 <= Rank(run(m)) < Rank(run(k))
    decreases j - k
  {
    assert StepAt(actions, run, k);
    Along(actions, run, k, k + 1);
    if actions(k).Die? {
      m := NextMove(actions, run, k + 1, j);
    } else {
      TeardownTerminates(run(k), actions(k));
      m := k + 1;
    }
  }

  lemma {:induction false} ExitFinishes(actions: nat -> Action, run: nat -> State, k: nat) returns (m: nat)
    requires Endless(actions, run) && Fair(actions, run) && Inv(run(k)) && Stage(run(k).exit) >= 2
    ensures run(m).exit == Gone
    decreases Rank(run(k))
  {
    if run(k).exit == Gone {
      m := k;
    } else {
      var j: nat :| k <= j && !actions(j).Die?;
      m := NextMove(actions, run, k, j);
      Along(actions, run, k, m);
      m := ExitFinishes(actions, run, m);
    }
  }

  /** Every fair endless run in which exit has begun reaches the end of exit and stays there. */
  lemma FairExitCompletes(actions: nat -> Action, run: nat -> State) returns (end: nat)
    requires Endless(actions, run) && Fair(actions, run) && Inv(run(0)) && run(0).exit != Loaded
    ensures forall k: nat :: end <= k ==> run(k).exit == Gone
  {
    var k := TimerIsDeleted(actions, run);
    Along(actions, run, 0, k);
    end := ExitFinishes(actions, run, k);
    Along(actions, run, 0, end);
    forall k: nat | end <= k ensures run(k).exit == Gone {
      Along(actions, run, end, k);
    }
  }
}
