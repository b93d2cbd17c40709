/** A pass of the monitor work and the drain at exit inside the interleaved runs of
    labs/lab13/deferred/kernel/deferred.c: whatever calls, timer and dying tasks do meanwhile, they
    leave what the same loops leave on the heap.
  */
module MonitorRuns {
  import opened Deferred
  import ProcessList

  function TasksOf(list: seq<Entry>): (tasks: seq<Task>)
    ensures |tasks| == |list|
  {
    seq(|list|, i requires 0 <= i < |list| => list[i].task)
  }

  /** The entries whose task is alive when visited; `deaths[i]` die between visits i - 1 and i. */
  function EntriesLeft(list: seq<Entry>, dead: set<Task>, deaths: seq<set<Task>>): seq<Entry>
    requires |deaths| == |list|
  {
    if list == [] then []
    else
      var now := dead + deaths[0];
      (if list[0].task in now then [] else [list[0]]) + EntriesLeft(list[1..], now, deaths[1..])
  }

  /** Their tasks are the survivors of the pass on the heap. */
  lemma {:induction false} LeftAreSurvivors(list: seq<Entry>, dead: set<Task>, deaths: seq<set<Task>>)
    requires |deaths| == |list|
    ensures TasksOf(EntriesLeft(list, dead, deaths)) == ProcessList.Survivors(TasksOf(list), dead, deaths)
  {
    if list != [] {
      assert TasksOf(list)[1..] == TasksOf(list[1..]);
      LeftAreSurvivors(list[1..], dead + deaths[0], deaths[1..]);
    }
  }

  /** Deaths before the first visit, whether counted as earlier deaths or as that visit's. */
  lemma EarlierDeath(list: seq<Entry>, dead: set<Task>, deaths: seq<set<Task>>, t: Task)
    requires |deaths| == |list|
    ensures EntriesLeft(list, dead + {t}, deaths) == EntriesLeft(list, dead, WithDeath(deaths, t))
  {
    if list != [] {
      assert dead + {t} + deaths[0] == dead + (deaths[0] + {t});
    }
  }

  function WithDeath(deaths: seq<set<Task>>, t: Task): (r: seq<set<Task>>)
    ensures |r| == |deaths|
  {
    if deaths == [] then [] else deaths[0 := deaths[0] + {t}]
  }

  /** The next access of the monitor tests an entry's task. */
  predicate Tests(s: State) {
    s.lock.HeldByMonitor? && s.lock.sweep.Visit? && s.lock.sweep.at < |s.list|
  }

  /** `later` are the tasks that die before each test still to come, as seen after action `a`. */
  function Since(s: State, a: Action, later: seq<set<Task>>): seq<set<Task>> {
    match a
    case Die(t) => WithDeath(later, t)
    case MonitorStep => if Tests(s) then [{}] + later else later
    case _ => later
  }

  /** The tasks that die before each of the tests made along a path. */
  function DeathsDuring(actions: seq<Action>, states: seq<State>): seq<set<Task>>
    requires |states| == |actions| + 1
  {
    if actions == [] then []
    else Since(states[0], actions[0], DeathsDuring(actions[1..], states[1..]))
  }

  /** What the sweep has passed and kept. */
  function Behind(list: seq<Entry>, sweep: Sweep): seq<Entry>
    requires CanSweep(list, sweep)
  {
    list[..sweep.at]
  }

  /** What the sweep has yet to test. */
  function Ahead(list: seq<Entry>, sweep: Sweep): seq<Entry>
    requires CanSweep(list, sweep)
  {
    if sweep.Put? || sweep.Unlink? then list[sweep.at + 1..] else list[sweep.at..]
  }

  /** Only the monitor touches the list and the sweep while it holds the lock. */
  lemma OthersKeepOff(s: State, a: Action)
    requires Inv(s) && Enabled(s, a) && s.lock.HeldByMonitor? && a != MonitorStep
    ensures Step(s, a).lock == s.lock && Step(s, a).list == s.list
    ensures Step(s, a).dead == if a.Die? then s.dead + {a.task} else s.dead
  {
    match a
    case CallStep(i) => assert InCriticalSection(s.calls[i]) <==> s.lock == HeldByCall(i);
    case _ =>
  }

  /** One access of the sweep: at a test the entry is kept or, if dead, given up; otherwise nothing
      is gained or lost. */
  lemma SweepMoves(s: State)
    requires Inv(s) && s.lock.HeldByMonitor? && Enabled(s, MonitorStep) && Step(s, MonitorStep).lock.HeldByMonitor?
    ensures var t := Step(s, MonitorStep);
            && CanSweep(t.list, t.lock.sweep) && t.dead == s.dead
            && var behind, ahead := Behind(s.list, s.lock.sweep), Ahead(s.list, s.lock.sweep);
               if Tests(s)
               then ahead != [] && Ahead(t.list, t.lock.sweep) == ahead[1..]
                    && Behind(t.list, t.lock.sweep) == behind + (if ahead[0].task in s.dead then [] else [ahead[0]])
               else Ahead(t.list, t.lock.sweep) == ahead && Behind(t.list, t.lock.sweep) == behind
  {
  }

  /** Of what lies ahead exactly the entries alive when tested end up in the list, in order, after
      all that was kept so far. */
  ghost predicate EndsAs(list: seq<Entry>, sweep: Sweep, dead: set<Task>, deaths: seq<set<Task>>, end: seq<Entry>) {
    && CanSweep(list, sweep)
    && |deaths| == |Ahead(list, sweep)|
    && end == Behind(list, sweep) + EntriesLeft(Ahead(list, sweep), dead, deaths)
  }

  lemma TestMoves(ahead: seq<Entry>, behind: seq<Entry>, dead: set<Task>, later: seq<set<Task>>)
    requires ahead != [] && |later| == |ahead| - 1
    ensures (behind + (if ahead[0].task in dead then [] else [ahead[0]])) + EntriesLeft(ahead[1..], dead, later)
         == behind + EntriesLeft(ahead, dead, [{}] + later)
  {
    TestedFirst(ahead, dead, later);
    Associative(behind, if ahead[0].task in dead then [] else [ahead[0]], EntriesLeft(ahead[1..], dead, later));
  }

  lemma TestedFirst(ahead: seq<Entry>, dead: set<Task>, later: seq<set<Task>>)
    requires ahead != [] && |later| == |ahead| - 1
    ensures EntriesLeft(ahead, dead, [{}] + later)
         == (if ahead[0].task in dead then [] else [ahead[0]]) + EntriesLeft(ahead[1..], dead, later)
  {
    assert ([{}] + later)[1..] == later && dead + {} == dead;
  }

  lemma Associative(a: seq<Entry>, b: seq<Entry>, c: seq<Entry>)
    ensures (a + b) + c == a + (b + c)
  {
  }

  lemma MonitorMoves(s: State, later: seq<set<Task>>, end: seq<Entry>)
    requires Inv(s) && s.lock.HeldByMonitor? && Enabled(s, MonitorStep)
    requires var t := Step(s, MonitorStep);
             t.lock.HeldByMonitor? && EndsAs(t.list, t.lock.sweep, t.dead, later, end)
    ensures EndsAs(s.list, s.lock.sweep, s.dead, Since(s, MonitorStep, later), end)
  {
    SweepMoves(s);
    if Tests(s) {
      TestMoves(Ahead(s.list, s.lock.sweep), Behind(s.list, s.lock.sweep), s.dead, later);
    }
  }

  lemma AnyoneMoves(s: State, a: Action, later: seq<set<Task>>, end: seq<Entry>)
    requires Inv(s) && s.lock.HeldByMonitor? && Enabled(s, a)
    requires var t := Step(s, a); t.lock.HeldByMonitor? && EndsAs(t.list, t.lock.sweep, t.dead, later, end)
    ensures EndsAs(s.list, s.lock.sweep, s.dead, Since(s, a, later), end)
  {
    if a == MonitorStep {
      MonitorMoves(s, later, end);
    } else {
      OthersKeepOff(s, a);
      if a.Die? {
        EarlierDeath(Ahead(s.list, s.lock.sweep), s.dead, later, a.task);
      }
    }
  }

  // -- A pass in a run -------------------------------------------------------------------------

  /** A stretch of a path during which the monitor holds the lock, up to the state in which it no
      longer does. */
  ghost predicate PassTo(actions: seq<Action>, states: seq<State>) {
    && Path(actions, states) && actions != []
    && (forall k :: 0 <= k < |actions| ==> states[k].lock.HeldByMonitor?)
    && !states[|actions|].lock.HeldByMonitor?
  }

  lemma PathTail(actions: seq<Action>, states: seq<State>)
    requires Path(actions, states) && actions != []
    ensures Follows(states[0], actions[0], states[1]) && Path(actions[1..], states[1..])
  {
    forall k | 0 <= k < |actions| - 1 ensures Follows(states[1..][k], actions[1..][k], states[1..][k + 1]) {
      assert Follows(states[k + 1], actions[k + 1], states[k + 2]);
    }
  }

  /** Only a monitor that has tested the last entry gives up the lock. */
  lemma ReleasesAtEnd(s: State, a: Action)
    requires Inv(s) && Enabled(s, a) && s.lock.HeldByMonitor? && !Step(s, a).lock.HeldByMonitor?
    ensures a == MonitorStep && s.lock.sweep == Visit(|s.list|)
    ensures Step(s, a).list == s.list && Step(s, a).lock == Unlocked
  {
    if a != MonitorStep {
      OthersKeepOff(s, a);
    }
  }

  /** From any point of a pass, with any other steps in between. */
  lemma {:induction false} RestOfPass(actions: seq<Action>, states: seq<State>)
    requires PassTo(actions, states) && Inv(states[0])
    ensures var s := states[0];
            EndsAs(s.list, s.lock.sweep, s.dead, DeathsDuring(actions, states), states[|actions|].list)
    ensures states[|actions|].lock == Unlocked
  {
    PathTail(actions, states);
    if |actions| == 1 {
      ReleasesAtEnd(states[0], actions[0]);
      assert DeathsDuring(actions, states) == [];
    } else {
      StepOk(states[0], actions[0]);
      RestOfPass(actions[1..], states[1..]);
      AnyoneMoves(states[0], actions[0], DeathsDuring(actions[1..], states[1..]), states[|actions|].list);
    }
  }

  /** Position by position, `end` is what was alive when visited, in order. */
  ghost predicate LeftAlive(list: seq<Entry>, dead: set<Task>, deaths: seq<set<Task>>, end: seq<Entry>)
    requires |deaths| == |list|
  {
    var kept := ProcessList.Kept(TasksOf(list), dead, deaths);
    && |end| == |kept|
    && (forall j :: 0 <= j < |kept| ==> kept[j] < |list| && end[j] == list[kept[j]])
    && (forall i, j :: 0 <= i < j < |kept| ==> kept[i] < kept[j])
    && (forall i: nat :: i < |list| ==> (i in kept <==> list[i].task !in ProcessList.DeadAt(dead, deaths, i)))
  }

  lemma {:induction false} LeftAtKept(list: seq<Entry>, dead: set<Task>, deaths: seq<set<Task>>)
    requires |deaths| == |list|
    ensures var kept, left := ProcessList.Kept(TasksOf(list), dead, deaths), EntriesLeft(list, dead, deaths);
            && |kept| == |left|
            && (forall j :: 0 <= j < |kept| ==> kept[j] < |list| && left[j] == list[kept[j]])
  {
    if list != [] {
      assert TasksOf(list)[1..] == TasksOf(list[1..]);
      LeftAtKept(list[1..], dead + deaths[0], deaths[1..]);
    }
  }

  lemma LeftIsAlive(list: seq<Entry>, dead: set<Task>, deaths: seq<set<Task>>)
    requires |deaths| == |list|
    ensures LeftAlive(list, dead, deaths, EntriesLeft(list, dead, deaths))
  {
    LeftAtKept(list, dead, deaths);
    ProcessList.SurvivorsWereAlive(TasksOf(list), dead, deaths);
    forall i: nat | i < |list|
      ensures i in ProcessList.Kept(TasksOf(list), dead, deaths)
              <==> list[i].task !in ProcessList.DeadAt(dead, deaths, i)
    {
      ProcessList.KeptWereAlive(TasksOf(list), dead, deaths, i);
    }
  }

  /** A pass that began on `list` with `dead` dead ended with `end`. */
  ghost predicate Passed(list: seq<Entry>, dead: set<Task>, deaths: seq<set<Task>>, end: seq<Entry>) {
    && |deaths| == |list|
    && end == EntriesLeft(list, dead, deaths)
    && LeftAlive(list, dead, deaths, end)
    && TasksOf(end) == ProcessList.Survivors(TasksOf(list), dead, deaths)
    && forall i :: 0 <= i < |end| ==> end[i].task !in dead
  }

  lemma SurvivorsOnly(list: seq<Entry>, dead: set<Task>, deaths: seq<set<Task>>)
    requires |deaths| == |list|
    ensures Passed(list, dead, deaths, EntriesLeft(list, dead, deaths))
  {
    var end := EntriesLeft(list, dead, deaths);
    LeftIsAlive(list, dead, deaths);
    LeftAreSurvivors(list, dead, deaths);
    ProcessList.DeadAreRemoved(TasksOf(list), dead, deaths);
    forall i | 0 <= i < |end| ensures end[i].task !in dead {
      assert TasksOf(end)[i] == end[i].task;
    }
  }

  /** Only the monitor's own step gives it the lock, and its sweep begins at the first entry. */
  lemma TakesLock(s: State, a: Action)
    requires Inv(s) && Enabled(s, a) && s.lock == Unlocked && Step(s, a).lock.HeldByMonitor?
    ensures a == MonitorStep && Step(s, a).lock.sweep == Visit(0)
    ensures Step(s, a).list == s.list && Step(s, a).dead == s.dead
  {
  }

  /** From the state in which the lock is free to the state in which it is free again. */
  lemma WholePass(actions: seq<Action>, states: seq<State>)
    requires Path(actions, states) && |actions| > 1 && Inv(states[0]) && states[0].lock == Unlocked
    requires PassTo(actions[1..], states[1..])
    ensures Passed(states[0].list, states[0].dead, DeathsDuring(actions, states), states[|actions|].list)
    ensures states[|actions|].lock == Unlocked
  {
    var s, t, deaths := states[0], states[1], DeathsDuring(actions[1..], states[1..]);
    PathTail(actions, states);
    assert states[1..][0] == t && states[1..][|actions| - 1] == states[|actions|];
    TakesLock(s, actions[0]);
    StepOk(s, actions[0]);
    RestOfPass(actions[1..], states[1..]);
    assert t.list[0..] == t.list;
    SurvivorsOnly(s.list, s.dead, deaths);
  }

  /** Steps i to k - 1 of a path, with their states. */
  lemma PathPart(actions: seq<Action>, states: seq<State>, i: nat, k: nat)
    requires Path(actions, states) && i <= k <= |actions|
    ensures Path(actions[i..k], states[i..k + 1])
  {
    forall j | 0 <= j < k - i
      ensures Follows(states[i..k + 1][j], actions[i..k][j], states[i..k + 1][j + 1])
    {
      assert Follows(states[i + j], actions[i + j], states[i + j + 1]);
    }
  }

  lemma InvAt(actions: seq<Action>, states: seq<State>, i: nat)
    requires Run(actions, states) && i <= |actions|
    ensures Inv(states[i])
  {
    PathPart(actions, states, 0, i);
    RunOk(actions[0..i], states[0..i + 1]);
  }

  /** In every run, a monitor that takes the lock after state i and no longer has it in state k has
      by then left exactly the entries whose task was alive when tested, in order; their tasks are
      the survivors of the pass on the heap with the same deaths. */
  // Dafny need not look for an induction here: the lemmas called have made it.
  lemma {:induction false} PassInRun(actions: seq<Action>, states: seq<State>, i: nat, k: nat)
    requires Run(actions, states) && i + 1 < k <= |actions|
    requires states[i].lock == Unlocked && !states[k].lock.HeldByMonitor?
    requires forall j :: i < j < k ==> states[j].lock.HeldByMonitor?
    ensures Passed(states[i].list, states[i].dead, DeathsDuring(actions[i..k], states[i..k + 1]), states[k].list)
    ensures states[k].lock == Unlocked
  {
    InvAt(actions, states, i);
    PathPart(actions, states, i, k);
    PathTail(actions[i..k], states[i..k + 1]);
    WholePass(actions[i..k], states[i..k + 1]);
  }

  // -- A pass with nobody in between -----------------------------------------------------------

  /** No deaths during a pass over `n` entries. */
  function NoDeaths(n: nat): (deaths: seq<set<Task>>)
    ensures |deaths| == n
  {
    seq(n, _ => {})
  }

  /** The monitor alone, from any point of its pass to its end. */
  lemma {:induction false} MonitorFinishes(s: State) returns (actions: seq<Action>, states: seq<State>)
    requires Inv(s) && s.lock.HeldByMonitor?
    ensures PassTo(actions, states) && states[0] == s
    ensures forall k :: 0 <= k < |actions| ==> actions[k] == MonitorStep
    ensures DeathsDuring(actions, states) == NoDeaths(|DeathsDuring(actions, states)|)
    ensures states[|actions|].work == s.work.(monitor := MonitorIdle) && states[|actions|].timer == s.timer
    decreases SweepCost(|s.list|, s.lock.sweep)
  {
    var t := Step(s, MonitorStep);
    StepOk(s, MonitorStep);
    if t.lock.HeldByMonitor? {
      SweepLowersCost(Swept(s.list, s.ledger, s.lock.sweep), s.dead, false);
      var rest, after := MonitorFinishes(t);
      actions, states := Prepend(s, MonitorStep, rest, after);
      assert actions[1..] == rest && states[1..] == after;
    } else {
      actions, states := [MonitorStep], [s, t];
      assert Follows(s, MonitorStep, t);
    }
  }

  /** Without deaths an entry stays exactly if its task is alive. */
  lemma {:induction false} LeftWithoutDeaths(list: seq<Entry>, dead: set<Task>, e: Entry)
    ensures multiset(EntriesLeft(list, dead, NoDeaths(|list|)))[e]
         == if e.task in dead then 0 else multiset(list)[e]
  {
    if list != [] {
      LeftWithoutDeaths(list[1..], dead, e);
      FirstWithoutDeaths(list, dead);
      FirstCounts(list, e);
      CountCons(list[0], EntriesLeft(list[1..], dead, NoDeaths(|list| - 1)), e);
    }
  }

  lemma FirstWithoutDeaths(list: seq<Entry>, dead: set<Task>)
    requires list != []
    ensures EntriesLeft(list, dead, NoDeaths(|list|))
         == (if list[0].task in dead then [] else [list[0]]) + EntriesLeft(list[1..], dead, NoDeaths(|list| - 1))
  {
    assert NoDeaths(|list|)[1..] == NoDeaths(|list| - 1) && dead + {} == dead;
  }

  lemma FirstCounts(list: seq<Entry>, e: Entry)
    requires list != []
    ensures multiset(list)[e] == multiset{list[0]}[e] + multiset(list[1..])[e]
  {
    assert list == [list[0]] + list[1..];
  }

  /** Queued monitor work runs: alone, it tests the whole list once, and what stays are the entries
      of living tasks. */
  lemma {:induction false} MonitorAlone(s: State) returns (actions: seq<Action>, states: seq<State>)
    requires Inv(s) && s.work.monitorQueued && s.work.monitor == MonitorIdle && s.lock == Unlocked
    ensures Path(actions, states) && states[0] == s && |actions| > 1
    ensures actions[0] == MonitorStart && forall k :: 1 <= k < |actions| ==> actions[k] == MonitorStep
    ensures var t := states[|actions|];
            && t.work == s.work.(monitorQueued := false) && t.timer == s.timer && t.lock == Unlocked
            && Passed(s.list, s.dead, NoDeaths(|s.list|), t.list)
            && forall e :: multiset(t.list)[e] == if e.task in s.dead then 0 else multiset(s.list)[e]
  {
    var t := Step(s, MonitorStart);
    StepOk(s, MonitorStart);
    var u := Step(t, MonitorStep);
    StepOk(t, MonitorStep);
    var rest, after := MonitorFinishes(u);
    actions, states := Prepend(t, MonitorStep, rest, after);
    assert actions[1..] == rest && states[1..] == after;
    WholePass(actions, states);
    forall e ensures multiset(states[|actions|].list)[e] == if e.task in s.dead then 0 else multiset(s.list)[e] {
      LeftWithoutDeaths(s.list, s.dead, e);
    }
    actions, states := Prepend(s, MonitorStart, actions, states);
  }

  /** A timer that fires with the MON flag ends, if left alone, with no dead task in the list, every
      living one still there, and the timer pending again. */
  lemma {:induction false} FiringMonitors(s: State) returns (actions: seq<Action>, states: seq<State>)
    requires Inv(s) && s.timer.pending && s.timer.handler == Idle && s.timer.flag == MonTimer
    requires s.lock == Unlocked && s.work.monitor == MonitorIdle
    ensures Path(actions, states) && states[0] == FinishHandler(Step(s, Fire))
    ensures forall k :: 0 <= k < |actions| ==> actions[k] == MonitorStart || actions[k] == MonitorStep
    ensures var t := states[|actions|];
            && t.timer == s.timer && t.work.monitor == MonitorIdle && !t.work.monitorQueued
            && forall e :: multiset(t.list)[e] == if e.task in s.dead then 0 else multiset(s.list)[e]
  {
    FiringAlone(s);
    StepOk(s, Fire);
    FinishHandlerOk(Step(s, Fire));
    actions, states := MonitorAlone(FinishHandler(Step(s, Fire)));
  }

  // -- The drain at exit ----------------------------------------------------------------------

  /** A stretch of a path from a state with the lock free, through states in which exit holds it, to
      the state in which exit no longer does. */
  ghost predicate DrainTo(actions: seq<Action>, states: seq<State>) {
    && Path(actions, states) && |actions| > 1
    && states[0].lock == Unlocked && states[1].lock.HeldByExit?
    && (forall k :: 1 <= k < |actions| ==> states[k].lock.HeldByExit?)
    && !states[|actions|].lock.HeldByExit?
  }

  lemma ExitTakesLock(s: State, a: Action)
    requires Inv(s) && Enabled(s, a) && s.lock == Unlocked && Step(s, a).lock.HeldByExit?
    ensures a == ExitStep && AllReturned(s.calls) && Step(s, a).list == s.list && Step(s, a).ledger == s.ledger
  {
  }

  /** Only exit's last step gives up the lock, and then the list is empty. */
  lemma ExitReleases(s: State, a: Action)
    requires Inv(s) && Enabled(s, a) && s.lock.HeldByExit? && !Step(s, a).lock.HeldByExit?
    ensures a == ExitStep && s.list == [] && AllReturned(s.calls) && s.lock.sweep == Visit(0)
    ensures Step(s, a) == s.(lock := Unlocked, exit := Gone)
  {
  }

  /** While exit drains no entry is allocated, whoever moves. */
  lemma NothingGot(s: State, a: Action)
    requires Inv(s) && Enabled(s, a) && s.lock.HeldByExit?
    ensures Step(s, a).ledger.got == s.ledger.got
  {
    if a == ExitStep && s.lock.sweep != Visit(|s.list|) {
      SweepKeepsEntry(Swept(s.list, s.ledger, s.lock.sweep), s.dead, true, Entry(0, 0));
    }
  }

  lemma {:induction false} GotStays(actions: seq<Action>, states: seq<State>)
    requires Path(actions, states) && Inv(states[0])
    requires forall k :: 0 <= k < |states| ==> states[k].lock.HeldByExit?
    ensures Inv(states[|actions|]) && states[|actions|].ledger.got == states[0].ledger.got
  {
    if actions != [] {
      var n := |actions| - 1;
      GotStays(actions[..n], states[..n + 1]);
      assert Follows(states[n], actions[n], states[n + 1]);
      NothingGot(states[n], actions[n]);
      StepOk(states[n], actions[n]);
    }
  }

  /** With no call in flight and no entry in hand the ledger is settled by the list alone. */
  ghost predicate Settled(l: Ledger, list: seq<Entry>) {
    && l.refs == Tasks(list)
    && l.put == l.freed
    && l.got == multiset(list) + l.freed
  }

  lemma BetweenEntries(l: Ledger, calls: seq<Call>, list: seq<Entry>, at: nat)
    requires at <= |list| && LedgerOk(l, calls, list, Visit(at)) && AllReturned(calls)
    ensures Settled(l, list)
  {
    NobodyHolds(calls);
    forall e ensures l.put[e] == l.freed[e] && l.got[e] == (multiset(list) + l.freed)[e] {
      assert EntryOk(l, calls, list, Visit(at), e);
    }
    forall t ensures l.refs[t] == Tasks(list)[t] {
      assert TaskOk(l, calls, list, Visit(at), t);
    }
  }

  /** In every run, when exit has taken the lock after state i and no longer has it in state k, it
      has done what the drain on the heap does: the list is empty, every reference is returned, and
      of the entries ever allocated exactly those listed at its start were put and freed by it, once
      each, the others before. */
  lemma DrainInRun(actions: seq<Action>, states: seq<State>, i: nat, k: nat)
    requires Run(actions, states) && i + 1 < k <= |actions|
    requires states[i].lock == Unlocked && !states[k].lock.HeldByExit?
    requires forall j :: i < j < k ==> states[j].lock.HeldByExit?
    ensures states[k].exit == Gone && states[k].lock == Unlocked
    ensures var s, t := states[i], states[k];
            && s.ledger.refs == Tasks(s.list)
            && t.list == [] && t.ledger.refs == multiset{}
            && t.ledger.freed == t.ledger.put == s.ledger.freed + multiset(s.list) == t.ledger.got
  {
    InvAt(actions, states, i);
    PathPart(actions, states, i, k);
    WholeDrain(actions[i..k], states[i..k + 1]);
    NothingListed(states[k].ledger);
  }

  lemma NothingListed(l: Ledger)
    requires Settled(l, [])
    ensures l.refs == multiset{} && l.got == l.freed == l.put
  {
    assert Tasks([]) == multiset{};
  }

  lemma WholeDrain(actions: seq<Action>, states: seq<State>)
    requires DrainTo(actions, states) && Inv(states[0])
    ensures var s, t := states[0], states[|actions|];
            && Settled(s.ledger, s.list) && t.list == [] && Settled(t.ledger, t.list)
            && t.ledger.got == s.ledger.got && t.exit == Gone && t.lock == Unlocked
  {
    var n := |actions| - 1;
    PathTail(actions, states);
    ExitTakesLock(states[0], actions[0]);
    StepOk(states[0], actions[0]);
    PathPart(actions, states, 1, n);
    GotStays(actions[1..n], states[1..n + 1]);
    assert Follows(states[n], actions[n], states[n + 1]);
    ExitReleases(states[n], actions[n]);
    BetweenEntries(states[0].ledger, states[0].calls, states[0].list, 0);
    BetweenEntries(states[n].ledger, states[n].calls, states[n].list, 0);
  }
}
