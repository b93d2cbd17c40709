/** The actors of labs/lab13/deferred/kernel/deferred.c: any number of ioctl calls, the timer and its
    handler, the two works, and the module's exit, interleaved one access at a time.

    `get_proc` is taken to find the task and the memory. Calls are not serialised. An open file pins
    the module, so exit starts once every call has returned and no call starts afterwards.
  */
module Deferred {
  import opened Sums

  type Task = nat

  /** A `mon_proc`; `id` tells apart allocations, also of the same task. */
  datatype Entry = Entry(id: nat, task: Task)

  datatype Flag = NoTimer | SetTimer | AllocTimer | MonTimer

  /** What a call of `deferred_ioctl` does next. */
  datatype Call =
    | WriteFlag(flag: Flag)
    | ArmTimer
    | CancelTimer
    | GetProc(task: Task)
    | TakeLock(entry: Entry)
    | Link(entry: Entry)
    | DropLock
    | Returned

  /** What `timer_handler` does next. */
  datatype Handler = Idle | TestSet | TestAlloc | TestMon | QueueIo | QueueMonitor | Rearm

  /** Inside `list_for_each_entry_safe`, at the entry with index `at`. */
  datatype Sweep = Visit(at: nat) | Put(at: nat) | Unlink(at: nat) | Free(entry: Entry, at: nat)

  datatype Lock = Unlocked | HeldByCall(call: nat) | HeldByMonitor(sweep: Sweep) | HeldByExit(sweep: Sweep)

  datatype Monitor = MonitorIdle | MonitorStarts | MonitorSweeps

  datatype Exit = Loaded | DeleteTimer | FlushIo | FlushMonitor | LockList | Drain | Gone

  /** `armed` says that an ioctl's `mod_timer` came after the last flag write and CANCEL;
      `cancelled`, that a CANCEL came after the last `mod_timer` of an ioctl. */
  datatype Timer = Timer(flag: Flag, pending: bool, handler: Handler, armed: bool, cancelled: bool)

  datatype Work = Work(ioQueued: bool, ioRunning: bool, monitorQueued: bool, monitor: Monitor)

  /** `refs` are the task references the module holds. `got`, `put` and `freed` record which entries
      were allocated, had their reference returned, and were freed. */
  datatype Ledger = Ledger(refs: multiset<Task>, got: multiset<Entry>, put: multiset<Entry>,
                           freed: multiset<Entry>, nextId: nat)

  datatype State = State(timer: Timer, work: Work, exit: Exit, lock: Lock, list: seq<Entry>,
                         calls: seq<Call>, ledger: Ledger, dead: set<Task>)

  const LOADED := State(Timer(NoTimer, false, Idle, false, false), Work(false, false, false, MonitorIdle),
                        Loaded, Unlocked, [], [],
                        Ledger(multiset{}, multiset{}, multiset{}, multiset{}, 0), {})

  datatype Action =
    | Begin(call: Call)
    | CallStep(i: nat)
    | Fire
    | HandlerStep
    | IoStart
    | IoEnd
    | MonitorStart
    | MonitorStep
    | Die(task: Task)
    | ExitStep

  // -- The steps -----------------------------------------------------------------------------

  predicate AllReturned(calls: seq<Call>) {
    forall i :: 0 <= i < |calls| ==> calls[i] == Returned
  }

  predicate CanSweep(list: seq<Entry>, sweep: Sweep) {
    match sweep
    case Visit(at) => at <= |list|
    case Put(at) => at < |list|
    case Unlink(at) => at < |list|
    case Free(_, at) => at <= |list|
  }

  /** The calls a process can make; MON's flag write comes later in the same call. */
  predicate CanBegin(call: Call) {
    call == WriteFlag(SetTimer) || call == WriteFlag(AllocTimer) || call == CancelTimer || call.GetProc?
  }

  predicate Enabled(s: State, a: Action) {
    match a
    case Begin(call) => s.exit == Loaded && CanBegin(call)
    case CallStep(i) =>
      i < |s.calls| && s.calls[i] != Returned && (s.calls[i].TakeLock? ==> s.lock == Unlocked)
    case Fire => s.timer.pending && s.timer.handler == Idle
    case HandlerStep => s.timer.handler != Idle
    case IoStart => s.work.ioQueued && !s.work.ioRunning
    case IoEnd => s.work.ioRunning
    case MonitorStart => s.work.monitorQueued && s.work.monitor == MonitorIdle
    case MonitorStep =>
      (s.work.monitor == MonitorStarts && s.lock == Unlocked)
      || (s.work.monitor == MonitorSweeps && s.lock.HeldByMonitor? && CanSweep(s.list, s.lock.sweep))
    case Die(_) => true
    case ExitStep =>
      match s.exit
      case Loaded => AllReturned(s.calls)
      case DeleteTimer => s.timer.handler == Idle      // del_timer_sync waits for the handler
      case FlushIo => !s.work.ioQueued && !s.work.ioRunning
      case FlushMonitor => !s.work.monitorQueued && s.work.monitor == MonitorIdle
      case LockList => s.lock == Unlocked
      case Drain => s.lock.HeldByExit? && CanSweep(s.list, s.lock.sweep)
      case Gone => false
  }

  /** Where a call goes next; `id` names the entry `get_proc` allocates. */
  function NextInCall(call: Call, id: nat): Call {
    match call
    case WriteFlag(_) => ArmTimer
    case GetProc(task) => TakeLock(Entry(id, task))
    case TakeLock(e) => Link(e)
    case Link(_) => DropLock
    case DropLock => WriteFlag(MonTimer)
    case _ => Returned
  }

  function TimerAfter(call: Call, t: Timer): Timer {
    match call
    case WriteFlag(flag) => t.(flag := flag, armed := false)
    case ArmTimer => t.(pending := true, armed := true, cancelled := false)
    case CancelTimer => t.(pending := false, armed := false, cancelled := true)
    case _ => t
  }

  function StepCall(s: State, i: nat): State
    requires Enabled(s, CallStep(i))
  {
    var call := s.calls[i];
    s.(timer := TimerAfter(call, s.timer),
       lock := if call.TakeLock? then HeldByCall(i) else if call.DropLock? then Unlocked else s.lock,
       list := ListAfter(call, s.list),
       ledger := LedgerAfter(call, s.ledger),
       calls := s.calls[i := NextInCall(call, s.ledger.nextId)])
  }

  function ListAfter(call: Call, list: seq<Entry>): seq<Entry> {
    if call.Link? then [call.entry] + list else list
  }

  function LedgerAfter(call: Call, l: Ledger): Ledger {
    if call.GetProc? then GotProc(l, Entry(l.nextId, call.task)) else l
  }

  function GotProc(l: Ledger, e: Entry): Ledger {
    l.(refs := l.refs + multiset{e.task}, got := l.got + multiset{e}, nextId := l.nextId + 1)
  }

  function PutTask(l: Ledger, e: Entry): Ledger {
    l.(refs := l.refs - multiset{e.task}, put := l.put + multiset{e})
  }

  function FreeEntry(l: Ledger, e: Entry): Ledger {
    l.(freed := l.freed + multiset{e})
  }

  function StepHandler(s: State): State {
    var t := s.timer;
    match t.handler
    case Idle => s
    case TestSet => s.(timer := t.(handler := if t.flag == SetTimer then Rearm else TestAlloc))
    case TestAlloc => s.(timer := t.(handler := if t.flag == AllocTimer then QueueIo else TestMon))
    case TestMon => s.(timer := t.(handler := if t.flag == MonTimer then QueueMonitor else Idle))
    case QueueIo => s.(work := s.work.(ioQueued := true), timer := t.(handler := Idle))
    case QueueMonitor => s.(work := s.work.(monitorQueued := true), timer := t.(handler := Rearm))
    case Rearm => s.(timer := t.(pending := true, handler := Idle))
  }

  /** What a sweep works on: the list, the ledger and where it is. */
  datatype Swept = Swept(list: seq<Entry>, ledger: Ledger, sweep: Sweep)

  /** One access of a sweep that has not reached the end. */
  function StepSweep(w: Swept, dead: set<Task>, everything: bool): Swept
    requires CanSweep(w.list, w.sweep) && w.sweep != Visit(|w.list|)
  {
    match w.sweep
    case Visit(i) => w.(sweep := if everything || w.list[i].task in dead then Put(i) else Visit(i + 1))
    case Put(i) => w.(ledger := PutTask(w.ledger, w.list[i]), sweep := Unlink(i))
    case Unlink(i) => w.(list := w.list[..i] + w.list[i + 1..], sweep := Free(w.list[i], i))
    case Free(e, i) => w.(ledger := FreeEntry(w.ledger, e), sweep := Visit(i))
  }

  function StepMonitor(s: State): State
    requires Enabled(s, MonitorStep)
  {
    if s.work.monitor == MonitorStarts then
      s.(work := s.work.(monitor := MonitorSweeps), lock := HeldByMonitor(Visit(0)))
    else if s.lock.sweep == Visit(|s.list|) then
      s.(work := s.work.(monitor := MonitorIdle), lock := Unlocked)
    else
      var w := StepSweep(Swept(s.list, s.ledger, s.lock.sweep), s.dead, false);
      s.(list := w.list, ledger := w.ledger, lock := HeldByMonitor(w.sweep))
  }

  function StepExit(s: State): State
    requires Enabled(s, ExitStep)
  {
    match s.exit
    case Loaded => s.(exit := DeleteTimer)
    case DeleteTimer => s.(timer := s.timer.(pending := false), exit := FlushIo)
    case FlushIo => s.(exit := FlushMonitor)
    case FlushMonitor => s.(exit := LockList)
    case LockList => s.(lock := HeldByExit(Visit(0)), exit := Drain)
    case Drain =>
      if s.lock.sweep == Visit(|s.list|) then s.(lock := Unlocked, exit := Gone)
      else
        var w := StepSweep(Swept(s.list, s.ledger, s.lock.sweep), s.dead, true);
        s.(list := w.list, ledger := w.ledger, lock := HeldByExit(w.sweep))
  }

  function Step(s: State, a: Action): State
    requires Enabled(s, a)
  {
    match a
    case Begin(call) => s.(calls := s.calls + [call])
    case CallStep(i) => StepCall(s, i)
    case Fire => s.(timer := s.timer.(pending := false, handler := TestSet))
    case HandlerStep => StepHandler(s)
    case IoStart => s.(work := s.work.(ioQueued := false, ioRunning := true))
    case IoEnd => s.(work := s.work.(ioRunning := false))
    case MonitorStart => s.(work := s.work.(monitorQueued := false, monitor := MonitorStarts))
    case MonitorStep => StepMonitor(s)
    case Die(task) => s.(dead := s.dead + {task})
    case ExitStep => StepExit(s)
  }

  // -- Who holds the list lock, and how far teardown has got ----------------------------------

  predicate InCriticalSection(call: Call) {
    call.Link? || call.DropLock?
  }

  ghost predicate CallsOk(calls: seq<Call>, lock: Lock) {
    && (forall i :: 0 <= i < |calls| ==> (InCriticalSection(calls[i]) <==> lock == HeldByCall(i)))
    && (lock.HeldByCall? ==> lock.call < |calls|)
  }

  ghost predicate SweepOk(s: State) {
    && (s.lock.HeldByMonitor? <==> s.work.monitor == MonitorSweeps)
    && (s.lock.HeldByExit? <==> s.exit == Drain)
    && (s.lock.HeldByMonitor? || s.lock.HeldByExit? ==> CanSweep(s.list, s.lock.sweep))
    && (s.lock.HeldByExit? ==> s.lock.sweep.at == 0)
  }

  function Stage(exit: Exit): nat {
    match exit
    case Loaded => 0
    case DeleteTimer => 1
    case FlushIo => 2
    case FlushMonitor => 3
    case LockList => 4
    case Drain => 5
    case Gone => 6
  }

  /** How far exit has got decides what can still be active. */
  ghost predicate TeardownOk(s: State) {
    && (Stage(s.exit) > 0 ==> AllReturned(s.calls))
    && (Stage(s.exit) > 1 ==> !s.timer.pending && s.timer.handler == Idle)
    && (Stage(s.exit) > 2 ==> !s.work.ioQueued && !s.work.ioRunning)
    && (Stage(s.exit) > 3 ==> !s.work.monitorQueued && s.work.monitor == MonitorIdle)
    && (Stage(s.exit) > 5 ==> s.list == [] && s.lock == Unlocked)
  }

  ghost predicate ControlOk(s: State) {
    CallsOk(s.calls, s.lock) && SweepOk(s) && TeardownOk(s)
  }

  lemma CallMeansLoaded(s: State, i: nat)
    requires TeardownOk(s) && Enabled(s, CallStep(i))
    ensures s.exit == Loaded
  {
  }

  lemma CallsUpdate(calls: seq<Call>, lock: Lock, i: nat, call: Call, newLock: Lock)
    requires CallsOk(calls, lock) && i < |calls|
    requires InCriticalSection(call) <==> newLock == HeldByCall(i)
    requires lock == newLock || (lock == Unlocked && newLock == HeldByCall(i))
             || (lock == HeldByCall(i) && newLock == Unlocked)
    ensures CallsOk(calls[i := call], newLock)
  {
    forall j | 0 <= j < |calls| ensures InCriticalSection(calls[i := call][j]) <==> newLock == HeldByCall(j) {
      assert InCriticalSection(calls[j]) <==> lock == HeldByCall(j);
    }
  }

  lemma CallKeepsControl(s: State, i: nat)
    requires ControlOk(s) && Enabled(s, CallStep(i))
    ensures ControlOk(StepCall(s, i))
  {
    CallMeansLoaded(s, i);
    assert InCriticalSection(s.calls[i]) <==> s.lock == HeldByCall(i);
    var t := StepCall(s, i);
    CallsUpdate(s.calls, s.lock, i, t.calls[i], t.lock);
  }

  lemma MonitorKeepsControl(s: State)
    requires ControlOk(s) && Enabled(s, MonitorStep)
    ensures ControlOk(StepMonitor(s))
  {
  }

  lemma ExitKeepsControl(s: State)
    requires ControlOk(s) && Enabled(s, ExitStep)
    ensures ControlOk(StepExit(s))
  {
  }

  lemma BeginKeepsControl(s: State, call: Call)
    requires ControlOk(s) && Enabled(s, Begin(call))
    ensures ControlOk(Step(s, Begin(call)))
  {
    var t := Step(s, Begin(call));
    forall i | 0 <= i < |t.calls| ensures InCriticalSection(t.calls[i]) <==> t.lock == HeldByCall(i) {
      assert i < |s.calls| ==> t.calls[i] == s.calls[i];
    }
  }

  lemma StepKeepsControl(s: State, a: Action)
    requires ControlOk(s) && Enabled(s, a)
    ensures ControlOk(Step(s, a))
  {
    match a
    case CallStep(i) => CallKeepsControl(s, i);
    case MonitorStep => MonitorKeepsControl(s);
    case ExitStep => ExitKeepsControl(s);
    case Begin(call) => BeginKeepsControl(s, call);
    case _ =>
  }

  // -- Every entry and every task reference is accounted for ---------------------------------

  /** The entry a call has obtained and not yet linked. */
  ghost function Holds(call: Call): multiset<Entry> {
    if call.TakeLock? || call.Link? then multiset{call.entry} else multiset{}
  }

  ghost function HoldsTask(call: Call): multiset<Task> {
    if call.TakeLock? || call.Link? then multiset{call.entry.task} else multiset{}
  }

  ghost function Held(calls: seq<Call>): seq<multiset<Entry>> {
    seq(|calls|, i requires 0 <= i < |calls| => Holds(calls[i]))
  }

  ghost function HeldTasks(calls: seq<Call>): seq<multiset<Task>> {
    seq(|calls|, i requires 0 <= i < |calls| => HoldsTask(calls[i]))
  }

  ghost function Tasks(list: seq<Entry>): multiset<Task> {
    multiset(seq(|list|, i requires 0 <= i < |list| => list[i].task))
  }

  /** The entry a sweep has unlinked and not yet freed. */
  ghost function InHand(sweep: Sweep): multiset<Entry> {
    if sweep.Free? then multiset{sweep.entry} else multiset{}
  }

  /** The entry a sweep has returned the reference of and not yet unlinked. */
  ghost function PutButLinked(list: seq<Entry>, sweep: Sweep): multiset<Entry>
    requires CanSweep(list, sweep)
  {
    if sweep.Unlink? then multiset{list[sweep.at]} else multiset{}
  }

  ghost function PutButLinkedTask(list: seq<Entry>, sweep: Sweep): multiset<Task>
    requires CanSweep(list, sweep)
  {
    if sweep.Unlink? then multiset{list[sweep.at].task} else multiset{}
  }

  /** The sweep in progress, if any; an idle list reads as a sweep that has not begun. */
  function CurrentSweep(lock: Lock): Sweep {
    if lock.HeldByMonitor? || lock.HeldByExit? then lock.sweep else Visit(0)
  }

  /** Entry `e` was allocated at most once and is in exactly one place since: held by a call, in
      the list, in a sweep's hand, or freed; its reference was returned iff it is past that point. */
  ghost predicate EntryOk(l: Ledger, calls: seq<Call>, list: seq<Entry>, sweep: Sweep, e: Entry)
    requires CanSweep(list, sweep)
  {
    && l.got[e] <= 1
    && (e.id >= l.nextId ==> l.got[e] == 0)
    && l.got[e] == Gather(Held(calls))[e] + multiset(list)[e] + InHand(sweep)[e] + l.freed[e]
    && l.put[e] == PutButLinked(list, sweep)[e] + InHand(sweep)[e] + l.freed[e]
  }

  /** The references on `t` are those of the calls' unlinked entries and of the list's entries. */
  ghost predicate TaskOk(l: Ledger, calls: seq<Call>, list: seq<Entry>, sweep: Sweep, t: Task)
    requires CanSweep(list, sweep)
  {
    l.refs[t] + PutButLinkedTask(list, sweep)[t] == Gather(HeldTasks(calls))[t] + Tasks(list)[t]
  }

  ghost predicate LedgerOk(l: Ledger, calls: seq<Call>, list: seq<Entry>, sweep: Sweep)
    requires CanSweep(list, sweep)
  {
    (forall e :: EntryOk(l, calls, list, sweep, e)) && (forall t :: TaskOk(l, calls, list, sweep, t))
  }

  ghost predicate Inv(s: State) {
    && ControlOk(s)
    && CanSweep(s.list, CurrentSweep(s.lock))
    && LedgerOk(s.ledger, s.calls, s.list, CurrentSweep(s.lock))
  }

  lemma TasksCons(e: Entry, list: seq<Entry>, t: Task)
    ensures Tasks([e] + list)[t] == multiset{e.task}[t] + Tasks(list)[t]
  {
    var of := seq(|list|, i requires 0 <= i < |list| => list[i].task);
    assert seq(|[e] + list|, i requires 0 <= i < |[e] + list| => ([e] + list)[i].task) == [e.task] + of;
  }

  lemma TasksWithout(list: seq<Entry>, i: nat, t: Task)
    requires i < |list|
    ensures Tasks(list)[t] == Tasks(list[..i] + list[i + 1..])[t] + multiset{list[i].task}[t]
    ensures Tasks(list)[list[i].task] >= 1
  {
    var of := seq(|list|, k requires 0 <= k < |list| => list[k].task);
    var rest := list[..i] + list[i + 1..];
    var ofRest := seq(|rest|, k requires 0 <= k < |rest| => rest[k].task);
    assert ofRest == of[..i] + of[i + 1..];
    assert of == of[..i] + [of[i]] + of[i + 1..];
  }

  lemma ListWithout(list: seq<Entry>, i: nat, e: Entry)
    requires i < |list|
    ensures multiset(list)[e] == multiset(list[..i] + list[i + 1..])[e] + multiset{list[i]}[e]
  {
    assert list == list[..i] + [list[i]] + list[i + 1..];
  }

  // -- One step of a sweep

  lemma SweepKeepsEntry(w: Swept, dead: set<Task>, everything: bool, e: Entry)
    requires CanSweep(w.list, w.sweep) && w.sweep != Visit(|w.list|)
    ensures var v := StepSweep(w, dead, everything);
            && CanSweep(v.list, v.sweep)
            && v.ledger.got == w.ledger.got && v.ledger.nextId == w.ledger.nextId
            && multiset(v.list)[e] + InHand(v.sweep)[e] + v.ledger.freed[e]
            == multiset(w.list)[e] + InHand(w.sweep)[e] + w.ledger.freed[e]
            && (w.ledger.put[e] == PutButLinked(w.list, w.sweep)[e] + InHand(w.sweep)[e] + w.ledger.freed[e]
            ==> v.ledger.put[e] == PutButLinked(v.list, v.sweep)[e] + InHand(v.sweep)[e] + v.ledger.freed[e])
  {
    if w.sweep.Unlink? {
      ListWithout(w.list, w.sweep.at, e);
    }
  }

  lemma SweepKeepsTask(w: Swept, dead: set<Task>, everything: bool, held: nat, t: Task)
    requires CanSweep(w.list, w.sweep) && w.sweep != Visit(|w.list|)
    requires w.ledger.refs[t] + PutButLinkedTask(w.list, w.sweep)[t] == held + Tasks(w.list)[t]
    ensures var v := StepSweep(w, dead, everything);
            v.ledger.refs[t] + PutButLinkedTask(v.list, v.sweep)[t] == held + Tasks(v.list)[t]
  {
    if w.sweep.Unlink? || w.sweep.Put? {
      TasksWithout(w.list, w.sweep.at, t);
    }
  }

  // -- One step of a call

  lemma HeldUpdate(calls: seq<Call>, i: nat, call: Call, e: Entry)
    requires i < |calls|
    ensures Gather(Held(calls[i := call]))[e] + Holds(calls[i])[e] == Gather(Held(calls))[e] + Holds(call)[e]
  {
    assert Held(calls[i := call]) == Held(calls)[i := Holds(call)];
    GatherUpdate(Held(calls), i, Holds(call), e);
  }

  lemma HeldTasksUpdate(calls: seq<Call>, i: nat, call: Call, t: Task)
    requires i < |calls|
    ensures Gather(HeldTasks(calls[i := call]))[t] + HoldsTask(calls[i])[t]
         == Gather(HeldTasks(calls))[t] + HoldsTask(call)[t]
  {
    assert HeldTasks(calls[i := call]) == HeldTasks(calls)[i := HoldsTask(call)];
    GatherUpdate(HeldTasks(calls), i, HoldsTask(call), t);
  }

  lemma HeldExtend(calls: seq<Call>, call: Call)
    requires CanBegin(call)
    ensures Gather(Held(calls + [call])) == Gather(Held(calls))
    ensures Gather(HeldTasks(calls + [call])) == Gather(HeldTasks(calls))
  {
    assert Held(calls + [call]) == Held(calls) + [multiset{}];
    assert HeldTasks(calls + [call]) == HeldTasks(calls) + [multiset{}];
    GatherNothingMore(Held(calls));
    GatherNothingMore(HeldTasks(calls));
  }

  lemma CallKeepsSweep(s: State, i: nat)
    requires ControlOk(s) && Enabled(s, CallStep(i))
    ensures CurrentSweep(StepCall(s, i).lock) == CurrentSweep(s.lock)
    ensures s.calls[i].Link? ==> CurrentSweep(s.lock) == Visit(0)
  {
    assert InCriticalSection(s.calls[i]) <==> s.lock == HeldByCall(i);
  }

  lemma CountCons<T>(x: T, list: seq<T>, y: T)
    ensures multiset([x] + list)[y] == multiset{x}[y] + multiset(list)[y]
  {
  }

  lemma LinkKeepsEntry(l: Ledger, calls: seq<Call>, i: nat, list: seq<Entry>, after: seq<Call>, e: Entry)
    requires EntryOk(l, calls, list, Visit(0), e)
    requires i < |calls| && calls[i].Link? && after == calls[i := DropLock]
    ensures EntryOk(l, after, [calls[i].entry] + list, Visit(0), e)
  {
    HeldWithoutLinked(calls, i, e);
    CountCons(calls[i].entry, list, e);
  }

  lemma HeldWithoutLinked(calls: seq<Call>, i: nat, e: Entry)
    requires i < |calls| && calls[i].Link?
    ensures Gather(Held(calls[i := DropLock]))[e] + multiset{calls[i].entry}[e] == Gather(Held(calls))[e]
  {
    HeldUpdate(calls, i, DropLock, e);
  }

  lemma LinkKeepsTask(l: Ledger, calls: seq<Call>, i: nat, list: seq<Entry>, after: seq<Call>, t: Task)
    requires TaskOk(l, calls, list, Visit(0), t)
    requires i < |calls| && calls[i].Link? && after == calls[i := DropLock]
    ensures TaskOk(l, after, [calls[i].entry] + list, Visit(0), t)
  {
    HeldTasksUpdate(calls, i, DropLock, t);
    TasksCons(calls[i].entry, list, t);
  }

  lemma LinkKeepsLedger(l: Ledger, calls: seq<Call>, i: nat, list: seq<Entry>)
    requires LedgerOk(l, calls, list, Visit(0))
    requires i < |calls| && calls[i].Link?
    ensures LedgerOk(l, calls[i := DropLock], [calls[i].entry] + list, Visit(0))
  {
    var after, now := calls[i := DropLock], [calls[i].entry] + list;
    forall e ensures EntryOk(l, after, now, Visit(0), e) {
      assert EntryOk(l, calls, list, Visit(0), e);
      LinkKeepsEntry(l, calls, i, list, after, e);
    }
    forall t ensures TaskOk(l, after, now, Visit(0), t) {
      assert TaskOk(l, calls, list, Visit(0), t);
      LinkKeepsTask(l, calls, i, list, after, t);
    }
  }

  lemma GetProcKeepsEntry(l: Ledger, calls: seq<Call>, i: nat, e0: Entry, list: seq<Entry>, sweep: Sweep,
                          after: seq<Call>, e: Entry)
    requires CanSweep(list, sweep) && EntryOk(l, calls, list, sweep, e) && e0.id == l.nextId
    requires i < |calls| && calls[i].GetProc? && after == calls[i := TakeLock(e0)]
    ensures EntryOk(GotProc(l, e0), after, list, sweep, e)
  {
    HeldUpdate(calls, i, TakeLock(e0), e);
  }

  lemma GetProcKeepsLedger(l: Ledger, calls: seq<Call>, i: nat, e0: Entry, list: seq<Entry>, sweep: Sweep)
    requires CanSweep(list, sweep) && LedgerOk(l, calls, list, sweep) && e0.id == l.nextId
    requires i < |calls| && calls[i].GetProc?
    ensures LedgerOk(GotProc(l, e0), calls[i := TakeLock(e0)], list, sweep)
  {
    var after, m := calls[i := TakeLock(e0)], GotProc(l, e0);
    forall e ensures EntryOk(m, after, list, sweep, e) {
      assert EntryOk(l, calls, list, sweep, e);
      GetProcKeepsEntry(l, calls, i, e0, list, sweep, after, e);
    }
    forall t ensures TaskOk(m, after, list, sweep, t) {
      assert TaskOk(l, calls, list, sweep, t);
      GetProcKeepsTask(l, calls, i, e0, list, sweep, after, t);
    }
  }

  lemma GetProcKeepsTask(l: Ledger, calls: seq<Call>, i: nat, e0: Entry, list: seq<Entry>, sweep: Sweep,
                         after: seq<Call>, t: Task)
    requires CanSweep(list, sweep) && TaskOk(l, calls, list, sweep, t)
    requires i < |calls| && calls[i].GetProc? && after == calls[i := TakeLock(e0)]
    ensures TaskOk(GotProc(l, e0), after, list, sweep, t)
  {
    HeldTasksUpdate(calls, i, TakeLock(e0), t);
  }

  lemma OtherCallKeepsLedger(l: Ledger, calls: seq<Call>, i: nat, call: Call, list: seq<Entry>, sweep: Sweep)
    requires CanSweep(list, sweep) && LedgerOk(l, calls, list, sweep)
    requires i < |calls| && Holds(call) == Holds(calls[i]) && HoldsTask(call) == HoldsTask(calls[i])
    ensures LedgerOk(l, calls[i := call], list, sweep)
  {
    var after := calls[i := call];
    forall e ensures EntryOk(l, after, list, sweep, e) {
      assert EntryOk(l, calls, list, sweep, e);
      HeldUpdate(calls, i, call, e);
    }
    forall t ensures TaskOk(l, after, list, sweep, t) {
      assert TaskOk(l, calls, list, sweep, t);
      HeldTasksUpdate(calls, i, call, t);
    }
  }

  lemma NextKeepsLedger(l: Ledger, calls: seq<Call>, i: nat, list: seq<Entry>, sweep: Sweep)
    requires CanSweep(list, sweep) && LedgerOk(l, calls, list, sweep)
    requires i < |calls| && calls[i] != Returned && (calls[i].Link? ==> sweep == Visit(0))
    ensures var list' := ListAfter(calls[i], list);
            && CanSweep(list', sweep)
            && LedgerOk(LedgerAfter(calls[i], l), calls[i := NextInCall(calls[i], l.nextId)], list', sweep)
  {
    if calls[i].Link? {
      LinkKeepsLedger(l, calls, i, list);
    } else if calls[i].GetProc? {
      GetProcKeepsLedger(l, calls, i, Entry(l.nextId, calls[i].task), list, sweep);
    } else {
      SameHeld(calls[i], l.nextId);
      OtherCallKeepsLedger(l, calls, i, NextInCall(calls[i], l.nextId), list, sweep);
    }
  }

  lemma SameHeld(call: Call, id: nat)
    requires !call.Link? && !call.GetProc?
    ensures Holds(NextInCall(call, id)) == Holds(call) && HoldsTask(NextInCall(call, id)) == HoldsTask(call)
  {
  }

  lemma CallKeepsLedger(s: State, i: nat)
    requires Inv(s) && Enabled(s, CallStep(i))
    ensures var t := StepCall(s, i);
            CanSweep(t.list, CurrentSweep(t.lock)) && LedgerOk(t.ledger, t.calls, t.list, CurrentSweep(t.lock))
  {
    CallKeepsSweep(s, i);
    NextKeepsLedger(s.ledger, s.calls, i, s.list, CurrentSweep(s.lock));
  }

  lemma SweepKeepsLedger(w: Swept, dead: set<Task>, everything: bool, calls: seq<Call>)
    requires CanSweep(w.list, w.sweep) && w.sweep != Visit(|w.list|)
    requires LedgerOk(w.ledger, calls, w.list, w.sweep)
    ensures var v := StepSweep(w, dead, everything);
            CanSweep(v.list, v.sweep) && LedgerOk(v.ledger, calls, v.list, v.sweep)
  {
    var v := StepSweep(w, dead, everything);
    SweepKeepsEntry(w, dead, everything, Entry(0, 0));
    forall e ensures EntryOk(v.ledger, calls, v.list, v.sweep, e) {
      assert EntryOk(w.ledger, calls, w.list, w.sweep, e);
      SweepKeepsEntry(w, dead, everything, e);
    }
    forall t ensures TaskOk(v.ledger, calls, v.list, v.sweep, t) {
      assert TaskOk(w.ledger, calls, w.list, w.sweep, t);
      SweepKeepsTask(w, dead, everything, Gather(HeldTasks(calls))[t], t);
    }
  }

  lemma BeginKeepsLedger(l: Ledger, calls: seq<Call>, call: Call, list: seq<Entry>, sweep: Sweep)
    requires CanSweep(list, sweep) && LedgerOk(l, calls, list, sweep) && CanBegin(call)
    ensures LedgerOk(l, calls + [call], list, sweep)
  {
    HeldExtend(calls, call);
    forall e ensures EntryOk(l, calls + [call], list, sweep, e) {
      assert EntryOk(l, calls, list, sweep, e);
    }
    forall t ensures TaskOk(l, calls + [call], list, sweep, t) {
      assert TaskOk(l, calls, list, sweep, t);
    }
  }

  lemma MonitorKeepsLedger(s: State)
    requires Inv(s) && Enabled(s, MonitorStep)
    ensures Inv(StepMonitor(s))
  {
    MonitorKeepsControl(s);
    if s.work.monitor == MonitorSweeps && s.lock.sweep != Visit(|s.list|) {
      SweepKeepsLedger(Swept(s.list, s.ledger, s.lock.sweep), s.dead, false, s.calls);
    } else {
      SameLedger(s.ledger, s.calls, s.list, CurrentSweep(s.lock), CurrentSweep(StepMonitor(s).lock));
    }
  }

  lemma ExitKeepsLedger(s: State)
    requires Inv(s) && Enabled(s, ExitStep)
    ensures Inv(StepExit(s))
  {
    ExitKeepsControl(s);
    if s.exit == Drain && s.lock.sweep != Visit(|s.list|) {
      SweepKeepsLedger(Swept(s.list, s.ledger, s.lock.sweep), s.dead, true, s.calls);
    } else {
      SameLedger(s.ledger, s.calls, s.list, CurrentSweep(s.lock), CurrentSweep(StepExit(s).lock));
    }
  }

  lemma SameLedger(l: Ledger, calls: seq<Call>, list: seq<Entry>, was: Sweep, now: Sweep)
    requires CanSweep(list, was) && LedgerOk(l, calls, list, was)
    requires was == now || (was.Visit? && now == Visit(0))
    ensures LedgerOk(l, calls, list, now)
  {
    forall e ensures EntryOk(l, calls, list, now, e) {
      assert EntryOk(l, calls, list, was, e);
    }
    forall t ensures TaskOk(l, calls, list, now, t) {
      assert TaskOk(l, calls, list, was, t);
    }
  }

  lemma StepOk(s: State, a: Action)
    requires Inv(s) && Enabled(s, a)
    ensures Inv(Step(s, a))
  {
    StepKeepsControl(s, a);
    match a
    case Begin(call) => BeginKeepsLedger(s.ledger, s.calls, call, s.list, CurrentSweep(s.lock));
    case CallStep(i) => CallKeepsLedger(s, i);
    case MonitorStep => MonitorKeepsLedger(s);
    case ExitStep => ExitKeepsLedger(s);
    case _ =>
  }

  // -- The timer keeps itself armed ----------------------------------------------------------

  predicate Repeats(flag: Flag) {
    flag == SetTimer || flag == MonTimer
  }

  /** With the flag as it is, the running handler will reach `mod_timer`. */
  predicate WillRearm(handler: Handler, flag: Flag) {
    match handler
    case Idle => false
    case TestSet => Repeats(flag)
    case TestAlloc => flag == MonTimer
    case TestMon => flag == MonTimer
    case QueueIo => false
    case QueueMonitor => true
    case Rearm => true
  }

  ghost predicate ArmedOk(t: Timer) {
    t.armed && Repeats(t.flag) ==> t.pending || WillRearm(t.handler, t.flag)
  }

  /** An unarmed timer was cancelled, or never set, or the call that set the flag has yet to arm it. */
  ghost predicate UnarmedOk(t: Timer, calls: seq<Call>) {
    t.armed || t.cancelled || t.flag == NoTimer || exists i :: 0 <= i < |calls| && calls[i] == ArmTimer
  }

  ghost predicate TimerOk(s: State) {
    Stage(s.exit) <= 1 ==> ArmedOk(s.timer) && UnarmedOk(s.timer, s.calls)
  }

  lemma CallKeepsTimer(s: State, i: nat)
    requires Inv(s) && TimerOk(s) && Enabled(s, CallStep(i))
    ensures TimerOk(StepCall(s, i))
  {
    CallMeansLoaded(s, i);
    var t := StepCall(s, i);
    if s.calls[i].WriteFlag? {
      assert t.calls[i] == ArmTimer;
    } else if !t.timer.armed && !t.timer.cancelled && t.timer.flag != NoTimer {
      var j :| 0 <= j < |s.calls| && s.calls[j] == ArmTimer;
      assert t.calls[j] == ArmTimer;
    }
  }

  lemma StepKeepsTimer(s: State, a: Action)
    requires Inv(s) && TimerOk(s) && Enabled(s, a)
    ensures TimerOk(Step(s, a))
  {
    match a
    case CallStep(i) => CallKeepsTimer(s, i);
    case Begin(call) =>
      if exists i :: 0 <= i < |s.calls| && s.calls[i] == ArmTimer {
        var i :| 0 <= i < |s.calls| && s.calls[i] == ArmTimer;
        assert Step(s, a).calls[i] == ArmTimer;
      }
    case _ =>
  }

  /** The handler run to its end with nothing in between. */
  function FinishHandler(s: State): State
    decreases HandlerRank(s.timer.handler)
  {
    if s.timer.handler == Idle then s else FinishHandler(StepHandler(s))
  }

  function HandlerRank(handler: Handler): nat {
    match handler
    case Idle => 0
    case TestSet => 5
    case TestAlloc => 4
    case TestMon => 3
    case QueueMonitor => 2
    case QueueIo => 1
    case Rearm => 1
  }

  /** `WillRearm` means what it says, in both directions; and which work the handler queues. */
  lemma RearmingHandler(s: State)
    ensures FinishHandler(s).timer.pending <==> s.timer.pending || WillRearm(s.timer.handler, s.timer.flag)
    ensures FinishHandler(s).work.monitorQueued
            <==> s.work.monitorQueued || s.timer.handler == QueueMonitor
                 || (s.timer.flag == MonTimer && s.timer.handler in {TestSet, TestAlloc, TestMon})
    ensures FinishHandler(s).work.ioQueued
            <==> s.work.ioQueued || s.timer.handler == QueueIo
                 || (s.timer.flag == AllocTimer && s.timer.handler in {TestSet, TestAlloc})
    decreases HandlerRank(s.timer.handler)
  {
    if s.timer.handler != Idle {
      RearmingHandler(StepHandler(s));
    }
  }

  /** The handler changes nothing but the timer and what is queued. */
  lemma HandlerTouches(s: State)
    ensures var t := FinishHandler(s);
            && t == s.(timer := t.timer, work := t.work)
            && t.timer == s.timer.(pending := t.timer.pending, handler := Idle)
            && t.work == s.work.(ioQueued := t.work.ioQueued, monitorQueued := t.work.monitorQueued)
    decreases HandlerRank(s.timer.handler)
  {
    if s.timer.handler != Idle {
      HandlerTouches(StepHandler(s));
    }
  }

  /** A timer that fires, with nothing in between: SET arms it again, ALLOC queues the io work, MON
      queues the monitor and arms it again, and without a flag it stays off. */
  lemma FiringAlone(s: State)
    requires s.timer.pending && s.timer.handler == Idle
    ensures Enabled(s, Fire)
    ensures var flag := s.timer.flag;
            FinishHandler(Step(s, Fire))
            == s.(timer := s.timer.(pending := flag == SetTimer || flag == MonTimer),
                  work := s.work.(ioQueued := s.work.ioQueued || flag == AllocTimer,
                                  monitorQueued := s.work.monitorQueued || flag == MonTimer))
  {
    RearmingHandler(Step(s, Fire));
    HandlerTouches(Step(s, Fire));
  }

  lemma FinishHandlerOk(s: State)
    requires Inv(s)
    ensures Inv(FinishHandler(s))
    decreases HandlerRank(s.timer.handler)
  {
    if s.timer.handler != Idle {
      StepOk(s, HandlerStep);
      FinishHandlerOk(StepHandler(s));
    }
  }

  /** Queued io work starts, once at a time, and ends. */
  lemma IoAlone(s: State)
    requires s.work.ioQueued && !s.work.ioRunning
    ensures Enabled(s, IoStart) && Enabled(Step(s, IoStart), IoEnd)
    ensures Step(s, IoStart).work.ioRunning && !Enabled(Step(s, IoStart), IoStart)
    ensures Step(Step(s, IoStart), IoEnd) == s.(work := s.work.(ioQueued := false))
  {
  }

  // -- What a finished call leaves -------------------------------------------------------------

  /** Call `i` run as far as it goes with nobody in between. */
  function FinishCall(s: State, i: nat): State
    decreases if i < |s.calls| then CallRank(s.calls[i]) else 0
  {
    if Enabled(s, CallStep(i)) then FinishCall(StepCall(s, i), i) else s
  }

  lemma FinishesNext(s: State, i: nat)
    requires Enabled(s, CallStep(i))
    ensures FinishCall(s, i) == FinishCall(StepCall(s, i), i)
    ensures StepCall(s, i).calls == s.calls[i := NextInCall(s.calls[i], s.ledger.nextId)]
  {
  }

  /** From a loaded module every ioctl can be called. */
  lemma CallBegins(s: State, call: Call)
    requires s.exit == Loaded && CanBegin(call)
    ensures Enabled(s, Begin(call)) && Step(s, Begin(call)) == s.(calls := s.calls + [call])
  {
  }

  /** SET and ALLOC leave their flag and a pending timer, and touch nothing else. */
  lemma SettingAlone(s: State, flag: Flag)
    requires s.exit == Loaded && (flag == SetTimer || flag == AllocTimer)
    ensures Enabled(s, Begin(WriteFlag(flag)))
    ensures FinishCall(Step(s, Begin(WriteFlag(flag))), |s.calls|)
         == s.(calls := s.calls + [Returned],
               timer := Timer(flag, true, s.timer.handler, true, false))
  {
    var i := |s.calls|;
    CallBegins(s, WriteFlag(flag));
    var s0 := Step(s, Begin(WriteFlag(flag)));
    FinishesNext(s0, i);
    var s1 := StepCall(s0, i);
    FinishesNext(s1, i);
    assert StepCall(s1, i).calls == s.calls + [Returned];
  }

  /** CANCEL leaves the timer not pending, and touches nothing else. */
  lemma CancellingAlone(s: State)
    requires s.exit == Loaded
    ensures Enabled(s, Begin(CancelTimer))
    ensures FinishCall(Step(s, Begin(CancelTimer)), |s.calls|)
         == s.(calls := s.calls + [Returned],
               timer := Timer(s.timer.flag, false, s.timer.handler, false, true))
  {
    CallBegins(s, CancelTimer);
    var s0 := Step(s, Begin(CancelTimer));
    FinishesNext(s0, |s.calls|);
    assert StepCall(s0, |s.calls|).calls == s.calls + [Returned];
  }

  /** MON leaves a new entry of the task first in the list, one more reference on the task, the MON
      flag and a pending timer, with the lock free again, and touches nothing else. */
  lemma MonitoringAlone(s: State, task: Task)
    requires s.exit == Loaded && s.lock == Unlocked
    ensures Enabled(s, Begin(GetProc(task)))
    ensures var e, l := Entry(s.ledger.nextId, task), s.ledger;
            FinishCall(Step(s, Begin(GetProc(task))), |s.calls|)
            == s.(calls := s.calls + [Returned],
                  list := [e] + s.list,
                  ledger := Ledger(l.refs + multiset{task}, l.got + multiset{e}, l.put, l.freed, l.nextId + 1),
                  timer := Timer(MonTimer, true, s.timer.handler, true, false))
  {
    var i, e := |s.calls|, Entry(s.ledger.nextId, task);
    CallBegins(s, GetProc(task));
    var s0 := Step(s, Begin(GetProc(task)));
    FinishesNext(s0, i);
    var s1 := StepCall(s0, i);
    FinishesNext(s1, i);
    var s2 := StepCall(s1, i);
    FinishesNext(s2, i);
    var s3 := StepCall(s2, i);
    FinishesNext(s3, i);
    var s4 := StepCall(s3, i);
    FinishesNext(s4, i);
    var s5 := StepCall(s4, i);
    FinishesNext(s5, i);
    assert StepCall(s5, i).calls == s.calls + [Returned];
  }

  /** The new entry was never allocated before. */
  lemma NewEntryIsNew(s: State, task: Task)
    requires Inv(s)
    ensures s.ledger.got[Entry(s.ledger.nextId, task)] == 0
  {
    assert EntryOk(s.ledger, s.calls, s.list, CurrentSweep(s.lock), Entry(s.ledger.nextId, task));
  }

  // -- Runs ----------------------------------------------------------------------------------

  ghost predicate Follows(s: State, a: Action, t: State) {
    Enabled(s, a) && t == Step(s, a)
  }

  ghost predicate Path(actions: seq<Action>, states: seq<State>) {
    && |states| == |actions| + 1
    && forall k :: 0 <= k < |actions| ==> Follows(states[k], actions[k], states[k + 1])
  }

  /** A run from the freshly loaded module. */
  ghost predicate Run(actions: seq<Action>, states: seq<State>) {
    Path(actions, states) && states[0] == LOADED
  }

  lemma LoadedOk()
    ensures Inv(LOADED) && TimerOk(LOADED)
  {
    var l := LOADED.ledger;
    forall e ensures EntryOk(l, [], [], Visit(0), e) {}
    forall t ensures TaskOk(l, [], [], Visit(0), t) {}
  }

  lemma {:induction false} RunOk(actions: seq<Action>, states: seq<State>)
    requires Run(actions, states)
    ensures Inv(states[|actions|]) && TimerOk(states[|actions|])
  {
    if actions == [] {
      LoadedOk();
    } else {
      var n := |actions| - 1;
      RunOk(actions[..n], states[..n + 1]);
      assert Follows(states[n], actions[n], states[n + 1]);
      StepOk(states[n], actions[n]);
      StepKeepsTimer(states[n], actions[n]);
    }
  }

  /** The last time in a run that an ioctl armed or cancelled the timer. */
  function LastTimerCall(actions: seq<Action>, states: seq<State>): Call
    requires |states| == |actions| + 1
  {
    if actions == [] then Returned
    else
      var n := |actions| - 1;
      var a, s := actions[n], states[n];
      if a.CallStep? && a.i < |s.calls| && (s.calls[a.i].ArmTimer? || s.calls[a.i].CancelTimer?) then s.calls[a.i]
      else LastTimerCall(actions[..n], states[..n + 1])
  }

  lemma {:induction false} CancelledMeans(actions: seq<Action>, states: seq<State>)
    requires Run(actions, states)
    ensures states[|actions|].timer.cancelled <==> LastTimerCall(actions, states) == CancelTimer
  {
    if actions != [] {
      var n := |actions| - 1;
      CancelledMeans(actions[..n], states[..n + 1]);
      assert Follows(states[n], actions[n], states[n + 1]);
      OnlyCallsCancel(states[n], actions[n]);
    }
  }

  lemma OnlyCallsCancel(s: State, a: Action)
    requires Enabled(s, a)
    ensures Step(s, a).timer.cancelled
            == if a.CallStep? && s.calls[a.i].ArmTimer? then false
               else if a.CallStep? && s.calls[a.i].CancelTimer? then true
               else s.timer.cancelled
  {
  }

  /** Outside every ioctl, with the flag SET or MON and no CANCEL since the last ioctl armed the
      timer, the timer is pending or its handler is on its way to re-arm it. */
  lemma {:induction false} TimerStaysArmed(actions: seq<Action>, states: seq<State>)
    requires Run(actions, states)
    ensures var s := states[|actions|];
            AllReturned(s.calls) && Repeats(s.timer.flag) && Stage(s.exit) <= 1
            && LastTimerCall(actions, states) != CancelTimer
            ==> s.timer.pending || WillRearm(s.timer.handler, s.timer.flag)
  {
    RunOk(actions, states);
    CancelledMeans(actions, states);
  }

  /** Whenever no sweep is under way, the references the module holds on a task are its entries in
      the list and the entries that calls have obtained but not linked. */
  lemma ReferencesBalance(actions: seq<Action>, states: seq<State>, t: Task)
    requires Run(actions, states)
    ensures var s := states[|actions|];
            !s.lock.HeldByMonitor? && !s.lock.HeldByExit?
            ==> s.ledger.refs[t] == Gather(HeldTasks(s.calls))[t] + Tasks(s.list)[t]
  {
    RunOk(actions, states);
    var s := states[|actions|];
    assert TaskOk(s.ledger, s.calls, s.list, CurrentSweep(s.lock), t);
  }

  /** Over any run no entry is put or freed twice, nothing is freed that was not put, a linked entry
      is linked once and has not been freed, and a sweep tests only tasks the module has a reference on. */
  lemma PutAndFreedOnce(actions: seq<Action>, states: seq<State>, e: Entry)
    requires Run(actions, states)
    ensures var s := states[|actions|];
            && s.ledger.freed[e] <= s.ledger.put[e] <= s.ledger.got[e] <= 1
            && multiset(s.list)[e] + s.ledger.freed[e] <= 1
            && (forall i: nat :: CurrentSweep(s.lock) == Visit(i) && i < |s.list| ==>
                  s.ledger.refs[s.list[i].task] >= 1)
  {
    RunOk(actions, states);
    var s := states[|actions|];
    var sweep := CurrentSweep(s.lock);
    assert EntryOk(s.ledger, s.calls, s.list, sweep, e);
    if sweep.Unlink? {
      ListWithout(s.list, sweep.at, e);
    }
    forall i: nat | sweep == Visit(i) && i < |s.list| ensures s.ledger.refs[s.list[i].task] >= 1 {
      TasksWithout(s.list, i, s.list[i].task);
      assert TaskOk(s.ledger, s.calls, s.list, sweep, s.list[i].task);
    }
  }

  // -- Exit ----------------------------------------------------------------------------------

  /** When exit has finished, the timer is neither pending nor running, no work is queued or
      running, the list is empty, every reference is returned, and every entry ever allocated has
      been put and freed. */
  lemma GoneIsQuiet(actions: seq<Action>, states: seq<State>)
    requires Run(actions, states) && states[|actions|].exit == Gone
    ensures var s := states[|actions|];
            && !s.timer.pending && s.timer.handler == Idle
            && s.work == Work(false, false, false, MonitorIdle)
            && s.list == [] && s.ledger.refs == multiset{}
            && s.ledger.got == s.ledger.put == s.ledger.freed
  {
    RunOk(actions, states);
    NothingHeld(states[|actions|].ledger, states[|actions|].calls);
  }

  lemma NobodyHolds(calls: seq<Call>)
    requires AllReturned(calls)
    ensures Gather(Held(calls)) == multiset{} && Gather(HeldTasks(calls)) == multiset{}
  {
    GatherNothing(Held(calls));
    GatherNothing(HeldTasks(calls));
  }

  lemma NothingHeld(l: Ledger, calls: seq<Call>)
    requires LedgerOk(l, calls, [], Visit(0)) && AllReturned(calls)
    ensures l.refs == multiset{} && l.got == l.put == l.freed
  {
    NobodyHolds(calls);
    forall t ensures l.refs[t] == 0 {
      assert TaskOk(l, calls, [], Visit(0), t);
    }
    forall e ensures l.got[e] == l.put[e] == l.freed[e] {
      assert EntryOk(l, calls, [], Visit(0), e);
    }
  }

  /** After that nothing can move but tasks dying, so no later step undoes it. */
  lemma GoneIsFinal(s: State, a: Action)
    requires Inv(s) && s.exit == Gone && Enabled(s, a)
    ensures a.Die? && Step(s, a) == s.(dead := s.dead + {a.task})
  {
  }

  function SweepCost(n: nat, sweep: Sweep): int {
    match sweep
    case Visit(i) => 4 * (n - i) + 1
    case Put(i) => 4 * (n - i)
    case Unlink(i) => 4 * (n - i) - 1
    case Free(_, i) => 4 * (n - i) + 2
  }

  /** Steps left, tasks dying apart, once the timer is deleted. */
  function Rank(s: State): int {
    var n := 4 * |s.list|;
    (if s.work.ioQueued then 2 else 0) + (if s.work.ioRunning then 1 else 0)
    + (if s.work.monitorQueued then n + 3 else 0)
    + (match s.work.monitor
       case MonitorIdle => 0
       case MonitorStarts => n + 2
       case MonitorSweeps => if s.lock.HeldByMonitor? then SweepCost(|s.list|, s.lock.sweep) else 0)
    + (match s.exit
       case Loaded => n + 7
       case DeleteTimer => n + 6
       case FlushIo => n + 5
       case FlushMonitor => n + 4
       case LockList => n + 3
       case Drain => if s.lock.HeldByExit? then SweepCost(|s.list|, s.lock.sweep) else 0
       case Gone => 0)
  }

  /** Once the timer is deleted every step but a task's death uses up rank. */
  lemma TeardownTerminates(s: State, a: Action)
    requires ControlOk(s) && Stage(s.exit) >= 2 && Enabled(s, a) && !a.Die?
    ensures 0 <= Rank(Step(s, a)) < Rank(s)
  {
    StepKeepsControl(s, a);
    RankIsNonNegative(Step(s, a));
    match a
    case MonitorStep => MonitorLowersRank(s);
    case ExitStep => ExitLowersRank(s);
    case _ =>
  }

  lemma MonitorLowersRank(s: State)
    requires SweepOk(s) && TeardownOk(s) && Enabled(s, MonitorStep)
    ensures Rank(StepMonitor(s)) < Rank(s)
  {
    if s.work.monitor == MonitorSweeps && s.lock.sweep != Visit(|s.list|) {
      SweepLowersCost(Swept(s.list, s.ledger, s.lock.sweep), s.dead, false);
    }
  }

  lemma SweepLowersCost(w: Swept, dead: set<Task>, everything: bool)
    requires CanSweep(w.list, w.sweep) && w.sweep != Visit(|w.list|)
    ensures var v := StepSweep(w, dead, everything);
            && CanSweep(v.list, v.sweep) && |v.list| <= |w.list|
            && 0 < SweepCost(|v.list|, v.sweep) < SweepCost(|w.list|, w.sweep)
  {
  }

  lemma ExitLowersRank(s: State)
    requires SweepOk(s) && TeardownOk(s) && Stage(s.exit) >= 2 && Enabled(s, ExitStep)
    ensures Rank(StepExit(s)) < Rank(s)
  {
    if s.exit == Drain && s.lock.sweep != Visit(|s.list|) {
      SweepLowersCost(Swept(s.list, s.ledger, s.lock.sweep), s.dead, true);
    }
  }

  lemma RankIsNonNegative(s: State)
    requires ControlOk(s)
    ensures Rank(s) >= 0
  {
  }

  /** The steps of a path that are not a task's death. */
  function Moves(actions: seq<Action>): nat {
    if actions == [] then 0
    else Moves(actions[..|actions| - 1]) + (if actions[|actions| - 1].Die? then 0 else 1)
  }

  lemma ThenNotBack(s: State, a: Action)
    requires Enabled(s, a)
    ensures Stage(Step(s, a).exit) >= Stage(s.exit)
  {
  }

  /** So on every path from there the moves made and the rank left are within the initial rank. */
  lemma {:induction false} TeardownIsBounded(actions: seq<Action>, states: seq<State>)
    requires Path(actions, states) && Inv(states[0]) && Stage(states[0].exit) >= 2
    ensures Inv(states[|actions|]) && Stage(states[|actions|].exit) >= 2
    ensures 0 <= Rank(states[|actions|]) <= Rank(states[0]) - Moves(actions)
  {
    RankIsNonNegative(states[0]);
    if actions != [] {
      var n := |actions| - 1;
      TeardownIsBounded(actions[..n], states[..n + 1]);
      assert Follows(states[n], actions[n], states[n + 1]);
      StepOk(states[n], actions[n]);
      ThenNotBack(states[n], actions[n]);
      if !actions[n].Die? {
        TeardownTerminates(states[n], actions[n]);
      }
    }
  }

  function CallRank(call: Call): nat {
    match call
    case GetProc(_) => 6
    case TakeLock(_) => 5
    case Link(_) => 4
    case DropLock => 3
    case WriteFlag(_) => 2
    case ArmTimer => 1
    case CancelTimer => 1
    case Returned => 0
  }

  function CallRanks(calls: seq<Call>): seq<int> {
    seq(|calls|, i requires 0 <= i < |calls| => CallRank(calls[i]))
  }

  /** Steps left in all calls together. */
  function CallWork(calls: seq<Call>): (work: int)
    ensures work >= 0
  {
    AddUpNonNegative(CallRanks(calls));
    AddUp(CallRanks(calls))
  }

  lemma CallLowersWork(s: State, i: nat)
    requires Enabled(s, CallStep(i))
    ensures CallWork(StepCall(s, i).calls) < CallWork(s.calls)
  {
    var now := NextInCall(s.calls[i], s.ledger.nextId);
    assert CallRanks(s.calls[i := now]) == CallRanks(s.calls)[i := CallRank(now)];
    AddUpUpdate(CallRanks(s.calls), i, CallRank(now));
  }

  /** A call or monitor step that brings the calls in flight closer to their return: the holder of
      the lock goes first. */
  function TowardsReturn(s: State): Action
    requires !AllReturned(s.calls)
  {
    match s.lock
    case HeldByMonitor(_) => MonitorStep
    case HeldByCall(i) => CallStep(i)
    case _ => CallStep(Unreturned(s.calls))
  }

  function Unreturned(calls: seq<Call>): (i: nat)
    requires !AllReturned(calls)
    ensures i < |calls| && calls[i] != Returned
  {
    if calls[|calls| - 1] != Returned then |calls| - 1
    else
      assert exists k :: 0 <= k < |calls| - 1 && calls[k] != Returned;
      assert !AllReturned(calls[..|calls| - 1]) by {
        var k :| 0 <= k < |calls| - 1 && calls[k] != Returned;
        assert calls[..|calls| - 1][k] != Returned;
      }
      Unreturned(calls[..|calls| - 1])
  }

  lemma CallsNotBlocked(s: State)
    requires Inv(s) && s.exit == Loaded && !AllReturned(s.calls)
    ensures Enabled(s, TowardsReturn(s)) && !TowardsReturn(s).Die?
    ensures var t := Step(s, TowardsReturn(s));
            && t.exit == Loaded
            && CallWork(t.calls) <= CallWork(s.calls)
            && (CallWork(t.calls) == CallWork(s.calls) ==> HolderCost(t) < HolderCost(s))
  {
    match s.lock
    case HeldByCall(i) =>
      assert InCriticalSection(s.calls[i]) <==> s.lock == HeldByCall(i);
      CallLowersWork(s, i);
    case Unlocked =>
      CallLowersWork(s, Unreturned(s.calls));
    case _ =>
  }

  function HolderCost(s: State): int {
    if s.lock.HeldByMonitor? && CanSweep(s.list, s.lock.sweep) then 1 + SweepCost(|s.list|, s.lock.sweep) else 0
  }

  /** A step that exit is waiting for, or exit's own. */
  function TowardsGone(s: State): Action {
    match s.exit
    case Loaded => if AllReturned(s.calls) then ExitStep else TowardsReturn(s)
    case DeleteTimer => if s.timer.handler == Idle then ExitStep else HandlerStep
    case FlushIo => if s.work.ioRunning then IoEnd else if s.work.ioQueued then IoStart else ExitStep
    case FlushMonitor =>
      if s.work.monitor != MonitorIdle then MonitorStep else if s.work.monitorQueued then MonitorStart else ExitStep
    case _ => ExitStep
  }

  /** Exit is never blocked for good: what it waits for can always move. */
  lemma ExitNotBlocked(s: State)
    requires Inv(s) && s.exit != Gone
    ensures Enabled(s, TowardsGone(s)) && !TowardsGone(s).Die?
  {
    if s.exit == Loaded && !AllReturned(s.calls) {
      CallsNotBlocked(s);
    }
  }

  /** A state in which nothing but a death can happen is the end of exit. */
  lemma OnlyDeathsMeansGone(s: State)
    requires Inv(s) && forall a :: Enabled(s, a) ==> a.Die?
    ensures s.exit == Gone
  {
    if s.exit != Gone {
      ExitNotBlocked(s);
    }
  }

  function Phase(s: State): nat {
    if s.exit == Loaded then (if AllReturned(s.calls) then 2 else 3) else if s.exit == DeleteTimer then 1 else 0
  }

  function PhaseRank(s: State): int {
    match Phase(s)
    case 3 => HolderCost(s)
    case 2 => 0
    case 1 => HandlerRank(s.timer.handler)
    case _ => Rank(s)
  }

  lemma NearerToGone(s: State)
    requires Inv(s) && s.exit != Gone && Enabled(s, TowardsGone(s))
    ensures var t := Step(s, TowardsGone(s));
            || Phase(t) < Phase(s)
            || (Phase(t) == Phase(s) == 3 && CallWork(t.calls) < CallWork(s.calls))
            || (Phase(t) == Phase(s) && (Phase(s) == 3 ==> CallWork(t.calls) == CallWork(s.calls))
                && 0 <= PhaseRank(t) < PhaseRank(s))
  {
    if Phase(s) == 3 {
      CallsNotBlocked(s);
      HolderCostIsNonNegative(Step(s, TowardsGone(s)));
    } else if Phase(s) == 0 {
      TeardownTerminates(s, TowardsGone(s));
    }
  }

  lemma HolderCostIsNonNegative(s: State)
    ensures HolderCost(s) >= 0
  {
  }

  /** From every reachable state, whatever the calls, the handler and the works are in the middle of,
      the calls can return and teardown can be completed. */
  lemma {:induction false} ExitCanComplete(s: State) returns (actions: seq<Action>, states: seq<State>)
    requires Inv(s)
    ensures Path(actions, states) && states[0] == s && states[|actions|].exit == Gone
    decreases Phase(s), if Phase(s) == 3 then CallWork(s.calls) else 0, PhaseRank(s)
  {
    if s.exit == Gone {
      actions, states := [], [s];
    } else {
      ExitNotBlocked(s);
      var a := TowardsGone(s);
      StepOk(s, a);
      NearerToGone(s);
      var rest, after := ExitCanComplete(Step(s, a));
      actions, states := Prepend(s, a, rest, after);
    }
  }

  lemma Prepend(s: State, a: Action, rest: seq<Action>, after: seq<State>)
    returns (actions: seq<Action>, states: seq<State>)
    requires Path(rest, after) && Follows(s, a, after[0])
    ensures Path(actions, states) && states[0] == s && |actions| == |rest| + 1 && states[|actions|] == after[|rest|]
    ensures actions == [a] + rest && states == [s] + after
  {
    actions, states := [a] + rest, [s] + after;
    forall k | 0 <= k < |actions| ensures Follows(states[k], actions[k], states[k + 1]) {
      assert k > 0 ==> Follows(after[k - 1], rest[k - 1], after[k]);
    }
  }
}
