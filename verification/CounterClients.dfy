/** Any number of instances of labs/lab12/driver/ioctl_test.c on one device.

    Every instance opens the device and forks; parent and child then run their command lists
    between LOCK and UNLOCK. A schedule names the client that makes the next single memory access.
  */
module CounterClients {
  import opened Basics
  import opened CounterDevice
  import opened CounterMachine
  import opened Sums

  // -- The client programs -------------------------------------------------------------------

  datatype Role = Parent | Child

  /** Instance j is client 2j (the parent) and client 2j + 1 (the child it forks). */
  function RoleOf(c: nat): Role {
    if c % 2 == 0 then Parent else Child
  }

  /** The commands each role issues between LOCK and UNLOCK. */
  datatype Program = Program(parent: seq<Command>, child: seq<Command>) {
    function Section(role: Role): seq<Command> {
      if role.Parent? then parent else child
    }

    function Body(role: Role): seq<Op> {
      Compile(Section(role))
    }

    /** What a section prints when it runs alone on a zeroed device. */
    function Lines(role: Role): seq<Line> {
      ApplyAll(Section(role), POWERED_UP).log
    }

    /** Each section, alone on a zeroed device, zeroes it again. */
    ghost predicate Restores() {
      && |parent| <= 100_000 && |child| <= 100_000
      && ApplyAll(parent, POWERED_UP).num == ApplyAll(child, POWERED_UP).num == ZEROS
      && ApplyAll(parent, POWERED_UP).sum == ApplyAll(child, POWERED_UP).sum == 0
    }
  }

  datatype Move = Open | Fork | Lock | Access(op: Op) | Unlock | Close

  function LockAt(role: Role): nat {
    if role.Parent? then 2 else 0
  }

  function UnlockAt(p: Program, role: Role): nat {
    LockAt(role) + 1 + |p.Body(role)|
  }

  function Length(p: Program, role: Role): nat {
    UnlockAt(p, role) + 2
  }

  function MoveAt(p: Program, role: Role, pc: nat): Move {
    if pc < LockAt(role) then (if pc == 0 then Open else Fork)
    else if pc == LockAt(role) then Lock
    else if pc < UnlockAt(p, role) then Access(p.Body(role)[pc - LockAt(role) - 1])
    else if pc == UnlockAt(p, role) then Unlock
    else Close
  }

  predicate InSection(p: Program, role: Role, pc: nat) {
    LockAt(role) < pc <= UnlockAt(p, role)
  }

  // -- The transition system -----------------------------------------------------------------

  datatype Client = Client(live: bool, pc: nat, reg: int, acc: int)

  /** `owner` is the mutex; `order` lists the clients in the order they took it. */
  datatype State = State(clients: seq<Client>, num: Counters, sum: int, spin: bool, log: seq<Line>,
                         owner: Option<nat>, order: seq<nat>)

  function Init(instances: nat): State {
    State(seq(2 * instances, c => Client(c % 2 == 0, 0, 0, 0)), ZEROS, 0, false, [], None, [])
  }

  function MachineOf(s: State, c: nat): Machine
    requires c < |s.clients|
  {
    Machine(s.num, s.sum, s.spin, s.log, s.clients[c].reg, s.clients[c].acc)
  }

  predicate Enabled(p: Program, s: State, c: nat) {
    && c < |s.clients|
    && s.clients[c].live
    && s.clients[c].pc < Length(p, RoleOf(c))
    && match MoveAt(p, RoleOf(c), s.clients[c].pc)
       case Fork => c + 1 < |s.clients|
       case Lock => s.owner.None?
       case Access(op) => op.SpinLock? ==> !s.spin
       case _ => true
  }

  function Step(p: Program, s: State, c: nat): State
    requires Enabled(p, s, c)
  {
    var move := MoveAt(p, RoleOf(c), s.clients[c].pc);
    var m := if move.Access? then Exec(move.op, MachineOf(s, c)) else MachineOf(s, c);
    var moved := s.clients[c := Client(s.clients[c].live, s.clients[c].pc + 1, m.reg, m.acc)];
    State(if move.Fork? then moved[c + 1 := moved[c + 1].(live := true)] else moved,
          m.num, m.sum, m.spin, m.log,
          if move.Lock? then Some(c) else if move.Unlock? then None else s.owner,
          if move.Lock? then s.order + [c] else s.order)
  }

  /** The state a schedule leads to, unless it names a client that cannot move. */
  function After(p: Program, s: State, schedule: seq<nat>): Option<State> {
    if schedule == [] then Some(s)
    else
      var before := After(p, s, schedule[..|schedule| - 1]);
      var c := schedule[|schedule| - 1];
      if before.Some? && Enabled(p, before.value, c) then Some(Step(p, before.value, c)) else None
  }

  predicate Finished(p: Program, s: State) {
    forall c :: 0 <= c < |s.clients| ==> s.clients[c].pc == Length(p, RoleOf(c))
  }

  // -- Sections run one after another --------------------------------------------------------

  /** The device after whole sections, each as atomic commands, in the given order. */
  function Serial(p: Program, order: seq<nat>): View {
    if order == [] then POWERED_UP
    else ApplyAll(p.Section(RoleOf(order[|order| - 1])), Serial(p, order[..|order| - 1]))
  }

  /** Run alone from a zeroed device, a section prints its own lines and leaves the device zeroed. */
  lemma SectionMeans(p: Program, role: Role, log: seq<Line>)
    requires p.Restores()
    ensures ApplyAll(p.Section(role), View(ZEROS, 0, log)) == View(ZEROS, 0, log + p.Lines(role))
  {
    ApplyAllAfterLog(p.Section(role), POWERED_UP, log);
    assert log + [] == log;
  }

  lemma {:induction false} SerialIsZeroed(p: Program, order: seq<nat>)
    requires p.Restores()
    ensures Serial(p, order).num == ZEROS && Serial(p, order).sum == 0
    ensures forall line :: line in Serial(p, order).log ==> line in p.Lines(Parent) + p.Lines(Child)
  {
    if order != [] {
      SerialIsZeroed(p, order[..|order| - 1]);
      SectionMeans(p, RoleOf(order[|order| - 1]), Serial(p, order[..|order| - 1]).log);
    }
  }

  // -- The owner's program counter fixes the device ------------------------------------------

  /** The machine after the first `k` accesses of a section run alone. */
  function Trace(p: Program, role: Role, k: nat): Machine
    requires k <= |p.Body(role)|
  {
    Run(p.Body(role)[..k], IDLE)
  }

  lemma BodyIsClean(p: Program, role: Role)
    requires p.Restores()
    ensures Clean(p.Body(role), IDLE)
    ensures !Trace(p, role, |p.Body(role)|).spin
    ensures Trace(p, role, |p.Body(role)|).Device() == View(ZEROS, 0, p.Lines(role))
  {
    CompileRefines(p.Section(role), IDLE, 0);
    SectionMeans(p, role, []);
    assert p.Body(role)[..|p.Body(role)|] == p.Body(role);
    assert [] + p.Lines(role) == p.Lines(role);
  }

  lemma PrefixAdvances(body: seq<Op>, k: nat)
    requires k < |body|
    ensures Run(body[..k + 1], IDLE) == Exec(body[k], Run(body[..k], IDLE))
  {
    assert body[..k + 1] == body[..k] + [body[k]];
    RunConcat(body[..k], [body[k]], IDLE);
  }

  lemma PrefixPrints(body: seq<Op>, k: nat)
    requires k <= |body|
    ensures Run(body[..k], IDLE).log <= Run(body, IDLE).log
  {
    RunConcat(body[..k], body[k..], IDLE);
    assert body == body[..k] + body[k..];
    RunExtendsLog(body[k..], Run(body[..k], IDLE));
  }

  lemma TraceAdvances(p: Program, role: Role, k: nat)
    requires p.Restores() && k < |p.Body(role)|
    ensures Trace(p, role, k + 1) == Exec(p.Body(role)[k], Trace(p, role, k))
    ensures p.Body(role)[k].SpinLock? ==> !Trace(p, role, k).spin
  {
    BodyIsClean(p, role);
    PrefixAdvances(p.Body(role), k);
    CleanAt(p.Body(role), IDLE, k);
  }

  /** What client `c` has printed once it is at `pc`. */
  function Printed(p: Program, role: Role, pc: nat): seq<Line> {
    if pc <= LockAt(role) then []
    else if pc <= UnlockAt(p, role) then Trace(p, role, pc - LockAt(role) - 1).log
    else p.Lines(role)
  }

  ghost predicate ClientOk(p: Program, s: State, c: nat)
    requires c < |s.clients|
  {
    var client, role := s.clients[c], RoleOf(c);
    && client.pc <= Length(p, role)
    && (role.Parent? ==> client.live && c + 1 < |s.clients|)
    && (role.Child? ==> client.live == (s.clients[c - 1].pc >= 2))
    && (!client.live ==> client.pc == 0)
    && (client.pc <= LockAt(role) ==> client.reg == 0 && client.acc == 0)
    && (InSection(p, role, client.pc) <==> s.owner == Some(c))
    && (c in s.order <==> client.pc > LockAt(role))
  }

  /** A client at `pc` in its section, which began with `before` in the log, sees machine `m`. */
  ghost predicate Holds(p: Program, role: Role, pc: nat, before: seq<Line>, m: Machine) {
    && InSection(p, role, pc)
    && var done := Trace(p, role, pc - LockAt(role) - 1);
       m == done.(log := before + done.log)
  }

  /** The log when the last client in `order` took the mutex. */
  function LogBefore(p: Program, order: seq<nat>): seq<Line>
    requires order != []
  {
    Serial(p, order[..|order| - 1]).log
  }

  ghost predicate DeviceOk(p: Program, s: State) {
    match s.owner
    case None => View(s.num, s.sum, s.log) == Serial(p, s.order) && !s.spin
    case Some(c) =>
      && c < |s.clients|
      && s.order != [] && s.order[|s.order| - 1] == c
      && Holds(p, RoleOf(c), s.clients[c].pc, LogBefore(p, s.order), MachineOf(s, c))
  }

  /** Nobody is in the list twice. */
  ghost predicate Once(order: seq<nat>) {
    order != [] ==> order[|order| - 1] !in order[..|order| - 1] && Once(order[..|order| - 1])
  }

  lemma {:induction false} OnceMeansDistinct(order: seq<nat>)
    requires Once(order)
    ensures forall i, j :: 0 <= i < j < |order| ==> order[i] != order[j]
  {
    if order != [] {
      OnceMeansDistinct(order[..|order| - 1]);
    }
  }

  ghost predicate Inv(p: Program, s: State) {
    && |s.clients| % 2 == 0
    && (forall c :: 0 <= c < |s.clients| ==> ClientOk(p, s, c))
    && (forall c :: c in s.order ==> c < |s.clients|)
    && Once(s.order)
    && DeviceOk(p, s)
  }

  // -- Every step keeps the invariant --------------------------------------------------------

  lemma InitOk(p: Program, instances: nat)
    ensures Inv(p, Init(instances))
  {
    var s := Init(instances);
    forall c | 0 <= c < |s.clients| ensures ClientOk(p, s, c) {
      assert s.clients[c].pc == 0;
    }
  }

  /** Only the moving client and, on a fork, its child change. */
  lemma OthersKept(p: Program, s: State, c: nat, d: nat)
    requires Enabled(p, s, c) && d < |s.clients| && d != c
    ensures Step(p, s, c).clients[d].pc == s.clients[d].pc
    ensures Step(p, s, c).clients[d].reg == s.clients[d].reg && Step(p, s, c).clients[d].acc == s.clients[d].acc
    ensures Step(p, s, c).clients[d].live
         == (s.clients[d].live || (MoveAt(p, RoleOf(c), s.clients[c].pc).Fork? && d == c + 1))
  {
  }

  lemma MoverAdvances(p: Program, s: State, c: nat)
    requires Enabled(p, s, c)
    ensures |Step(p, s, c).clients| == |s.clients| && Step(p, s, c).clients[c].pc == s.clients[c].pc + 1
  {
  }

  lemma OwnerIsInSection(p: Program, s: State, c: nat)
    requires Inv(p, s) && c < |s.clients|
    requires InSection(p, RoleOf(c), s.clients[c].pc)
    ensures s.owner == Some(c) && DeviceOk(p, s)
  {
    assert ClientOk(p, s, c);
  }

  lemma AccessStep(p: Program, s: State, c: nat)
    requires Enabled(p, s, c) && MoveAt(p, RoleOf(c), s.clients[c].pc).Access?
    ensures var t := Step(p, s, c);
            && t.owner == s.owner && t.order == s.order
            && |t.clients| == |s.clients| && t.clients[c].pc == s.clients[c].pc + 1
            && MachineOf(t, c) == Exec(MoveAt(p, RoleOf(c), s.clients[c].pc).op, MachineOf(s, c))
  {
  }

  lemma HoldsAdvances(p: Program, role: Role, pc: nat, before: seq<Line>, m: Machine)
    requires p.Restores() && Holds(p, role, pc, before, m) && pc < UnlockAt(p, role)
    ensures Holds(p, role, pc + 1, before, Exec(p.Body(role)[pc - LockAt(role) - 1], m))
  {
    var k := pc - LockAt(role) - 1;
    TraceAdvances(p, role, k);
    ExecAfterLog(p.Body(role)[k], Trace(p, role, k), before);
  }

  lemma AccessKeepsDevice(p: Program, s: State, c: nat)
    requires p.Restores() && DeviceOk(p, s) && s.owner == Some(c)
    requires Enabled(p, s, c) && MoveAt(p, RoleOf(c), s.clients[c].pc).Access?
    ensures DeviceOk(p, Step(p, s, c)) && Step(p, s, c).owner == Some(c)
    ensures Step(p, s, c).order == s.order
  {
    AccessStep(p, s, c);
    AccessOk(p, s, Step(p, s, c), c);
  }

  lemma AccessOk(p: Program, s: State, t: State, c: nat)
    requires p.Restores() && DeviceOk(p, s) && s.owner == Some(c) == t.owner && t.order == s.order
    requires MoveAt(p, RoleOf(c), s.clients[c].pc).Access? && s.clients[c].pc < UnlockAt(p, RoleOf(c))
    requires c < |t.clients| && t.clients[c].pc == s.clients[c].pc + 1
    requires MachineOf(t, c) == Exec(MoveAt(p, RoleOf(c), s.clients[c].pc).op, MachineOf(s, c))
    ensures DeviceOk(p, t)
  {
    HoldsAdvances(p, RoleOf(c), s.clients[c].pc, LogBefore(p, s.order), MachineOf(s, c));
    HolderOk(p, s, t, c);
  }

  lemma HolderOk(p: Program, s: State, t: State, c: nat)
    requires DeviceOk(p, s) && s.owner == Some(c) == t.owner && t.order == s.order && c < |t.clients|
    requires Holds(p, RoleOf(c), t.clients[c].pc, LogBefore(p, s.order), MachineOf(t, c))
    ensures DeviceOk(p, t)
  {
  }

  lemma LockKeepsDevice(p: Program, s: State, c: nat)
    requires p.Restores() && Inv(p, s) && Enabled(p, s, c) && MoveAt(p, RoleOf(c), s.clients[c].pc).Lock?
    ensures DeviceOk(p, Step(p, s, c))
  {
    var role, t := RoleOf(c), Step(p, s, c);
    assert ClientOk(p, s, c);
    SerialIsZeroed(p, s.order);
    assert t.order[..|t.order| - 1] == s.order;
    assert Trace(p, role, 0) == IDLE;
    assert Serial(p, s.order).log + [] == Serial(p, s.order).log;
    assert t.clients[c].pc == LockAt(role) + 1;
  }

  lemma UnlockKeepsDevice(p: Program, s: State, c: nat)
    requires p.Restores() && Inv(p, s) && Enabled(p, s, c) && MoveAt(p, RoleOf(c), s.clients[c].pc).Unlock?
    ensures DeviceOk(p, Step(p, s, c)) && s.owner == Some(c)
  {
    var role := RoleOf(c);
    OwnerIsInSection(p, s, c);
    BodyIsClean(p, role);
    var before := s.order[..|s.order| - 1];
    SerialIsZeroed(p, before);
    SectionMeans(p, role, Serial(p, before).log);
  }

  lemma OutsideTouchesNothing(p: Program, s: State, c: nat)
    requires Enabled(p, s, c)
    requires var move := MoveAt(p, RoleOf(c), s.clients[c].pc); move.Open? || move.Fork? || move.Close?
    ensures var t := Step(p, s, c);
            && t.owner == s.owner && t.order == s.order && t.num == s.num && t.sum == s.sum
            && t.spin == s.spin && t.log == s.log && |t.clients| == |s.clients|
  {
  }

  lemma OutsideKeepsDevice(p: Program, s: State, c: nat)
    requires DeviceOk(p, s) && Enabled(p, s, c) && s.owner != Some(c)
    requires var move := MoveAt(p, RoleOf(c), s.clients[c].pc); move.Open? || move.Fork? || move.Close?
    ensures DeviceOk(p, Step(p, s, c))
  {
    OutsideTouchesNothing(p, s, c);
    if s.owner.Some? {
      OthersKept(p, s, c, s.owner.value);
    }
  }

  lemma StepKeepsMover(p: Program, s: State, c: nat)
    requires Enabled(p, s, c) && ClientOk(p, s, c) && (c % 2 == 1 ==> ClientOk(p, s, c - 1))
    ensures ClientOk(p, Step(p, s, c), c)
  {
    if c % 2 == 1 {
      OthersKept(p, s, c, c - 1);
    }
  }

  lemma OwnerChanges(p: Program, s: State, c: nat, d: nat)
    requires Enabled(p, s, c) && ClientOk(p, s, c) && d != c
    ensures Step(p, s, c).owner == Some(d) <==> s.owner == Some(d)
    ensures d in Step(p, s, c).order <==> d in s.order
  {
  }

  lemma StepKeepsOther(p: Program, s: State, c: nat, d: nat)
    requires Enabled(p, s, c) && d < |s.clients| && d != c
    requires ClientOk(p, s, c) && ClientOk(p, s, d) && (d % 2 == 1 ==> ClientOk(p, s, d - 1))
    ensures ClientOk(p, Step(p, s, c), d)
  {
    OthersKept(p, s, c, d);
    OwnerChanges(p, s, c, d);
    MoverAdvances(p, s, c);
    if d % 2 == 1 && d - 1 != c {
      OthersKept(p, s, c, d - 1);
    }
  }

  lemma StepKeepsClients(p: Program, s: State, c: nat)
    requires Inv(p, s) && Enabled(p, s, c)
    ensures forall d :: 0 <= d < |s.clients| ==> ClientOk(p, Step(p, s, c), d)
  {
    var t := Step(p, s, c);
    MoverAdvances(p, s, c);
    forall d | 0 <= d < |s.clients| ensures ClientOk(p, t, d) {
      assert ClientOk(p, s, c) && ClientOk(p, s, d) && (d % 2 == 1 ==> ClientOk(p, s, d - 1));
      StepKeepsClient(p, s, c, d);
    }
  }

  lemma StepKeepsClient(p: Program, s: State, c: nat, d: nat)
    requires Enabled(p, s, c) && d < |s.clients|
    requires ClientOk(p, s, c) && ClientOk(p, s, d) && (d % 2 == 1 ==> ClientOk(p, s, d - 1))
    ensures d < |Step(p, s, c).clients| && ClientOk(p, Step(p, s, c), d)
  {
    MoverAdvances(p, s, c);
    if d == c {
      StepKeepsMover(p, s, c);
    } else {
      StepKeepsOther(p, s, c, d);
    }
  }

  lemma StepKeepsOrder(p: Program, s: State, c: nat)
    requires Inv(p, s) && Enabled(p, s, c)
    ensures Once(Step(p, s, c).order)
    ensures forall d :: d in Step(p, s, c).order ==> d < |s.clients|
  {
    assert ClientOk(p, s, c);
    assert (s.order + [c])[..|s.order|] == s.order;
  }

  lemma StepKeepsDevice(p: Program, s: State, c: nat)
    requires p.Restores() && Inv(p, s) && Enabled(p, s, c)
    ensures DeviceOk(p, Step(p, s, c))
  {
    match MoveAt(p, RoleOf(c), s.clients[c].pc)
    case Lock => LockKeepsDevice(p, s, c);
    case Unlock => UnlockKeepsDevice(p, s, c);
    case Access(_) =>
      OwnerIsInSection(p, s, c);
      AccessKeepsDevice(p, s, c);
    case _ =>
      assert ClientOk(p, s, c);
      OutsideKeepsDevice(p, s, c);
  }

  lemma StepOk(p: Program, s: State, c: nat)
    requires p.Restores() && Inv(p, s) && Enabled(p, s, c)
    ensures Inv(p, Step(p, s, c))
  {
    MoverAdvances(p, s, c);
    StepKeepsClients(p, s, c);
    StepKeepsOrder(p, s, c);
    StepKeepsDevice(p, s, c);
  }

  lemma {:induction false} RunOk(p: Program, instances: nat, schedule: seq<nat>)
    requires p.Restores() && After(p, Init(instances), schedule).Some?
    ensures Inv(p, After(p, Init(instances), schedule).value)
    ensures |After(p, Init(instances), schedule).value.clients| == 2 * instances
  {
    if schedule == [] {
      InitOk(p, instances);
    } else {
      RunOk(p, instances, schedule[..|schedule| - 1]);
      StepOk(p, After(p, Init(instances), schedule[..|schedule| - 1]).value, schedule[|schedule| - 1]);
    }
  }

  // -- Safety over every run -----------------------------------------------------------------

  /** `s` is reached from `instances` fresh instances by some interleaving of single accesses. */
  ghost predicate Reached(p: Program, instances: nat, schedule: seq<nat>, s: State) {
    After(p, Init(instances), schedule) == Some(s)
  }

  /** At most one client is between LOCK and UNLOCK, it holds the mutex, and the device is all
      zero whenever the mutex is free. */
  lemma MutualExclusion(p: Program, instances: nat, schedule: seq<nat>, s: State)
    requires p.Restores() && Reached(p, instances, schedule, s)
    ensures forall c :: 0 <= c < |s.clients| ==>
              (InSection(p, RoleOf(c), s.clients[c].pc) <==> s.owner == Some(c))
    ensures s.owner.None? ==> s.num == ZEROS && s.sum == 0 && !s.spin
  {
    RunOk(p, instances, schedule);
    SerialIsZeroed(p, s.order);
    forall c | 0 <= c < |s.clients|
      ensures InSection(p, RoleOf(c), s.clients[c].pc) <==> s.owner == Some(c)
    {
      assert ClientOk(p, s, c);
    }
  }

  /** The machine after the first `k` accesses of a section that began on device `v`. */
  function Midway(p: Program, role: Role, k: nat, v: View): Machine
    requires k <= |p.Body(role)|
  {
    Run(p.Body(role)[..k], Machine(v.num, v.sum, false, v.log, 0, 0))
  }

  /** The owner alone has been at work since the sections before its own ended. */
  ghost predicate OwnerOnTop(p: Program, s: State, c: nat)
    requires s.order != []
  {
    && c < |s.clients|
    && InSection(p, RoleOf(c), s.clients[c].pc)
    && s.order[|s.order| - 1] == c
    && MachineOf(s, c) == Midway(p, RoleOf(c), s.clients[c].pc - LockAt(RoleOf(c)) - 1,
                                 Serial(p, s.order[..|s.order| - 1]))
  }

  lemma HolderIsOnTop(p: Program, s: State)
    requires p.Restores() && DeviceOk(p, s) && s.owner.Some?
    ensures OwnerOnTop(p, s, s.owner.value)
  {
    var c, before := s.owner.value, Serial(p, s.order[..|s.order| - 1]);
    SerialIsZeroed(p, s.order[..|s.order| - 1]);
    RunAfterLog(p.Body(RoleOf(c))[..s.clients[c].pc - LockAt(RoleOf(c)) - 1], IDLE, before.log);
    assert before.log + [] == before.log;
  }

  /** Whatever the interleaving, counters, sum and log are those of whole sections run one after
      another as atomic commands in the order the mutex was taken, with the owner's accesses so far
      on top; and each client is in that order once it has locked, and once only. */
  lemma SerialEquivalence(p: Program, instances: nat, schedule: seq<nat>, s: State)
    requires p.Restores() && Reached(p, instances, schedule, s)
    ensures s.owner.None? ==> View(s.num, s.sum, s.log) == Serial(p, s.order)
    ensures s.owner.Some? ==>
              && s.order != [] && OwnerOnTop(p, s, s.owner.value)
              && LogBefore(p, s.order) <= s.log <= Serial(p, s.order).log
    ensures forall i, j :: 0 <= i < j < |s.order| ==> s.order[i] != s.order[j]
    ensures forall c :: 0 <= c < |s.clients| ==> (c in s.order <==> s.clients[c].pc > LockAt(RoleOf(c)))
  {
    RunOk(p, instances, schedule);
    OnceMeansDistinct(s.order);
    forall c | 0 <= c < |s.clients| ensures c in s.order <==> s.clients[c].pc > LockAt(RoleOf(c)) {
      assert ClientOk(p, s, c);
    }
    if s.owner.Some? {
      OwnerIsMidSection(p, s);
      HolderIsOnTop(p, s);
    }
  }

  /** The clients that take the mutex along a schedule, in that order. */
  function Lockers(p: Program, instances: nat, schedule: seq<nat>): seq<nat>
    requires After(p, Init(instances), schedule).Some?
  {
    if schedule == [] then []
    else
      var n := |schedule| - 1;
      var c, s := schedule[n], After(p, Init(instances), schedule[..n]).value;
      Lockers(p, instances, schedule[..n]) + (if s.owner.None? && Step(p, s, c).owner == Some(c) then [c] else [])
  }

  lemma {:induction false} OrderIsLockOrder(p: Program, instances: nat, schedule: seq<nat>)
    requires p.Restores() && After(p, Init(instances), schedule).Some?
    ensures After(p, Init(instances), schedule).value.order == Lockers(p, instances, schedule)
  {
    if schedule != [] {
      var n := |schedule| - 1;
      OrderIsLockOrder(p, instances, schedule[..n]);
    }
  }

  lemma OwnerIsMidSection(p: Program, s: State)
    requires p.Restores() && DeviceOk(p, s) && s.owner.Some?
    ensures LogBefore(p, s.order) <= s.log <= Serial(p, s.order).log
    ensures s.log == LogBefore(p, s.order) + Printed(p, RoleOf(s.owner.value), s.clients[s.owner.value].pc)
  {
    var c := s.owner.value;
    HoldsMeans(p, RoleOf(c), s.clients[c].pc, LogBefore(p, s.order), MachineOf(s, c));
    SerialExtends(p, s.order);
  }

  lemma HoldsMeans(p: Program, role: Role, pc: nat, before: seq<Line>, m: Machine)
    requires p.Restores() && Holds(p, role, pc, before, m)
    ensures m.log == before + Printed(p, role, pc) && Printed(p, role, pc) <= p.Lines(role)
    ensures Fits(m)
  {
    TraceIsPrefix(p, role, pc - LockAt(role) - 1);
  }

  lemma SerialExtends(p: Program, order: seq<nat>)
    requires p.Restores() && order != []
    ensures Serial(p, order).log == LogBefore(p, order) + p.Lines(RoleOf(order[|order| - 1]))
  {
    SerialIsZeroed(p, order[..|order| - 1]);
    SectionMeans(p, RoleOf(order[|order| - 1]), LogBefore(p, order));
  }

  lemma TraceIsPrefix(p: Program, role: Role, k: nat)
    requires p.Restores() && k <= |p.Body(role)|
    ensures Trace(p, role, k).log <= p.Lines(role) && Fits(Trace(p, role, k))
  {
    BodyIsClean(p, role);
    CleanAt(p.Body(role), IDLE, k);
    PrefixPrints(p.Body(role), k);
    assert p.Body(role)[..|p.Body(role)|] == p.Body(role);
  }

  /** Every line ever printed is one that a section prints when it runs alone. */
  lemma EveryLineIsExpected(p: Program, instances: nat, schedule: seq<nat>, s: State)
    requires p.Restores() && Reached(p, instances, schedule, s)
    ensures forall line :: line in s.log ==> line in p.Lines(Parent) + p.Lines(Child)
  {
    SerialEquivalence(p, instances, schedule, s);
    SerialIsZeroed(p, s.order);
  }

  /** No run computes a value outside a signed 32-bit int: not in the device, and not in the local
      register and accumulator of the client that is at work. */
  lemma NothingOverflows(p: Program, instances: nat, schedule: seq<nat>, s: State)
    requires p.Restores() && Reached(p, instances, schedule, s)
    ensures forall i :: 0 <= i < 5 ==> -INT_MAX <= s.num[i] <= INT_MAX
    ensures -INT_MAX <= s.sum <= INT_MAX
    ensures s.owner.Some? ==> s.owner.value < |s.clients| && Fits(MachineOf(s, s.owner.value))
  {
    RunOk(p, instances, schedule);
    if s.owner.Some? {
      var c := s.owner.value;
      HoldsMeans(p, RoleOf(c), s.clients[c].pc, LogBefore(p, s.order), MachineOf(s, c));
    } else {
      SerialIsZeroed(p, s.order);
    }
  }

  // -- Progress ------------------------------------------------------------------------------

  /** Moves left, client by client, when a parent makes `parent` in all and a child `child`. */
  function Left(parent: int, child: int, clients: seq<Client>): seq<int> {
    seq(|clients|, c requires 0 <= c < |clients| =>
      (if RoleOf(c).Parent? then parent else child) - clients[c].pc)
  }

  function Remaining(p: Program, s: State): int {
    AddUp(Left(Length(p, Parent), Length(p, Child), s.clients))
  }

  /** From `was` to `now`, client `c` has moved on by one and nobody else has. */
  ghost predicate Moved(was: seq<Client>, now: seq<Client>, c: nat) {
    && |was| == |now| && c < |was|
    && now[c].pc == was[c].pc + 1
    && forall d :: 0 <= d < |was| && d != c ==> now[d].pc == was[d].pc
  }

  lemma StepMoves(p: Program, s: State, c: nat)
    requires Inv(p, s) && Enabled(p, s, c)
    ensures Moved(s.clients, Step(p, s, c).clients, c)
  {
    MoverAdvances(p, s, c);
    forall d | 0 <= d < |s.clients| && d != c ensures Step(p, s, c).clients[d].pc == s.clients[d].pc {
      OthersKept(p, s, c, d);
    }
  }

  lemma LeftDrops(parent: int, child: int, was: seq<Client>, now: seq<Client>, c: nat)
    requires Moved(was, now, c)
    ensures AddUp(Left(parent, child, now)) == AddUp(Left(parent, child, was)) - 1
  {
    var before := Left(parent, child, was);
    assert Left(parent, child, now) == before[c := before[c] - 1];
    AddUpUpdate(before, c, before[c] - 1);
  }

  /** Every move uses up exactly one unit of the total work. */
  lemma {:induction false} WorkIsConserved(p: Program, instances: nat, schedule: seq<nat>, s: State)
    requires p.Restores() && Reached(p, instances, schedule, s)
    ensures |schedule| + Remaining(p, s) == instances * (Length(p, Parent) + Length(p, Child))
  {
    if schedule == [] {
      AddUpPairs(Left(Length(p, Parent), Length(p, Child), s.clients), instances, Length(p, Parent), Length(p, Child));
    } else {
      var c := schedule[|schedule| - 1];
      var before := After(p, Init(instances), schedule[..|schedule| - 1]).value;
      RunOk(p, instances, schedule[..|schedule| - 1]);
      WorkIsConserved(p, instances, schedule[..|schedule| - 1], before);
      StepMoves(p, before, c);
      LeftDrops(Length(p, Parent), Length(p, Child), before.clients, s.clients, c);
    }
  }

  lemma OwnerCanMove(p: Program, s: State, c: nat)
    requires p.Restores() && Inv(p, s) && s.owner == Some(c)
    ensures Enabled(p, s, c)
  {
    var role := RoleOf(c);
    assert ClientOk(p, s, c);
    if s.clients[c].pc < UnlockAt(p, role) {
      TraceAdvances(p, role, s.clients[c].pc - LockAt(role) - 1);
    }
  }

  lemma FreeClientCanMove(p: Program, s: State, c: nat)
    requires Inv(p, s) && s.owner.None? && c < |s.clients| && s.clients[c].live
    requires s.clients[c].pc != Length(p, RoleOf(c))
    ensures Enabled(p, s, c)
  {
    assert ClientOk(p, s, c);
  }

  /** As long as some client has not finished, some client can move. */
  lemma NeverStuck(p: Program, s: State)
    requires p.Restores() && Inv(p, s) && !Finished(p, s)
    ensures exists c :: Enabled(p, s, c)
  {
    if s.owner.Some? {
      OwnerCanMove(p, s, s.owner.value);
    } else {
      var c :| 0 <= c < |s.clients| && s.clients[c].pc != Length(p, RoleOf(c));
      var live := LiveOrParent(p, s, c);
      FreeClientCanMove(p, s, live);
    }
  }

  /** A client that is not live yet has a parent that has not forked it. */
  lemma LiveOrParent(p: Program, s: State, c: nat) returns (d: nat)
    requires Inv(p, s) && c < |s.clients| && s.clients[c].pc != Length(p, RoleOf(c))
    ensures d < |s.clients| && s.clients[d].live && s.clients[d].pc != Length(p, RoleOf(d))
  {
    assert ClientOk(p, s, c);
    d := c;
    if !s.clients[c].live {
      NotForked(p, s, c);
      d := c - 1;
      assert ClientOk(p, s, d);
    }
  }

  lemma NotForked(p: Program, s: State, c: nat)
    requires c < |s.clients| && ClientOk(p, s, c) && !s.clients[c].live
    ensures c > 0 && RoleOf(c - 1).Parent? && s.clients[c - 1].pc < 2 < Length(p, Parent)
  {
  }

  // -- What a finished run has printed -------------------------------------------------------

  /** What each client has printed. */
  ghost function Shares(p: Program, clients: seq<Client>): seq<multiset<Line>> {
    seq(|clients|, c requires 0 <= c < |clients| => multiset(Printed(p, RoleOf(c), clients[c].pc)))
  }

  /** A move changes the mover's share of the output alone. */
  lemma SharesFollow(p: Program, was: seq<Client>, now: seq<Client>, c: nat, line: Line)
    requires Moved(was, now, c)
    ensures Gather(Shares(p, now))[line] + multiset(Printed(p, RoleOf(c), was[c].pc))[line]
         == Gather(Shares(p, was))[line] + multiset(Printed(p, RoleOf(c), now[c].pc))[line]
  {
    var share := multiset(Printed(p, RoleOf(c), was[c].pc + 1));
    assert Shares(p, now) == Shares(p, was)[c := share];
    GatherUpdate(Shares(p, was), c, share, line);
  }

  lemma AccessPrints(p: Program, s: State, c: nat) returns (before: seq<Line>)
    requires p.Restores() && Inv(p, s) && Enabled(p, s, c) && MoveAt(p, RoleOf(c), s.clients[c].pc).Access?
    ensures s.log == before + Printed(p, RoleOf(c), s.clients[c].pc)
    ensures Step(p, s, c).log == before + Printed(p, RoleOf(c), s.clients[c].pc + 1)
  {
    OwnerIsInSection(p, s, c);
    AccessKeepsDevice(p, s, c);
    before := LogBefore(p, s.order);
    OwnerIsMidSection(p, s);
    MoverAdvances(p, s, c);
    OwnerIsMidSection(p, Step(p, s, c));
  }

  lemma OutsidePrintsNothing(p: Program, s: State, c: nat)
    requires p.Restores() && Inv(p, s) && Enabled(p, s, c) && !MoveAt(p, RoleOf(c), s.clients[c].pc).Access?
    ensures Step(p, s, c).log == s.log
    ensures Printed(p, RoleOf(c), s.clients[c].pc) == Printed(p, RoleOf(c), s.clients[c].pc + 1)
  {
    var role := RoleOf(c);
    assert ClientOk(p, s, c);
    if s.clients[c].pc == LockAt(role) {
      assert Trace(p, role, 0) == IDLE;
    } else if s.clients[c].pc == UnlockAt(p, role) {
      BodyIsClean(p, role);
    }
  }

  /** A move appends to the log exactly what it adds to the mover's own output. */
  lemma LogFollows(p: Program, s: State, c: nat, line: Line)
    requires p.Restores() && Inv(p, s) && Enabled(p, s, c)
    ensures multiset(Step(p, s, c).log)[line] + multiset(Printed(p, RoleOf(c), s.clients[c].pc))[line]
         == multiset(s.log)[line] + multiset(Printed(p, RoleOf(c), s.clients[c].pc + 1))[line]
  {
    if MoveAt(p, RoleOf(c), s.clients[c].pc).Access? {
      var before := AccessPrints(p, s, c);
    } else {
      OutsidePrintsNothing(p, s, c);
    }
  }

  lemma {:induction false} LogIsOutput(p: Program, instances: nat, schedule: seq<nat>, s: State)
    requires p.Restores() && Reached(p, instances, schedule, s)
    ensures multiset(s.log) == Gather(Shares(p, s.clients))
  {
    if schedule == [] {
      GatherNothing(Shares(p, s.clients));
    } else {
      var c := schedule[|schedule| - 1];
      var before := After(p, Init(instances), schedule[..|schedule| - 1]).value;
      RunOk(p, instances, schedule[..|schedule| - 1]);
      LogIsOutput(p, instances, schedule[..|schedule| - 1], before);
      LogAndSharesFollow(p, before, c);
    }
  }

  lemma LogAndSharesFollow(p: Program, s: State, c: nat)
    requires p.Restores() && Inv(p, s) && Enabled(p, s, c)
    requires multiset(s.log) == Gather(Shares(p, s.clients))
    ensures multiset(Step(p, s, c).log) == Gather(Shares(p, Step(p, s, c).clients))
  {
    StepMoves(p, s, c);
    forall line ensures multiset(Step(p, s, c).log)[line] == Gather(Shares(p, Step(p, s, c).clients))[line] {
      LogFollows(p, s, c, line);
      SharesFollow(p, s.clients, Step(p, s, c).clients, c, line);
    }
  }

  lemma FinishedOutput(p: Program, s: State, n: nat, line: Line)
    requires Finished(p, s) && 2 * n == |s.clients|
    ensures Gather(Shares(p, s.clients))[line]
         == n * (multiset(p.Lines(Parent))[line] + multiset(p.Lines(Child))[line])
  {
    GatherPairs(Shares(p, s.clients), n, multiset(p.Lines(Parent)), multiset(p.Lines(Child)), line);
  }

  /** Every run that cannot be extended has finished every client, took exactly the total number
      of moves, and printed each line exactly as often as that many sections run alone. */
  lemma EveryMaximalRunFinishes(p: Program, instances: nat, schedule: seq<nat>, s: State)
    requires p.Restores() && Reached(p, instances, schedule, s)
    requires forall c :: !Enabled(p, s, c)
    ensures Finished(p, s)
    ensures |schedule| == instances * (Length(p, Parent) + Length(p, Child))
    ensures forall line :: multiset(s.log)[line]
              == instances * (multiset(p.Lines(Parent))[line] + multiset(p.Lines(Child))[line])
  {
    RunOk(p, instances, schedule);
    if !Finished(p, s) {
      NeverStuck(p, s);
    }
    FinishedRun(p, instances, schedule, s);
  }

  lemma NothingRemains(p: Program, s: State, n: nat)
    requires Finished(p, s) && |s.clients| == 2 * n
    ensures Remaining(p, s) == 0
  {
    NothingLeft(Length(p, Parent), Length(p, Child), s.clients, n);
  }

  lemma NothingLeft(parent: int, child: int, clients: seq<Client>, n: nat)
    requires |clients| == 2 * n
    requires forall c :: 0 <= c < |clients| ==> clients[c].pc == if RoleOf(c).Parent? then parent else child
    ensures AddUp(Left(parent, child, clients)) == 0
  {
    AddUpPairs(Left(parent, child, clients), n, 0, 0);
  }

  lemma FinishedRun(p: Program, instances: nat, schedule: seq<nat>, s: State)
    requires p.Restores() && Reached(p, instances, schedule, s) && Finished(p, s) && |s.clients| == 2 * instances
    ensures |schedule| == instances * (Length(p, Parent) + Length(p, Child))
    ensures forall line :: multiset(s.log)[line]
              == instances * (multiset(p.Lines(Parent))[line] + multiset(p.Lines(Child))[line])
  {
    WorkIsConserved(p, instances, schedule, s);
    NothingRemains(p, s, instances);
    LogIsOutput(p, instances, schedule, s);
    forall line ensures multiset(s.log)[line]
        == instances * (multiset(p.Lines(Parent))[line] + multiset(p.Lines(Child))[line])
    {
      FinishedOutput(p, s, instances, line);
    }
  }
}
