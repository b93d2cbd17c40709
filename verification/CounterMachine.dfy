/** Each ioctl of labs/lab12/driver/driver.c as the single memory accesses it performs.

    No counter access takes the spinlock outside the interrupt handler, so another client may run
    between any two of these. `CompileRefines` says that a sequence of commands run access by access
    with nobody in between means what `ApplyAll` says, that the spinlock is always free when the
    handler takes it, and that no value computed on the way leaves a signed 32-bit int.
  */
module CounterMachine {
  import opened Basics
  import opened CounterDevice

  datatype Op =
    | Load(slot: Slot)                // reg = num[slot]
    | StoreInc(slot: Slot)            // num[slot] = reg + 1
    | Store(slot: Slot, value: int)   // num[slot] = value
    | StoreSum(value: int)            // sum = value
    | ClearAcc                        // acc = 0
    | LoadSum                         // acc = sum
    | AddSlot(slot: Slot)             // acc += num[slot]
    | StoreAcc                        // sum = acc
    | SpinLock
    | SpinUnlock
    | Emit(source: Source)            // printk of sum

  /** The shared device together with the two local registers of the client that runs. */
  datatype Machine = Machine(num: Counters, sum: int, spin: bool, log: seq<Line>, reg: int, acc: int) {
    function Device(): View {
      View(num, sum, log)
    }
  }

  const IDLE := Machine(ZEROS, 0, false, [], 0, 0)

  function Exec(op: Op, m: Machine): Machine {
    match op
    case Load(slot) => m.(reg := m.num[slot])
    case StoreInc(slot) => m.(num := m.num[slot := m.reg + 1])
    case Store(slot, value) => m.(num := m.num[slot := value])
    case StoreSum(value) => m.(sum := value)
    case ClearAcc => m.(acc := 0)
    case LoadSum => m.(acc := m.sum)
    case AddSlot(slot) => m.(acc := m.acc + m.num[slot])
    case StoreAcc => m.(sum := m.acc)
    case SpinLock => m.(spin := true)
    case SpinUnlock => m.(spin := false)
    case Emit(source) => m.(log := m.log + [Line(source, m.sum)])
  }

  function Run(ops: seq<Op>, m: Machine): Machine {
    if ops == [] then m else Run(ops[1..], Exec(ops[0], m))
  }

  function AccumulateAll(): seq<Op> {
    [AddSlot(0)] + [AddSlot(1)] + [AddSlot(2)] + [AddSlot(3)] + [AddSlot(4)]
  }

  /** One turn of `dev_data.sum += dev_data.num[i]`. */
  function HandlerTurn(i: Slot): seq<Op> {
    [LoadSum, AddSlot(i), StoreAcc]
  }

  function HandlerStores(): seq<Op> {
    [SpinLock, Store(0, -1), Store(1, -2), Store(2, -3), Store(3, -4), Store(4, -5)]
  }

  function HandlerLoop(): seq<Op> {
    HandlerTurn(0) + HandlerTurn(1) + HandlerTurn(2) + HandlerTurn(3) + HandlerTurn(4)
  }

  function IncOps(i: Slot): seq<Op> {
    [Load(i), StoreInc(i)]
  }

  function Ops(command: Command): seq<Op> {
    match command
    case Print(source) => [Emit(source)]
    case Inc(slot) => IncOps(slot)
    case IncAll => IncOps(0) + IncOps(1) + IncOps(2) + IncOps(3) + IncOps(4)
    case Interrupt => HandlerStores() + HandlerLoop() + [SpinUnlock, Emit(Irq)]
    case Sum => [ClearAcc] + AccumulateAll() + [StoreAcc]
    case Reset => [Store(0, 0), Store(1, 0), Store(2, 0), Store(3, 0), Store(4, 0), StoreSum(0)]
    case Unknown => []
  }

  function Compile(commands: seq<Command>): seq<Op> {
    if commands == [] then [] else Ops(commands[0]) + Compile(commands[1..])
  }

  lemma {:induction false} RunConcat(a: seq<Op>, b: seq<Op>, m: Machine)
    ensures Run(a + b, m) == Run(b, Run(a, m))
  {
    if a == [] {
      assert a + b == b;
    } else {
      assert (a + b)[1..] == a[1..] + b;
      RunConcat(a[1..], b, Exec(a[0], m));
    }
  }

  /** Lines are only ever appended. */
  lemma {:induction false} RunExtendsLog(ops: seq<Op>, m: Machine)
    ensures m.log <= Run(ops, m).log
  {
    if ops != [] {
      RunExtendsLog(ops[1..], Exec(ops[0], m));
    }
  }

  /** A log already present does not influence an access. */
  lemma ExecAfterLog(op: Op, m: Machine, before: seq<Line>)
    ensures Exec(op, m.(log := before + m.log)) == Exec(op, m).(log := before + Exec(op, m).log)
  {
    if op.Emit? {
      assert before + m.log + [Line(op.source, m.sum)] == before + (m.log + [Line(op.source, m.sum)]);
    }
  }

  /** Nor does it influence a whole run. */
  lemma {:induction false} RunAfterLog(ops: seq<Op>, m: Machine, before: seq<Line>)
    ensures Run(ops, m.(log := before + m.log)) == Run(ops, m).(log := before + Run(ops, m).log)
  {
    if ops != [] {
      ExecAfterLog(ops[0], m, before);
      RunAfterLog(ops[1..], Exec(ops[0], m), before);
    }
  }

  // -- No access overflows and the spinlock is never contended ------------------------------

  ghost predicate Fits(m: Machine) {
    && (forall i :: 0 <= i < 5 ==> -INT_MAX <= m.num[i] <= INT_MAX)
    && -INT_MAX <= m.sum <= INT_MAX && -INT_MAX <= m.reg < INT_MAX && -INT_MAX <= m.acc <= INT_MAX
  }

  ghost predicate Clean(ops: seq<Op>, m: Machine) {
    && Fits(m)
    && (ops != [] ==> (ops[0].SpinLock? ==> !m.spin) && Clean(ops[1..], Exec(ops[0], m)))
  }

  lemma {:induction false} CleanConcat(a: seq<Op>, b: seq<Op>, m: Machine)
    requires Clean(a, m) && Clean(b, Run(a, m))
    ensures Clean(a + b, m)
  {
    if a == [] {
      assert a + b == b;
    } else {
      assert (a + b)[1..] == a[1..] + b;
      CleanConcat(a[1..], b, Exec(a[0], m));
    }
  }

  lemma {:induction false} CleanAt(ops: seq<Op>, m: Machine, k: nat)
    requires Clean(ops, m) && k <= |ops|
    ensures Fits(Run(ops[..k], m))
    ensures k < |ops| && ops[k].SpinLock? ==> !Run(ops[..k], m).spin
  {
    if k > 0 {
      CleanAt(ops[1..], Exec(ops[0], m), k - 1);
      assert ops[..k][1..] == ops[1..][..k - 1];
    }
  }

  // -- Each command, access by access, is the atomic command ---------------------------------

  ghost predicate Bounded(m: Machine, b: int) {
    && (forall i :: 0 <= i < 5 ==> -b <= m.num[i] <= b)
    && -20 * b <= m.sum <= 20 * b && -20 * b <= m.reg <= 20 * b && -20 * b <= m.acc <= 20 * b
  }

  /** `m` runs `ops` cleanly, as the atomic command would, and grows by at most 5. */
  ghost predicate Refines(ops: seq<Op>, command: Command, m: Machine, b: int) {
    && Clean(ops, m)
    && Run(ops, m).Device() == Apply(command, m.Device())
    && !Run(ops, m).spin
    && Bounded(Run(ops, m), b + 5)
  }

  /** `states` are the machines `ops` goes through. */
  ghost predicate Traces(ops: seq<Op>, states: seq<Machine>) {
    && |states| == |ops| + 1
    && (forall k :: 0 <= k < |ops| ==> states[k + 1] == Exec(ops[k], states[k]))
  }

  lemma {:induction false} Traced(ops: seq<Op>, states: seq<Machine>)
    requires Traces(ops, states)
    requires forall k :: 0 <= k < |states| ==> Fits(states[k])
    requires forall k :: 0 <= k < |ops| && ops[k].SpinLock? ==> !states[k].spin
    ensures Run(ops, states[0]) == states[|ops|] && Clean(ops, states[0])
  {
    if ops != [] {
      assert states[1] == Exec(ops[0], states[0]);
      forall k | 0 <= k < |ops[1..]| ensures states[1..][k + 1] == Exec(ops[1..][k], states[1..][k]) {
        assert states[k + 2] == Exec(ops[k + 1], states[k + 1]);
      }
      Traced(ops[1..], states[1..]);
    }
  }

  /** Cleanliness and effect of a block, in one predicate so that blocks chain. */
  ghost predicate Does(ops: seq<Op>, m: Machine, n: Machine) {
    Clean(ops, m) && Run(ops, m) == n
  }

  lemma Then(a: seq<Op>, b: seq<Op>, l: Machine, m: Machine, n: Machine)
    requires Does(a, l, m) && Does(b, m, n)
    ensures Does(a + b, l, n)
  {
    RunConcat(a, b, l);
    CleanConcat(a, b, l);
  }

  lemma IncDoes(i: Slot, m: Machine)
    requires Fits(m) && m.num[i] < INT_MAX - 1
    ensures Does(IncOps(i), m, m.(reg := m.num[i], num := m.num[i := m.num[i] + 1]))
  {
    var m1 := m.(reg := m.num[i]);
    Traced(IncOps(i), [m, m1, m1.(num := m1.num[i := m1.reg + 1])]);
  }

  lemma IncAllDoes(m: Machine) returns (n: Machine)
    requires Fits(m) && forall i :: 0 <= i < 5 ==> m.num[i] < INT_MAX - 1
    ensures n == m.(num := Apply(IncAll, m.Device()).num, reg := m.num[4])
    ensures Does(Ops(IncAll), m, n)
  {
    var m1 := m.(reg := m.num[0], num := m.num[0 := m.num[0] + 1]);
    var m2 := m1.(reg := m1.num[1], num := m1.num[1 := m1.num[1] + 1]);
    var m3 := m2.(reg := m2.num[2], num := m2.num[2 := m2.num[2] + 1]);
    var m4 := m3.(reg := m3.num[3], num := m3.num[3 := m3.num[3] + 1]);
    var m5 := m4.(reg := m4.num[4], num := m4.num[4 := m4.num[4] + 1]);
    IncDoes(0, m);
    IncDoes(1, m1);
    IncDoes(2, m2);
    IncDoes(3, m3);
    IncDoes(4, m4);
    Then(IncOps(0), IncOps(1), m, m1, m2);
    Then(IncOps(0) + IncOps(1), IncOps(2), m, m2, m3);
    Then(IncOps(0) + IncOps(1) + IncOps(2), IncOps(3), m, m3, m4);
    Then(IncOps(0) + IncOps(1) + IncOps(2) + IncOps(3), IncOps(4), m, m4, m5);
    assert m5.num == Apply(IncAll, m.Device()).num;
    n := m5;
  }

  lemma IncAllRefines(m: Machine, b: int)
    requires 0 <= b <= 1_000_000 && Bounded(m, b) && !m.spin
    ensures Refines(Ops(IncAll), IncAll, m, b)
  {
    var n := IncAllDoes(m);
  }

  lemma AccumulateAllDoes(m: Machine)
    requires Fits(m) && m.acc == 0 && forall i :: 0 <= i < 5 ==> -400_000_000 <= m.num[i] <= 400_000_000
    ensures Does(AccumulateAll(), m, m.(acc := Total(m.num)))
  {
    var m1 := m.(acc := m.num[0]);
    var m2 := m1.(acc := m1.acc + m.num[1]);
    var m3 := m2.(acc := m2.acc + m.num[2]);
    var m4 := m3.(acc := m3.acc + m.num[3]);
    AddSlotDoes(0, m);
    AddSlotDoes(1, m1);
    AddSlotDoes(2, m2);
    AddSlotDoes(3, m3);
    AddSlotDoes(4, m4);
    Then([AddSlot(0)], [AddSlot(1)], m, m1, m2);
    Then([AddSlot(0)] + [AddSlot(1)], [AddSlot(2)], m, m2, m3);
    Then([AddSlot(0)] + [AddSlot(1)] + [AddSlot(2)], [AddSlot(3)], m, m3, m4);
    Then([AddSlot(0)] + [AddSlot(1)] + [AddSlot(2)] + [AddSlot(3)], [AddSlot(4)], m, m4, m.(acc := Total(m.num)));
  }

  lemma AddSlotDoes(i: Slot, m: Machine)
    requires Fits(m) && -INT_MAX <= m.acc + m.num[i] <= INT_MAX
    ensures Does([AddSlot(i)], m, m.(acc := m.acc + m.num[i]))
  {
    Traced([AddSlot(i)], [m, m.(acc := m.acc + m.num[i])]);
  }

  lemma SumDoes(m: Machine)
    requires Fits(m) && forall i :: 0 <= i < 5 ==> -400_000_000 <= m.num[i] <= 400_000_000
    ensures Does(Ops(Sum), m, m.(acc := Total(m.num), sum := Total(m.num)))
  {
    var m1 := m.(acc := 0);
    var m2 := m1.(acc := Total(m.num));
    var m3 := m2.(sum := m2.acc);
    Traced([ClearAcc], [m, m1]);
    AccumulateAllDoes(m1);
    Traced([StoreAcc], [m2, m3]);
    Then([ClearAcc], AccumulateAll(), m, m1, m2);
    Then([ClearAcc] + AccumulateAll(), [StoreAcc], m, m2, m3);
  }

  lemma SumRefines(m: Machine, b: int)
    requires 0 <= b <= 1_000_000 && Bounded(m, b) && !m.spin
    ensures Refines(Ops(Sum), Sum, m, b)
  {
    SumDoes(m);
  }

  lemma ResetDoes(m: Machine)
    requires Fits(m)
    ensures Does(Ops(Reset), m, m.(num := ZEROS, sum := 0))
  {
    var m1 := m.(num := m.num[0 := 0]);
    var m2 := m1.(num := m1.num[1 := 0]);
    var m3 := m2.(num := m2.num[2 := 0]);
    var m4 := m3.(num := m3.num[3 := 0]);
    var m5 := m4.(num := m4.num[4 := 0]);
    Traced(Ops(Reset), [m, m1, m2, m3, m4, m5, m5.(sum := 0)]);
    assert m5.num == ZEROS;
  }

  lemma ResetRefines(m: Machine, b: int)
    requires 0 <= b <= 1_000_000 && Bounded(m, b) && !m.spin
    ensures Refines(Ops(Reset), Reset, m, b)
  {
    ResetDoes(m);
  }

  lemma HandlerStoresDoes(m: Machine)
    requires Fits(m) && !m.spin
    ensures Does(HandlerStores(), m, m.(spin := true, num := [-1, -2, -3, -4, -5]))
  {
    var m1 := m.(spin := true);
    var m2 := m1.(num := m1.num[0 := -1]);
    var m3 := m2.(num := m2.num[1 := -2]);
    var m4 := m3.(num := m3.num[2 := -3]);
    var m5 := m4.(num := m4.num[3 := -4]);
    var m6 := m5.(num := m5.num[4 := -5]);
    Traced(HandlerStores(), [m, m1, m2, m3, m4, m5, m6]);
    assert m6.num == [-1, -2, -3, -4, -5];
  }

  lemma HandlerTurnDoes(i: Slot, m: Machine)
    requires Fits(m) && -INT_MAX <= m.sum + m.num[i] <= INT_MAX
    ensures Does(HandlerTurn(i), m, m.(sum := m.sum + m.num[i], acc := m.sum + m.num[i]))
  {
    var m1 := m.(acc := m.sum);
    var m2 := m1.(acc := m1.acc + m1.num[i]);
    Traced(HandlerTurn(i), [m, m1, m2, m2.(sum := m2.acc)]);
  }

  lemma HandlerLoopDoes(m: Machine)
    requires Fits(m) && m.num == [-1, -2, -3, -4, -5] && -INT_MAX <= m.sum - 15
    ensures Does(HandlerLoop(), m, m.(sum := m.sum - 15, acc := m.sum - 15))
  {
    var m1 := m.(sum := m.sum - 1, acc := m.sum - 1);
    var m2 := m.(sum := m.sum - 3, acc := m.sum - 3);
    var m3 := m.(sum := m.sum - 6, acc := m.sum - 6);
    var m4 := m.(sum := m.sum - 10, acc := m.sum - 10);
    var m5 := m.(sum := m.sum - 15, acc := m.sum - 15);
    HandlerTurnDoes(0, m);
    HandlerTurnDoes(1, m1);
    HandlerTurnDoes(2, m2);
    HandlerTurnDoes(3, m3);
    HandlerTurnDoes(4, m4);
    Then(HandlerTurn(0), HandlerTurn(1), m, m1, m2);
    Then(HandlerTurn(0) + HandlerTurn(1), HandlerTurn(2), m, m2, m3);
    Then(HandlerTurn(0) + HandlerTurn(1) + HandlerTurn(2), HandlerTurn(3), m, m3, m4);
    Then(HandlerTurn(0) + HandlerTurn(1) + HandlerTurn(2) + HandlerTurn(3), HandlerTurn(4), m, m4, m5);
  }

  lemma InterruptDoes(m: Machine) returns (n: Machine)
    requires Fits(m) && !m.spin && -INT_MAX <= m.sum - 15
    ensures n == m.(num := [-1, -2, -3, -4, -5], sum := m.sum - 15, acc := m.sum - 15,
                    log := m.log + [Line(Irq, m.sum - 15)])
    ensures Does(Ops(Interrupt), m, n)
  {
    var m1 := m.(spin := true, num := [-1, -2, -3, -4, -5]);
    var m2 := m1.(sum := m.sum - 15, acc := m.sum - 15);
    var m3 := m2.(spin := false);
    var m4 := m3.(log := m.log + [Line(Irq, m3.sum)]);
    HandlerStoresDoes(m);
    HandlerLoopDoes(m1);
    Traced([SpinUnlock, Emit(Irq)], [m2, m3, m4]);
    Then(HandlerStores(), HandlerLoop(), m, m1, m2);
    Then(HandlerStores() + HandlerLoop(), [SpinUnlock, Emit(Irq)], m, m2, m4);
    n := m4;
  }

  lemma InterruptRefines(m: Machine, b: int)
    requires 0 <= b <= 1_000_000 && Bounded(m, b) && !m.spin
    ensures Refines(Ops(Interrupt), Interrupt, m, b)
  {
    var n := InterruptDoes(m);
  }

  lemma CommandRefines(command: Command, m: Machine, b: int)
    requires 0 <= b <= 1_000_000 && Bounded(m, b) && !m.spin
    ensures Refines(Ops(command), command, m, b)
  {
    match command
    case Print(source) => Traced(Ops(command), [m, Exec(Emit(source), m)]);
    case Inc(slot) => IncDoes(slot, m);
    case IncAll => IncAllRefines(m, b);
    case Interrupt => InterruptRefines(m, b);
    case Sum => SumRefines(m, b);
    case Reset => ResetRefines(m, b);
    case Unknown =>
  }

  /** The handler touches the device only between taking the spinlock and giving it back, and prints
      afterwards; no other command takes it. */
  lemma OnlyHandlerLocks(command: Command)
    ensures command.Interrupt? ==>
              var ops := Ops(command);
              && |ops| > 3 && ops[0] == SpinLock && ops[|ops| - 2] == SpinUnlock && ops[|ops| - 1] == Emit(Irq)
              && forall k :: 0 < k < |ops| - 2 ==> !ops[k].SpinLock? && !ops[k].SpinUnlock? && !ops[k].Emit?
    ensures !command.Interrupt? ==> forall k :: 0 <= k < |Ops(command)| ==>
              !Ops(command)[k].SpinLock? && !Ops(command)[k].SpinUnlock?
  {
  }

  /** A command sequence run access by access, alone, is that sequence of atomic commands; every
      intermediate value fits, and the spinlock is free at every `SpinLock`. */
  lemma {:induction false} CompileRefines(commands: seq<Command>, m: Machine, b: int)
    requires 0 <= b && b + 5 * |commands| <= 1_000_000 && Bounded(m, b) && !m.spin
    ensures Clean(Compile(commands), m)
    ensures Run(Compile(commands), m).Device() == ApplyAll(commands, m.Device())
    ensures !Run(Compile(commands), m).spin
  {
    if commands != [] {
      CommandRefines(commands[0], m, b);
      CompileRefines(commands[1..], Run(Ops(commands[0]), m), b + 5);
      RunConcat(Ops(commands[0]), Compile(commands[1..]), m);
      CleanConcat(Ops(commands[0]), Compile(commands[1..]), m);
    }
  }
}
