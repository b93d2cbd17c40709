/** The device of labs/lab12/driver/driver.c: five counters, their sum, and the lines it prints.

    `Apply` is what one ioctl means when nothing interferes; the class does it in place, with
    the loops of `my_ioctl` and `my_irq_handler`.
  */
module CounterDevice {
  import opened Basics

  type Slot = i: int | 0 <= i < 5

  type Counters = s: seq<int> | |s| == 5 witness [0, 0, 0, 0, 0]

  const ZEROS: Counters := [0, 0, 0, 0, 0]

  /** The four kinds of line that carry a sum. */
  datatype Source = Ioctl0 | Ioctl1 | Ioctl2 | Irq

  datatype Line = Line(source: Source, value: int)

  /** The ioctl commands other than LOCK and UNLOCK, which the client model treats as steps of its own. */
  datatype Command = Print(source: Source) | Inc(slot: Slot) | IncAll | Interrupt | Sum | Reset | Unknown

  datatype View = View(num: Counters, sum: int, log: seq<Line>)

  const POWERED_UP := View(ZEROS, 0, [])

  function Total(num: Counters): int {
    num[0] + num[1] + num[2] + num[3] + num[4]
  }

  function Apply(command: Command, v: View): View {
    match command
    case Print(source) => v.(log := v.log + [Line(source, v.sum)])
    case Inc(slot) => v.(num := v.num[slot := v.num[slot] + 1])
    case IncAll => v.(num := [v.num[0] + 1, v.num[1] + 1, v.num[2] + 1, v.num[3] + 1, v.num[4] + 1])
    case Interrupt => View([-1, -2, -3, -4, -5], v.sum - 15, v.log + [Line(Irq, v.sum - 15)])
    case Sum => v.(sum := Total(v.num))
    case Reset => v.(num := ZEROS, sum := 0)
    case Unknown => v
  }

  predicate CounterMeans(command: Command, i: Slot, was: int, now: int) {
    match command
    case Inc(slot) => now == if i == slot then was + 1 else was
    case IncAll => now == was + 1
    case Interrupt => now == -(i + 1)
    case Reset => now == 0
    case _ => now == was
  }

  /** What a command does to every counter, the sum and the log. */
  ghost predicate CommandMeans(command: Command, was: View, now: View) {
    && (forall i :: 0 <= i < 5 ==> CounterMeans(command, i, was.num[i], now.num[i]))
    && now.sum == (match command
         case Interrupt => was.sum - 1 - 2 - 3 - 4 - 5
         case Sum => was.num[0] + was.num[1] + was.num[2] + was.num[3] + was.num[4]
         case Reset => 0
         case _ => was.sum)
    && now.log == (match command
         case Print(source) => was.log + [Line(source, was.sum)]
         case Interrupt => was.log + [Line(Irq, now.sum)]
         case _ => was.log)
  }

  lemma ApplyMeans(command: Command, v: View)
    ensures CommandMeans(command, v, Apply(command, v))
  {
  }

  function ApplyAll(commands: seq<Command>, v: View): View {
    if commands == [] then v else ApplyAll(commands[1..], Apply(commands[0], v))
  }

  lemma {:induction false} ApplyAllConcat(a: seq<Command>, b: seq<Command>, v: View)
    ensures ApplyAll(a + b, v) == ApplyAll(b, ApplyAll(a, v))
  {
    if a == [] {
      assert a + b == b;
    } else {
      assert (a + b)[1..] == a[1..] + b;
      ApplyAllConcat(a[1..], b, Apply(a[0], v));
    }
  }

  /** A log already present does not influence what is computed or printed. */
  lemma {:induction false} ApplyAllAfterLog(commands: seq<Command>, v: View, before: seq<Line>)
    ensures ApplyAll(commands, v.(log := before + v.log))
         == ApplyAll(commands, v).(log := before + ApplyAll(commands, v).log)
  {
    if commands != [] {
      var w := Apply(commands[0], v);
      assert Apply(commands[0], v.(log := before + v.log)) == w.(log := before + w.log);
      ApplyAllAfterLog(commands[1..], w, before);
    }
  }

  /** `views` are the states `commands` go through, one after each command. */
  lemma {:induction false} ApplyAlong(commands: seq<Command>, views: seq<View>)
    requires |views| == |commands| + 1
    requires forall k :: 0 <= k < |commands| ==> views[k + 1] == Apply(commands[k], views[k])
    ensures ApplyAll(commands, views[0]) == views[|commands|]
  {
    if commands != [] {
      forall k | 0 <= k < |commands[1..]| ensures views[1..][k + 1] == Apply(commands[1..][k], views[1..][k]) {
        assert views[k + 2] == Apply(commands[k + 1], views[k + 1]);
      }
      assert views[1] == Apply(commands[0], views[0]);
      ApplyAlong(commands[1..], views[1..]);
    }
  }

  class Device {
    var num: array<int>
    var sum: int
    var log: seq<Line>

    ghost predicate Valid()
      reads this
    {
      num.Length == 5
    }

    ghost function State(): View
      reads this, num
      requires Valid()
    {
      View(num[..], sum, log)
    }

    constructor ()
      ensures Valid() && fresh(num) && State() == POWERED_UP
    {
      num := new int[5](_ => 0);
      sum := 0;
      log := [];
      new;
      assert num[..] == ZEROS;
    }

    method InterruptHandler()
      requires Valid()
      modifies this`sum, this`log, num
      ensures Valid() && State() == Apply(Interrupt, old(State()))
    {
      num[0], num[1], num[2], num[3], num[4] := -1, -2, -3, -4, -5;
      assert num[..] == [-1, -2, -3, -4, -5];
      for i := 0 to 5
        invariant num[..] == [-1, -2, -3, -4, -5]
        invariant sum == old(sum) - i * (i + 1) / 2
        invariant log == old(log)
      {
        assert num[i] == num[..][i];
        sum := sum + num[i];
      }
      log := log + [Line(Irq, sum)];
    }

    method Ioctl(command: Command) returns (ret: int)
      requires Valid()
      modifies this`sum, this`log, num
      ensures Valid() && State() == Apply(command, old(State()))
      ensures CommandMeans(command, old(State()), State())
      ensures ret == if command.Unknown? then -EINVAL else 0
    {
      ret := 0;
      ApplyMeans(command, State());
      match command
      case Print(source) =>
        log := log + [Line(source, sum)];
      case Inc(slot) =>
        num[slot] := num[slot] + 1;
      case IncAll =>
        num[0], num[1], num[2], num[3], num[4] := num[0] + 1, num[1] + 1, num[2] + 1, num[3] + 1, num[4] + 1;
      case Interrupt =>
        InterruptHandler();
      case Sum =>
        var total := 0;
        for i := 0 to 5
          invariant total == PrefixTotal(num[..], i)
        {
          total := total + num[i];
        }
        PrefixTotalIsTotal(num[..]);
        sum := total;
      case Reset =>
        num[0], num[1], num[2], num[3], num[4] := 0, 0, 0, 0, 0;
        sum := 0;
      case Unknown =>
        ret := -EINVAL;
    }
  }

  ghost function PrefixTotal(num: seq<int>, k: nat): int
    requires k <= |num|
  {
    if k == 0 then 0 else PrefixTotal(num, k - 1) + num[k - 1]
  }

  lemma PrefixTotalIsTotal(num: Counters)
    ensures PrefixTotal(num, 5) == Total(num)
  {
    assert PrefixTotal(num, 1) == num[0];
    assert PrefixTotal(num, 3) == num[0] + num[1] + num[2];
  }
}
