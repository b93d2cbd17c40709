/** The two command lists of labs/lab12/driver/ioctl_test.c and the score of test.sh. */
module CounterTest {
  import opened CounterDevice
  import opened CounterClients

  function Fill(i: Slot): seq<Command> {
    [Inc(i), Inc(i), Inc(i), Inc(i), Inc(i), Sum]
  }

  /** Slots 0 to n - 1 in turn, five increments and a sum each. */
  function Fills(n: nat): seq<Command>
    requires n <= 5
  {
    if n == 0 then [] else Fills(n - 1) + Fill(n - 1)
  }

  /** The commands between LOCK and UNLOCK. */
  function Section(role: Role): seq<Command> {
    match role
    case Parent => Fills(3) + [Print(Ioctl0), Reset, IncAll, IncAll, Sum, Print(Ioctl1), Reset]
    case Child => [Interrupt, Reset] + Fills(5) + [Print(Ioctl2), Reset]
  }

  /** What one run of a section prints, as the comments in the client promise. */
  function Lines(role: Role): seq<Line> {
    match role
    case Parent => [Line(Ioctl0, 15), Line(Ioctl1, 10)]
    case Child => [Line(Irq, -15), Line(Ioctl2, 25)]
  }

  /** The clients issue the command lists of the test program. */
  ghost predicate IsIoctlTest(p: Program) {
    forall role {:trigger Section(role)} :: p.Section(role) == Section(role)
  }

  function AddTo(v: View, i: Slot, n: int): View {
    v.(num := v.num[i := v.num[i] + n])
  }

  lemma FillMeans(i: Slot, v: View)
    ensures ApplyAll(Fill(i), v) == AddTo(v, i, 5).(sum := Total(v.num) + 5)
  {
    var views := [v, AddTo(v, i, 1), AddTo(v, i, 2), AddTo(v, i, 3), AddTo(v, i, 4), AddTo(v, i, 5),
                  AddTo(v, i, 5).(sum := Total(v.num) + 5)];
    forall k | 0 <= k < 6 ensures views[k + 1] == Apply(Fill(i)[k], views[k]) {
      assert k < 5 ==> views[k] == AddTo(v, i, k);
    }
    ApplyAlong(Fill(i), views);
  }

  function Filled(n: nat): Counters
    requires n <= 5
  {
    seq(5, i => if i < n then 5 else 0)
  }

  lemma {:induction false} FillsMean(n: nat, log: seq<Line>)
    requires n <= 5
    ensures ApplyAll(Fills(n), View(ZEROS, 0, log)) == View(Filled(n), 5 * n, log)
  {
    if n == 0 {
      assert Filled(0) == ZEROS;
    } else {
      FillsMean(n - 1, log);
      ApplyAllConcat(Fills(n - 1), Fill(n - 1), View(ZEROS, 0, log));
      FillMeans(n - 1, View(Filled(n - 1), 5 * (n - 1), log));
      assert Filled(n) == Filled(n - 1)[n - 1 := 5];
    }
  }

  lemma ParentTailMeans(log: seq<Line>)
    ensures ApplyAll([Print(Ioctl0), Reset, IncAll, IncAll, Sum, Print(Ioctl1), Reset], View(Filled(3), 15, log))
         == View(ZEROS, 0, log + Lines(Parent))
  {
    var tail := [Print(Ioctl0), Reset, IncAll, IncAll, Sum, Print(Ioctl1), Reset];
    var log1 := log + [Line(Ioctl0, 15)];
    var log2 := log + Lines(Parent);
    var ones, twos := [1, 1, 1, 1, 1], [2, 2, 2, 2, 2];
    assert log2 == log1 + [Line(Ioctl1, 10)];
    ApplyAlong(tail, [View(Filled(3), 15, log), View(Filled(3), 15, log1), View(ZEROS, 0, log1), View(ones, 0, log1),
                      View(twos, 0, log1), View(twos, 10, log1), View(twos, 10, log2), View(ZEROS, 0, log2)]);
  }

  lemma ParentSectionMeans(log: seq<Line>)
    ensures ApplyAll(Section(Parent), View(ZEROS, 0, log)) == View(ZEROS, 0, log + Lines(Parent))
  {
    FillsMean(3, log);
    ParentTailMeans(log);
    ApplyAllConcat(Fills(3), [Print(Ioctl0), Reset, IncAll, IncAll, Sum, Print(Ioctl1), Reset], View(ZEROS, 0, log));
  }

  lemma ChildSectionMeans(log: seq<Line>)
    ensures ApplyAll(Section(Child), View(ZEROS, 0, log)) == View(ZEROS, 0, log + Lines(Child))
  {
    var v := View(ZEROS, 0, log);
    var head, tail := [Interrupt, Reset], [Print(Ioctl2), Reset];
    var log1 := log + [Line(Irq, -15)];
    var log2 := log + Lines(Child);
    assert log2 == log1 + [Line(Ioctl2, 25)];
    ApplyAlong(head, [v, View([-1, -2, -3, -4, -5], -15, log1), View(ZEROS, 0, log1)]);
    FillsMean(5, log1);
    ApplyAlong(tail, [View(Filled(5), 25, log1), View(Filled(5), 25, log2), View(ZEROS, 0, log2)]);
    ApplyAllConcat(head, Fills(5), v);
    ApplyAllConcat(head + Fills(5), tail, v);
  }

  /** Run alone on a zeroed device, each list prints exactly its two lines and zeroes the device again. */
  lemma IoctlTestRestores(p: Program)
    requires IsIoctlTest(p)
    ensures p.Restores()
    ensures p.Lines(Parent) == Lines(Parent) && p.Lines(Child) == Lines(Child)
  {
    assert p.parent == Section(Parent) && p.child == Section(Child);
    ParentSectionMeans([]);
    ChildSectionMeans([]);
    assert |Fills(3)| == 18 && |Fills(5)| == 30 by {
      FillsLength(3);
      FillsLength(5);
    }
  }

  lemma {:induction false} FillsLength(n: nat)
    requires n <= 5
    ensures |Fills(n)| == 6 * n
  {
    if n > 0 {
      FillsLength(n - 1);
    }
  }

  function Expected(source: Source): int {
    match source
    case Ioctl0 => 15
    case Ioctl1 => 10
    case Ioctl2 => 25
    case Irq => -15
  }

  /** One point for each printed line of a kind that shows the expected sum. */
  function Points(log: seq<Line>, source: Source): nat {
    multiset(log)[Line(source, Expected(source))]
  }

  function Score(log: seq<Line>): nat {
    Points(log, Irq) + Points(log, Ioctl0) + Points(log, Ioctl1) + Points(log, Ioctl2)
  }

  /** However the clients interleave, no line ever shows another sum than the one its kind should. */
  lemma EveryLineShowsItsSum(p: Program, instances: nat, schedule: seq<nat>, s: State, k: nat)
    requires IsIoctlTest(p)
    requires Reached(p, instances, schedule, s) && k < |s.log|
    ensures s.log[k].value == Expected(s.log[k].source)
  {
    IoctlTestRestores(p);
    EveryLineIsExpected(p, instances, schedule, s);
    assert s.log[k] in s.log;
    ExpectedLine(p, s.log[k]);
  }

  lemma ExpectedLine(p: Program, line: Line)
    requires p.Lines(Parent) == Lines(Parent) && p.Lines(Child) == Lines(Child)
    requires line in p.Lines(Parent) + p.Lines(Child)
    ensures line.value == Expected(line.source)
  {
  }

  lemma OnePointEach(source: Source)
    ensures var line := Line(source, Expected(source));
            multiset(Lines(Parent))[line] + multiset(Lines(Child))[line] == 1
  {
  }

  /** Every run of n instances that cannot go on has all clients finished and n lines of each of
      the four kinds, hence scores 4n. */
  lemma FullScore(p: Program, instances: nat, schedule: seq<nat>, s: State)
    requires IsIoctlTest(p) && Reached(p, instances, schedule, s)
    requires forall c :: !Enabled(p, s, c)
    ensures Finished(p, s)
    ensures forall source :: Points(s.log, source) == instances
    ensures Score(s.log) == 4 * instances
  {
    IoctlTestRestores(p);
    EveryMaximalRunFinishes(p, instances, schedule, s);
    PointsFromLines(p, s.log, instances);
  }

  lemma PointsFromLines(p: Program, log: seq<Line>, n: nat)
    requires p.Lines(Parent) == Lines(Parent) && p.Lines(Child) == Lines(Child)
    requires forall line ::
               multiset(log)[line] == n * (multiset(p.Lines(Parent))[line] + multiset(p.Lines(Child))[line])
    ensures forall source :: Points(log, source) == n
  {
    forall source ensures Points(log, source) == n {
      OnePointEach(source);
      assert n * 1 == n;
    }
  }
}
