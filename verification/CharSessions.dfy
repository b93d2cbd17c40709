/** Any number of callers opening, using and releasing the minors of labs/lab11/my_cdev.c, in any
    interleaving of their calls, SET_BUFFER apart.
  */
module CharSessions {
  import opened Basics
  import opened CharDevice

  /** `sessions` records, for each open that succeeded, what was done through it. */
  datatype Node = Node(bytes: seq<Byte>, access: int, sessions: seq<seq<Op>>)

  /** An open file; `got` is everything its reads have returned. */
  datatype Handle = Handle(minor: nat, pos: nat, got: seq<Byte>)

  datatype State = State(nodes: seq<Node>, files: map<nat, Handle>)

  datatype Action = Open(file: nat, minor: nat) | Operate(file: nat, op: Op) | Release(file: nat)

  function Blank(): seq<Byte> {
    seq(BUFSIZ, _ => 0)
  }

  function Init(minors: nat): State {
    State(seq(minors, _ => Node(Blank(), 0, [])), map[])
  }

  predicate Enabled(s: State, a: Action) {
    match a
    case Open(file, minor) => file !in s.files && minor < |s.nodes|
    case Operate(file, _) =>
      && file in s.files && s.files[file].minor < |s.nodes|
      && s.files[file].pos <= |s.nodes[s.files[file].minor].bytes|
      && s.nodes[s.files[file].minor].sessions != []
    case Release(file) => file in s.files && s.files[file].minor < |s.nodes|
  }

  function AppendToLast(sessions: seq<seq<Op>>, op: Op): seq<seq<Op>>
    requires sessions != []
  {
    sessions[..|sessions| - 1] + [sessions[|sessions| - 1] + [op]]
  }

  function Step(s: State, a: Action): State
    requires Enabled(s, a)
  {
    match a
    case Open(file, m) =>
      if s.nodes[m].access != 0 then s                            // EBUSY: no file
      else State(s.nodes[m := s.nodes[m].(access := 1, sessions := s.nodes[m].sessions + [[]])],
                 s.files[file := Handle(m, 0, [])])
    case Operate(file, op) =>
      var h := s.files[file];
      var n := s.nodes[h.minor];
      var t := Tape(n.bytes, h.pos);
      State(s.nodes[h.minor := n.(bytes := Apply(op, t).bytes, sessions := AppendToLast(n.sessions, op))],
            s.files[file := h.(pos := Apply(op, t).pos, got := h.got + Output(op, t))])
    case Release(file) =>
      var m := s.files[file].minor;
      State(s.nodes[m := s.nodes[m].(access := 0)], s.files - {file})
  }

  // -- One session after another -------------------------------------------------------------

  /** The device after whole sessions run one after another, each from position 0. */
  function Replay(sessions: seq<seq<Op>>): (t: Tape)
    ensures |t.bytes| == BUFSIZ && TapeOk(t)
    decreases |sessions|, 1
  {
    if sessions == [] then Tape(Blank(), 0)
    else ApplyAll(sessions[|sessions| - 1], Opening(sessions))
  }

  /** What the last session found when it opened. */
  function Opening(sessions: seq<seq<Op>>): (t: Tape)
    requires sessions != []
    ensures |t.bytes| == BUFSIZ && TapeOk(t)
    decreases |sessions|, 0
  {
    Tape(Replay(sessions[..|sessions| - 1]).bytes, 0)
  }

  ghost predicate HandleOk(h: Handle, nodes: seq<Node>) {
    && h.minor < |nodes|
    && nodes[h.minor].access == 1
    && var sessions := nodes[h.minor].sessions;
       && sessions != []
       && h.pos == Replay(sessions).pos
       && h.got == Outputs(sessions[|sessions| - 1], Opening(sessions))
  }

  ghost predicate NodeOk(s: State, m: nat)
    requires m < |s.nodes|
  {
    && s.nodes[m].bytes == Replay(s.nodes[m].sessions).bytes
    && (s.nodes[m].access == 0 || s.nodes[m].access == 1)
    && (s.nodes[m].access == 1 ==> exists f :: f in s.files && s.files[f].minor == m)
  }

  ghost predicate Inv(s: State) {
    && (forall f :: f in s.files ==> HandleOk(s.files[f], s.nodes))
    && (forall f, g :: f in s.files && g in s.files && s.files[f].minor == s.files[g].minor ==> f == g)
    && (forall m: nat :: m < |s.nodes| ==> NodeOk(s, m))
  }

  /** An open file can always be used: the position and the session it needs are there. */
  lemma OpenFileIsUsable(s: State, file: nat, op: Op)
    requires Inv(s) && file in s.files
    ensures Enabled(s, Operate(file, op)) && Enabled(s, Release(file))
  {
    assert HandleOk(s.files[file], s.nodes) && NodeOk(s, s.files[file].minor);
  }

  lemma InitOk(minors: nat)
    ensures Inv(Init(minors))
  {
  }

  lemma LastSession(sessions: seq<seq<Op>>, op: Op)
    requires sessions != []
    ensures var t := Replay(sessions);
            && Opening(AppendToLast(sessions, op)) == Opening(sessions)
            && Replay(AppendToLast(sessions, op)) == Apply(op, t)
            && Outputs(sessions[|sessions| - 1] + [op], Opening(sessions))
            == Outputs(sessions[|sessions| - 1], Opening(sessions)) + Output(op, t)
  {
    var more := AppendToLast(sessions, op);
    var last := sessions[|sessions| - 1];
    assert more[..|more| - 1] == sessions[..|sessions| - 1];
    assert (last + [op])[..|last|] == last;
  }

  lemma OperateKeepsNode(s: State, file: nat, op: Op, k: nat)
    requires Inv(s) && Enabled(s, Operate(file, op)) && k < |s.nodes|
    ensures NodeOk(Step(s, Operate(file, op)), k)
  {
    var t := Step(s, Operate(file, op));
    assert HandleOk(s.files[file], s.nodes) && NodeOk(s, k);
    if k == s.files[file].minor {
      LastSession(s.nodes[k].sessions, op);
    }
    if t.nodes[k].access == 1 {
      var f :| f in s.files && s.files[f].minor == k;
      assert f in t.files && t.files[f].minor == k;
    }
  }

  lemma OperateKeepsHandle(s: State, file: nat, op: Op, f: nat)
    requires Inv(s) && Enabled(s, Operate(file, op)) && f in s.files
    ensures HandleOk(Step(s, Operate(file, op)).files[f], Step(s, Operate(file, op)).nodes)
  {
    var m := s.files[file].minor;
    assert HandleOk(s.files[f], s.nodes) && HandleOk(s.files[file], s.nodes) && NodeOk(s, m);
    if f == file {
      LastSession(s.nodes[m].sessions, op);
    }
  }

  lemma OperateKeepsFiles(s: State, file: nat, op: Op)
    requires Enabled(s, Operate(file, op))
    ensures var t := Step(s, Operate(file, op));
            && t.files.Keys == s.files.Keys
            && forall f :: f in s.files ==> t.files[f].minor == s.files[f].minor
  {
  }

  lemma OperateOk(s: State, file: nat, op: Op)
    requires Inv(s) && Enabled(s, Operate(file, op))
    ensures Inv(Step(s, Operate(file, op)))
  {
    var t := Step(s, Operate(file, op));
    OperateKeepsFiles(s, file, op);
    forall f | f in t.files ensures HandleOk(t.files[f], t.nodes) {
      OperateKeepsHandle(s, file, op, f);
    }
    forall k: nat | k < |t.nodes| ensures NodeOk(t, k) {
      OperateKeepsNode(s, file, op, k);
    }
  }

  lemma OpenKeepsHandle(s: State, file: nat, minor: nat, f: nat)
    requires Inv(s) && Enabled(s, Open(file, minor)) && s.nodes[minor].access == 0
    requires f == file || f in s.files
    ensures HandleOk(Step(s, Open(file, minor)).files[f], Step(s, Open(file, minor)).nodes)
  {
    var was := s.nodes[minor].sessions;
    assert NodeOk(s, minor);
    assert (was + [[]])[..|was|] == was;
    assert f != file ==> HandleOk(s.files[f], s.nodes);
  }

  lemma OpenKeepsNode(s: State, file: nat, minor: nat, k: nat)
    requires Inv(s) && Enabled(s, Open(file, minor)) && s.nodes[minor].access == 0 && k < |s.nodes|
    ensures NodeOk(Step(s, Open(file, minor)), k)
  {
    var t, was := Step(s, Open(file, minor)), s.nodes[minor].sessions;
    assert NodeOk(s, k);
    if k == minor {
      assert (was + [[]])[..|was|] == was;
      assert file in t.files && t.files[file].minor == k;
    } else if t.nodes[k].access == 1 {
      var f :| f in s.files && s.files[f].minor == k;
      assert f in t.files && t.files[f].minor == k;
    }
  }

  lemma OpenOk(s: State, file: nat, minor: nat)
    requires Inv(s) && Enabled(s, Open(file, minor))
    ensures Inv(Step(s, Open(file, minor)))
  {
    var t := Step(s, Open(file, minor));
    if s.nodes[minor].access == 0 {
      forall f | f in t.files ensures HandleOk(t.files[f], t.nodes) {
        OpenKeepsHandle(s, file, minor, f);
      }
      forall k: nat | k < |t.nodes| ensures NodeOk(t, k) {
        OpenKeepsNode(s, file, minor, k);
      }
      forall f | f in s.files ensures s.files[f].minor != minor {
        assert HandleOk(s.files[f], s.nodes);
      }
    }
  }

  lemma ReleaseOk(s: State, file: nat)
    requires Inv(s) && Enabled(s, Release(file))
    ensures Inv(Step(s, Release(file)))
  {
    var t := Step(s, Release(file));
    var m := s.files[file].minor;
    forall f | f in t.files ensures HandleOk(t.files[f], t.nodes) {
      assert HandleOk(s.files[f], s.nodes);
      assert s.files[f].minor != m;
    }
    forall k: nat | k < |t.nodes| ensures NodeOk(t, k) {
      assert NodeOk(s, k);
      if t.nodes[k].access == 1 {
        var f :| f in s.files && s.files[f].minor == k;
        assert f in t.files && t.files[f].minor == k;
      }
    }
  }

  lemma StepOk(s: State, a: Action)
    requires Inv(s) && Enabled(s, a)
    ensures Inv(Step(s, a))
  {
    match a
    case Open(file, minor) => OpenOk(s, file, minor);
    case Operate(file, op) => OperateOk(s, file, op);
    case Release(file) => ReleaseOk(s, file);
  }

  /** Any minor can be opened under an unused handle, which succeeds exactly if no file is open on it. */
  lemma OpenSucceedsExactly(s: State, file: nat, m: nat)
    requires Inv(s) && file !in s.files && m < |s.nodes|
    ensures Enabled(s, Open(file, m))
    ensures var t := Step(s, Open(file, m));
            if exists f :: f in s.files && s.files[f].minor == m then t == s
            else t.files == s.files[file := Handle(m, 0, [])] && t.nodes[m].bytes == s.nodes[m].bytes
  {
    assert NodeOk(s, m);
    if f :| f in s.files && s.files[f].minor == m {
      assert HandleOk(s.files[f], s.nodes);
    }
  }

  // -- Runs ----------------------------------------------------------------------------------

  ghost predicate Follows(s: State, a: Action, t: State) {
    Enabled(s, a) && t == Step(s, a)
  }

  ghost predicate Run(minors: nat, actions: seq<Action>, states: seq<State>) {
    Path(actions, states) && states[0] == Init(minors)
  }

  ghost predicate Path(actions: seq<Action>, states: seq<State>) {
    && |states| == |actions| + 1
    && forall k :: 0 <= k < |actions| ==> Follows(states[k], actions[k], states[k + 1])
  }

  lemma {:induction false} RunOk(minors: nat, actions: seq<Action>, states: seq<State>)
    requires Run(minors, actions, states)
    ensures Inv(states[|actions|])
  {
    if actions == [] {
      InitOk(minors);
    } else {
      var n := |actions| - 1;
      RunOk(minors, actions[..n], states[..n + 1]);
      assert Follows(states[n], actions[n], states[n + 1]);
      StepOk(states[n], actions[n]);
    }
  }

  /** Each minor has at most one open file, and `access` is 1 exactly while it has one. */
  lemma ExclusiveOpen(minors: nat, actions: seq<Action>, states: seq<State>)
    requires Run(minors, actions, states)
    ensures var s := states[|actions|];
            && (forall f, g :: f in s.files && g in s.files && s.files[f].minor == s.files[g].minor ==> f == g)
            && (forall m: nat :: m < |s.nodes| ==>
                  (s.nodes[m].access == 1 <==> exists f :: f in s.files && s.files[f].minor == m))
  {
    RunOk(minors, actions, states);
    var s := states[|actions|];
    forall m: nat | m < |s.nodes|
      ensures s.nodes[m].access == 1 <==> exists f :: f in s.files && s.files[f].minor == m
    {
      assert NodeOk(s, m);
      if exists f :: f in s.files && s.files[f].minor == m {
        var f :| f in s.files && s.files[f].minor == m;
        assert HandleOk(s.files[f], s.nodes);
      }
    }
  }

  // -- The sessions of a run, read off its actions ---------------------------------------------

  /** What is done through `file` until it is released. */
  function Uses(file: nat, actions: seq<Action>): seq<Op> {
    if actions == [] || actions[0] == Release(file) then []
    else
      (if actions[0].Operate? && actions[0].file == file then [actions[0].op] else []) + Uses(file, actions[1..])
  }

  predicate OpensAs(a: Action, m: nat, s: State, t: State) {
    a.Open? && a.minor == m && a.file !in s.files && a.file in t.files
  }

  /** The session an open of minor `m` begins, if it succeeds. */
  function Opened(a: Action, m: nat, s: State, t: State, rest: seq<Action>): seq<seq<Op>> {
    if OpensAs(a, m, s, t) then [Uses(a.file, rest)] else []
  }

  /** For every open of minor `m` that succeeds, in order, what its file is used for until its release. */
  function SessionsOf(m: nat, actions: seq<Action>, states: seq<State>): seq<seq<Op>>
    requires |states| == |actions| + 1
  {
    if actions == [] then []
    else
      Opened(actions[0], m, states[0], states[1], actions[1..])
      + SessionsOf(m, actions[1..], states[1..])
  }

  /** `open` is the one file open on minor `m`, if there is one. */
  ghost predicate OpenOn(s: State, m: nat, open: Option<nat>) {
    && (open.Some? ==> open.value in s.files && s.files[open.value].minor == m)
    && (forall f :: f in s.files && s.files[f].minor == m ==> open == Some(f))
  }

  /** The last session goes on with `ops` if a file is open. */
  function GoesOn(sessions: seq<seq<Op>>, open: Option<nat>, ops: seq<Op>): seq<seq<Op>> {
    if open.None? || sessions == [] then sessions
    else sessions[..|sessions| - 1] + [sessions[|sessions| - 1] + ops]
  }

  function UsesOf(open: Option<nat>, actions: seq<Action>): seq<Op> {
    if open.None? then [] else Uses(open.value, actions)
  }

  lemma UsesStep(file: nat, a: Action, rest: seq<Action>)
    ensures Uses(file, [a]) == if a.Operate? && a.file == file then [a.op] else []
    ensures a != Release(file) ==> Uses(file, [a] + rest) == Uses(file, [a]) + Uses(file, rest)
  {
    assert ([a] + rest)[1..] == rest && [a][1..] == [];
  }

  function NextOpen(s: State, a: Action, t: State, m: nat, open: Option<nat>): Option<nat> {
    if OpensAs(a, m, s, t) then Some(a.file)
    else if open.Some? && a == Release(open.value) then None
    else open
  }

  /** What one action does to the record of minor `m`, and who has it open then. */
  ghost predicate Records(s: State, a: Action, t: State, m: nat, open: Option<nat>)
    requires m < |s.nodes|
  {
    && |t.nodes| == |s.nodes| && OpenOn(t, m, NextOpen(s, a, t, m, open))
    && t.nodes[m].sessions
       == (if OpensAs(a, m, s, t) then s.nodes[m].sessions + [[]]
           else if open.Some? && a == Release(open.value) then s.nodes[m].sessions
           else GoesOn(s.nodes[m].sessions, open, UsesOf(open, [a])))
    && (OpensAs(a, m, s, t) ==> open.None?)
  }

  lemma OpenRecords(s: State, file: nat, minor: nat, m: nat, open: Option<nat>)
    requires Enabled(s, Open(file, minor)) && m < |s.nodes| && OpenOn(s, m, open)
    requires open.Some? ==> s.nodes[m].access != 0
    ensures Records(s, Open(file, minor), Step(s, Open(file, minor)), m, open)
  {
    if open.Some? {
      UsesStep(open.value, Open(file, minor), []);
    }
    GoesOnTwice(s.nodes[m].sessions, open, [], []);
  }

  lemma OperateRecords(s: State, file: nat, op: Op, m: nat, open: Option<nat>)
    requires Enabled(s, Operate(file, op)) && m < |s.nodes| && OpenOn(s, m, open)
    ensures Records(s, Operate(file, op), Step(s, Operate(file, op)), m, open)
  {
    OperateKeepsFiles(s, file, op);
    if open.Some? {
      UsesStep(open.value, Operate(file, op), []);
    }
    GoesOnTwice(s.nodes[m].sessions, open, [], []);
  }

  lemma ReleaseRecords(s: State, file: nat, m: nat, open: Option<nat>)
    requires Enabled(s, Release(file)) && m < |s.nodes| && OpenOn(s, m, open)
    ensures Records(s, Release(file), Step(s, Release(file)), m, open)
  {
    if open.Some? {
      UsesStep(open.value, Release(file), []);
    }
    GoesOnTwice(s.nodes[m].sessions, open, [], []);
  }

  lemma RecordStep(s: State, a: Action, m: nat, open: Option<nat>)
    requires Inv(s) && Enabled(s, a) && m < |s.nodes| && OpenOn(s, m, open)
    ensures Records(s, a, Step(s, a), m, open)
  {
    assert open.Some? ==> HandleOk(s.files[open.value], s.nodes);
    match a
    case Open(file, minor) => OpenRecords(s, file, minor, m, open);
    case Operate(file, op) => OperateRecords(s, file, op, m, open);
    case Release(file) => ReleaseRecords(s, file, m, open);
  }

  lemma GoesOnTwice(sessions: seq<seq<Op>>, open: Option<nat>, a: seq<Op>, b: seq<Op>)
    ensures GoesOn(GoesOn(sessions, open, a), open, b) == GoesOn(sessions, open, a + b)
    ensures GoesOn(sessions, open, []) == sessions
  {
    if open.Some? && sessions != [] {
      var last := sessions[|sessions| - 1];
      assert (last + a) + b == last + (a + b);
      assert last + [] == last;
    }
  }

  lemma OpeningJoins(sessions: seq<seq<Op>>, file: nat, uses: seq<Op>, later: seq<seq<Op>>)
    ensures GoesOn(sessions + [[]], Some(file), uses) + later == sessions + ([uses] + later)
  {
    assert [] + uses == uses;
    assert (sessions + [[]])[..|sessions|] == sessions;
  }

  /** One action in front of a stretch of a run. */
  lemma RecordExtends(s: State, a: Action, t: State, m: nat, open: Option<nat>, rest: seq<Action>,
                      later: seq<seq<Op>>)
    requires m < |s.nodes| && m < |t.nodes| && Records(s, a, t, m, open)
    ensures var next := NextOpen(s, a, t, m, open);
            GoesOn(t.nodes[m].sessions, next, UsesOf(next, rest)) + later
            == GoesOn(s.nodes[m].sessions, open, UsesOf(open, [a] + rest)) + (Opened(a, m, s, t, rest) + later)
  {
    var sessions := s.nodes[m].sessions;
    assert ([a] + rest)[1..] == rest;
    assert [] + later == later;
    if OpensAs(a, m, s, t) {
      OpeningJoins(sessions, a.file, Uses(a.file, rest), later);
    } else if open.Some? && a == Release(open.value) {
      GoesOnTwice(sessions, open, [], []);
    } else if open.Some? {
      UsesStep(open.value, a, rest);
      GoesOnTwice(sessions, open, UsesOf(open, [a]), Uses(open.value, rest));
    }
  }

  /** From any state of a run to a later one. */
  ghost predicate Recorded(actions: seq<Action>, states: seq<State>, m: nat, open: Option<nat>)
    requires |states| == |actions| + 1 && m < |states[0].nodes|
  {
    && m < |states[|actions|].nodes|
    && states[|actions|].nodes[m].sessions
       == GoesOn(states[0].nodes[m].sessions, open, UsesOf(open, actions)) + SessionsOf(m, actions, states)
  }

  lemma OneMoreRecorded(actions: seq<Action>, states: seq<State>, m: nat, open: Option<nat>)
    requires |states| == |actions| + 1 && actions != [] && m < |states[0].nodes| && m < |states[1].nodes|
    requires Records(states[0], actions[0], states[1], m, open)
    requires Recorded(actions[1..], states[1..], m, NextOpen(states[0], actions[0], states[1], m, open))
    ensures Recorded(actions, states, m, open)
  {
    assert actions == [actions[0]] + actions[1..];
    RecordExtends(states[0], actions[0], states[1], m, open, actions[1..],
                  SessionsOf(m, actions[1..], states[1..]));
  }

  lemma {:induction false} PathIsRecorded(actions: seq<Action>, states: seq<State>, m: nat, open: Option<nat>)
    requires Path(actions, states) && Inv(states[0]) && m < |states[0].nodes| && OpenOn(states[0], m, open)
    ensures Recorded(actions, states, m, open)
  {
    if actions == [] {
      GoesOnTwice(states[0].nodes[m].sessions, open, [], []);
    } else {
      PathTail(actions, states);
      StepOk(states[0], actions[0]);
      RecordStep(states[0], actions[0], m, open);
      PathIsRecorded(actions[1..], states[1..], m, NextOpen(states[0], actions[0], states[1], m, open));
      OneMoreRecorded(actions, states, m, open);
    }
  }

  lemma PathTail(actions: seq<Action>, states: seq<State>)
    requires Path(actions, states) && actions != []
    ensures Follows(states[0], actions[0], states[1]) && Path(actions[1..], states[1..])
  {
    forall k | 0 <= k < |actions| - 1 ensures Follows(states[1..][k], actions[1..][k], states[1..][k + 1]) {
      assert Follows(states[k + 1], actions[k + 1], states[k + 2]);
    }
  }

  /** The record of a minor is the sessions of the run. */
  lemma SessionsAreRecorded(minors: nat, actions: seq<Action>, states: seq<State>, m: nat)
    requires Run(minors, actions, states) && m < minors
    ensures m < |states[|actions|].nodes| && states[|actions|].nodes[m].sessions == SessionsOf(m, actions, states)
  {
    InitOk(minors);
    PathIsRecorded(actions, states, m, None);
  }

  /** However the callers interleave, a minor holds what the sessions of the run leave when run one
      after another, and an open file has read what its session alone would have read. */
  // Dafny need not look for an induction here: the lemmas called have made it.
  lemma {:induction false} SessionsAreSerial(minors: nat, actions: seq<Action>, states: seq<State>, m: nat, f: nat)
    requires Run(minors, actions, states) && m < minors
    ensures var s, sessions := states[|actions|], SessionsOf(m, actions, states);
            && m < |s.nodes| && s.nodes[m].bytes == Replay(sessions).bytes
            && (f in s.files && s.files[f].minor == m ==>
                  sessions != [] && s.files[f].got == Outputs(sessions[|sessions| - 1], Opening(sessions)))
  {
    RunOk(minors, actions, states);
    SessionsAreRecorded(minors, actions, states, m);
    var s := states[|actions|];
    assert NodeOk(s, m);
    assert f in s.files ==> HandleOk(s.files[f], s.nodes);
  }

  // -- Reading back what an earlier session wrote --------------------------------------------

  lemma {:induction false} QuietSessionsKeepBytes(sessions: seq<seq<Op>>, quiet: seq<seq<Op>>)
    requires forall i :: 0 <= i < |quiet| ==> AllReads(quiet[i])
    ensures Replay(sessions + quiet).bytes == Replay(sessions).bytes
  {
    if quiet == [] {
      assert sessions + quiet == sessions;
    } else {
      var all := sessions + quiet;
      assert all[..|all| - 1] == sessions + quiet[..|quiet| - 1];
      QuietSessionsKeepBytes(sessions, quiet[..|quiet| - 1]);
      ReadsMove(quiet[|quiet| - 1], Opening(all));
    }
  }

  /** Bytes written in chunks in one session are what a later session of the same minor reads, cut
      to the device size and followed by what was there before, if the sessions in between only read.
      The sessions are those read off the actions of the run. */
  // Dafny need not look for an induction here: the lemmas called have made it.
  lemma {:induction false} NextSessionReadsBack(minors: nat, actions: seq<Action>, states: seq<State>, m: nat, f: nat,
                             before: seq<seq<Op>>, stores: seq<Op>, quiet: seq<seq<Op>>, loads: seq<Op>)
    requires Run(minors, actions, states) && m < minors
    requires f in states[|actions|].files && states[|actions|].files[f].minor == m
    requires SessionsOf(m, actions, states) == before + [stores] + quiet + [loads]
    requires AllWrites(stores) && AllReads(loads) && forall i :: 0 <= i < |quiet| ==> AllReads(quiet[i])
    ensures ComesBack(Data(stores), Replay(before).bytes, Requested(loads), states[|actions|].files[f].got)
  {
    var all := before + [stores] + quiet + [loads];
    SessionsAreSerial(minors, actions, states, m, f);
    assert all[..|all| - 1] == (before + [stores]) + quiet;
    QuietSessionsKeepBytes(before + [stores], quiet);
    assert (before + [stores])[..|before|] == before;
    WrittenComesBack(stores, loads, Replay(before).bytes);
  }
}
