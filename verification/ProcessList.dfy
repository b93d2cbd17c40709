/** The list of monitored processes of labs/lab13/deferred/kernel/deferred.c on real list entries:
    adding a process, one pass of the monitor while tasks keep dying, and the drain at exit.
  */
module ProcessList {
  import opened Basics
  import opened KernelList
  import opened EntryPool

  type Task = nat

  // -- What one pass leaves ------------------------------------------------------------------

  /** The tasks dead when entry `i` is visited: those dead before the pass and those that died up
      to that visit. `deaths[i]` are the tasks that die just before it. */
  function DeadAt(dead: set<Task>, deaths: seq<set<Task>>, i: nat): set<Task>
    requires i < |deaths|
    decreases i
  {
    if i == 0 then dead + deaths[0] else DeadAt(dead + deaths[0], deaths[1..], i - 1)
  }

  /** That is what `DeadAt` says. */
  lemma {:induction false} DeadAtMeans(dead: set<Task>, deaths: seq<set<Task>>, i: nat, t: Task)
    requires i < |deaths|
    ensures t in DeadAt(dead, deaths, i) <==> t in dead || exists k :: 0 <= k <= i && t in deaths[k]
    decreases i
  {
    if i > 0 {
      DeadAtMeans(dead + deaths[0], deaths[1..], i - 1, t);
      if exists k :: 0 <= k <= i && t in deaths[k] {
        var k :| 0 <= k <= i && t in deaths[k];
        assert k > 0 ==> t in deaths[1..][k - 1];
      }
      if exists k :: 0 <= k <= i - 1 && t in deaths[1..][k] {
        var k :| 0 <= k <= i - 1 && t in deaths[1..][k];
        assert t in deaths[k + 1];
      }
    }
  }

  function Survivors(list: seq<Task>, dead: set<Task>, deaths: seq<set<Task>>): seq<Task>
    requires |deaths| == |list|
  {
    if list == [] then []
    else
      var now := dead + deaths[0];
      (if list[0] in now then [] else [list[0]]) + Survivors(list[1..], now, deaths[1..])
  }

  lemma {:induction false} DeadStaysDead(dead: set<Task>, deaths: seq<set<Task>>, i: nat)
    requires i < |deaths|
    ensures dead + deaths[i] <= DeadAt(dead, deaths, i)
    ensures i > 0 ==> DeadAt(dead, deaths, i) == DeadAt(dead, deaths, i - 1) + deaths[i]
    decreases i
  {
    if i > 0 {
      DeadStaysDead(dead + deaths[0], deaths[1..], i - 1);
    }
  }

  /** The positions of a list that has one entry in front. */
  function Shift(positions: seq<nat>): (r: seq<nat>)
    ensures |r| == |positions| && forall j :: 0 <= j < |r| ==> r[j] == positions[j] + 1
  {
    seq(|positions|, j requires 0 <= j < |positions| => positions[j] + 1)
  }

  lemma InShift(positions: seq<nat>, i: nat)
    requires i > 0
    ensures i in Shift(positions) <==> i - 1 in positions
  {
    if i - 1 in positions {
      var j :| 0 <= j < |positions| && positions[j] == i - 1;
      assert Shift(positions)[j] == i;
    }
  }

  /** Positions of the entries that were alive when visited. */
  function Kept(list: seq<Task>, dead: set<Task>, deaths: seq<set<Task>>): seq<nat>
    requires |deaths| == |list|
  {
    if list == [] then []
    else (if list[0] in dead + deaths[0] then [] else [0]) + Shift(Kept(list[1..], dead + deaths[0], deaths[1..]))
  }

  lemma {:induction false} KeptWereAlive(list: seq<Task>, dead: set<Task>, deaths: seq<set<Task>>, i: nat)
    requires |deaths| == |list| && i < |list|
    ensures i in Kept(list, dead, deaths) <==> list[i] !in DeadAt(dead, deaths, i)
  {
    var rest := Kept(list[1..], dead + deaths[0], deaths[1..]);
    if i == 0 {
      assert 0 !in Shift(rest);
    } else {
      InShift(rest, i);
      KeptWereAlive(list[1..], dead + deaths[0], deaths[1..], i - 1);
    }
  }

  /** The survivors are, in their old order, exactly the entries whose task was alive when visited. */
  lemma {:induction false} SurvivorsWereAlive(list: seq<Task>, dead: set<Task>, deaths: seq<set<Task>>)
    requires |deaths| == |list|
    ensures var kept, left := Kept(list, dead, deaths), Survivors(list, dead, deaths);
            && |kept| == |left|
            && (forall j :: 0 <= j < |kept| ==> kept[j] < |list| && left[j] == list[kept[j]])
            && (forall i, j :: 0 <= i < j < |kept| ==> kept[i] < kept[j])
  {
    if list != [] {
      SurvivorsWereAlive(list[1..], dead + deaths[0], deaths[1..]);
    }
  }

  /** A task dead when the pass began is gone from the list afterwards. */
  lemma {:induction false} DeadAreRemoved(list: seq<Task>, dead: set<Task>, deaths: seq<set<Task>>)
    requires |deaths| == |list|
    ensures forall t :: t in Survivors(list, dead, deaths) ==> t !in dead
  {
    if list != [] {
      DeadAreRemoved(list[1..], dead + deaths[0], deaths[1..]);
    }
  }

  // -- The list and the module's task references ---------------------------------------------

  class Monitored {
    const pool: Pool<Task>
    var refs: multiset<Task>
    var dead: set<Task>
    ghost var inFlight: multiset<Task>

    /** The references held are those of the listed entries and those of calls still in flight. */
    ghost predicate Valid()
      reads this, pool, pool.list, pool.list.head, pool.list.nodes, pool.released
    {
      pool.Valid() && refs == multiset(pool.Contents()) + inFlight
    }

    constructor ()
      ensures Valid() && pool.Contents() == [] && refs == multiset{} && fresh(pool) && fresh(pool.list)
      ensures pool.entries == {} && fresh(pool.list.head)
    {
      pool := new Pool<Task>();
      refs, inFlight := multiset{}, multiset{};
      dead := {};
    }

    /** `get_proc` on what the lookup of the pid gives, if there is memory: a reference is taken for an
        entry that is not yet in the list. On an error nothing is taken. */
    method GetProc(found: Option<Task>, memory: bool) returns (ret: int)
      requires Valid()
      modifies this`refs, this`inFlight
      ensures Valid()
      ensures ret == if found.None? then -ESRCH else if !memory then -ENOMEM else 0
      ensures ret == 0 ==> inFlight == old(inFlight) + multiset{found.value}
      ensures ret == 0 ==> refs == old(refs) + multiset{found.value}
      ensures ret != 0 ==> inFlight == old(inFlight) && refs == old(refs)
    {
      if found.None? {
        return -ESRCH;
      }
      if !memory {
        return -ENOMEM;
      }
      refs := refs + multiset{found.value};
      inFlight := inFlight + multiset{found.value};
      return 0;
    }

    /** `list_add` under the lock, at any later time: the new entry is first in the list. */
    method Link(task: Task)
      requires Valid() && task in inFlight
      modifies this`inFlight, pool`entries, pool.list, pool.list.head, pool.entries
      ensures Valid() && fresh(pool.entries - old(pool.entries)) && old(pool.entries) <= pool.entries
      ensures inFlight == old(inFlight) - multiset{task} && pool.released == old(pool.released)
      ensures pool.Contents() == [task] + old(pool.Contents())
    {
      inFlight := inFlight - multiset{task};
      pool.Insert(task, true);
    }

    /** `put_task_struct`, `list_del` and `kfree` of one entry. */
    method PutAndDiscard(entry: Node<Task>, ghost k: nat)
      requires Valid() && k < |pool.list.nodes| && entry == pool.list.nodes[k]
      modifies this`refs, pool`released, pool.list, pool.list.head, pool.entries
      ensures Valid() && pool.entries == old(pool.entries)
      ensures pool.Contents() == old(pool.Contents())[..k] + old(pool.Contents())[k + 1..]
      ensures |pool.list.nodes| == old(|pool.list.nodes|) - 1
      ensures old(entry.next) == At(pool.list.head, pool.list.nodes, k + 1)
    {
      ghost var was := pool.Contents();
      assert was == was[..k] + [was[k]] + was[k + 1..];
      refs := refs - multiset{entry.Value()};
      pool.Discard(entry, k);
    }

    /** The body of the monitor's loop, for an entry whose task may have died before the test. */
    method Check(current: Node<Task>, next: Node<Task>, dying: set<Task>, ghost k: nat) returns (ghost kept: nat)
      requires Valid() && k < |pool.list.nodes| && current == pool.list.nodes[k] && next == current.next
      modifies this`refs, this`dead, pool`released, pool.list, pool.list.head, pool.entries
      ensures Valid() && pool.entries == old(pool.entries) && dead == old(dead) + dying
      ensures kept <= |pool.list.nodes| && next == At(pool.list.head, pool.list.nodes, kept + 1) && !next.freed
      ensures |pool.list.nodes| - kept == old(|pool.list.nodes|) - k - 1
      ensures var was := old(pool.Contents());
              if was[k] in dead
              then kept == k && pool.Contents() == was[..k] + was[k + 1..]
              else kept == k + 1 && pool.Contents() == was
    {
      dead := dead + dying;
      kept := k;
      if current.Value() in dead {
        PutAndDiscard(current, k);
      } else {
        pool.list.Following(k + 1);
        kept := k + 1;
      }
      pool.list.Following(kept);
    }

    /** `monitor_work_handler`: walks the list under the lock while `deaths[i]` die just before entry
        `i` is tested. What is left is the survivors; as `inFlight` does not change, `Valid` says
        that exactly the removed entries' references are returned. */
    method MonitorPass(deaths: seq<set<Task>>)
      requires Valid() && |deaths| == |pool.Contents()|
      modifies this`refs, this`dead, pool`released, pool.list, pool.list.head, pool.entries
      ensures Valid() && pool.entries == old(pool.entries)
      ensures pool.Contents() == Survivors(old(pool.Contents()), old(dead), deaths)
    {
      pool.list.Following(0);
      var current := pool.list.head.Next();
      var next := current.Next();
      var i := 0;
      ghost var was := pool.Contents();
      ghost var kept, rest, left := [], was, deaths;
      while current != pool.list.head
        invariant Valid() && pool.entries == old(pool.entries)
        invariant |kept| <= |pool.list.nodes| && current == At(pool.list.head, pool.list.nodes, |kept| + 1)
        invariant !current.freed && next == current.next
        invariant 0 <= i <= |deaths| && left == deaths[i..]
        invariant Passing(pool.Contents(), kept, rest, dead, left, Survivors(was, old(dead), deaths))
        decreases |pool.list.nodes| - |kept|
      {
        ghost var kept' := SurvivorsHead(pool.Contents(), kept, rest, dead, left, Survivors(was, old(dead), deaths));
        ghost var k := Check(current, next, deaths[i], |kept|);
        kept, rest, left := kept', rest[1..], left[1..];
        current := next;
        next := next.Next();
        i := i + 1;
      }
    }

    /** The drain in `deferred_exit`: every entry is put, unlinked and freed, dead or alive. */
    method Drain()
      requires Valid()
      modifies this`refs, pool`released, pool.list, pool.list.head, pool.entries
      ensures Valid() && pool.entries == old(pool.entries)
      ensures pool.Contents() == [] && pool.released == pool.entries && refs == inFlight
    {
      pool.list.Following(0);
      var current := pool.list.head.Next();
      var next := current.Next();
      while current != pool.list.head
        invariant Valid() && pool.entries == old(pool.entries)
        invariant current == At(pool.list.head, pool.list.nodes, 1)
        invariant !current.freed && next == current.next
        decreases |pool.list.nodes|
      {
        PutAndDiscard(current, 0);
        pool.list.Following(0);
        current := next;
        next := next.Next();
      }
    }
  }

  /** Midway: `now` is what has been kept and what is to come, and will end as `goal`. */
  ghost predicate Passing(now: seq<Task>, kept: seq<Task>, rest: seq<Task>, dead: set<Task>,
                          left: seq<set<Task>>, goal: seq<Task>) {
    now == kept + rest && |left| == |rest| && kept + Survivors(rest, dead, left) == goal
  }

  /** The first entry still to come is dropped or kept. */
  lemma SurvivorsHead(now: seq<Task>, kept: seq<Task>, rest: seq<Task>, dead: set<Task>, left: seq<set<Task>>,
                      goal: seq<Task>)
    returns (kept': seq<Task>)
    requires rest != [] && Passing(now, kept, rest, dead, left, goal)
    ensures now[|kept|] == rest[0]
    ensures if rest[0] in dead + left[0]
            then |kept'| == |kept|
                 && Passing(now[..|kept|] + now[|kept| + 1..], kept', rest[1..], dead + left[0], left[1..], goal)
            else |kept'| == |kept| + 1
                 && Passing(now, kept', rest[1..], dead + left[0], left[1..], goal)
  {
    kept' := if rest[0] in dead + left[0] then kept else kept + [rest[0]];
    assert now[..|kept|] + now[|kept| + 1..] == kept + rest[1..];
    assert now == (kept + [rest[0]]) + rest[1..];
    var more := Survivors(rest[1..], dead + left[0], left[1..]);
    assert kept + ([rest[0]] + more) == (kept + [rest[0]]) + more;
    assert kept + ([] + more) == kept + more;
  }
}
