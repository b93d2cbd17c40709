/** The circular doubly linked list of linux/list.h: a sentinel, entries linked both ways, splices
    by pointer writes, and `list_del` that poisons the entry it takes out.
  */
module KernelList {
  import opened Basics

  /** A list head, alone (the sentinel) or embedded in an entry that carries `data`. A poisoned
      pointer is null here; `freed` is set when the entry is given back to the allocator. */
  class Node<T> {
    const data: Option<T>
    var next: Node?<T>
    var prev: Node?<T>
    var freed: bool
    ghost var at: nat

    constructor (data: Option<T>)
      ensures this.data == data && next == this && prev == this && !freed
    {
      this.data := data;
      next, prev, freed, at := this, this, false, 0;
    }

    /** `kfree`: a second one would not meet the precondition. */
    method Free()
      requires !freed
      modifies this`freed
      ensures freed
    {
      freed := true;
    }

    // All code reads and writes an entry through these, so none of it touches a freed one.

    function Next(): Node?<T>
      reads this
      requires !freed
    {
      next
    }

    function Prev(): Node?<T>
      reads this
      requires !freed
    {
      prev
    }

    function Value(): T
      reads this
      requires !freed && data.Some?
    {
      data.value
    }

    method SetNext(node: Node?<T>)
      requires !freed
      modifies this`next
      ensures next == node
    {
      next := node;
    }

    method SetPrev(node: Node?<T>)
      requires !freed
      modifies this`prev
      ensures prev == node
    {
      prev := node;
    }
  }

  /** `nodes[k]` in the ring: the sentinel is at both ends. */
  ghost function At<T>(head: Node<T>, nodes: seq<Node<T>>, k: int): Node<T>
    requires 0 <= k <= |nodes| + 1
  {
    if k == 0 || k == |nodes| + 1 then head else nodes[k - 1]
  }

  /** What the entries carry, in order. */
  ghost function DataOf<T>(nodes: seq<Node<T>>): (data: seq<T>)
    requires forall i :: 0 <= i < |nodes| ==> nodes[i].data.Some?
    ensures |data| == |nodes|
    ensures forall i :: 0 <= i < |nodes| ==> data[i] == nodes[i].data.value
  {
    seq(|nodes|, i requires 0 <= i < |nodes| => nodes[i].data.value)
  }

  ghost function Members<T>(nodes: seq<Node<T>>): set<Node<T>> {
    set n | n in nodes
  }

  lemma RingAfterInsert<T>(head: Node<T>, was: seq<Node<T>>, k: nat, entry: Node<T>)
    requires k <= |was|
    ensures var now := was[..k] + [entry] + was[k..];
            && |now| == |was| + 1
            && (forall j :: 0 <= j <= k ==> At(head, now, j) == At(head, was, j))
            && At(head, now, k + 1) == entry
            && (forall j :: k + 1 < j <= |now| + 1 ==> At(head, now, j) == At(head, was, j - 1))
  {
  }

  lemma RingAfterDelete<T>(head: Node<T>, was: seq<Node<T>>, k: nat)
    requires k < |was|
    ensures var now := was[..k] + was[k + 1..];
            && |now| == |was| - 1
            && (forall j :: 0 <= j <= k ==> At(head, now, j) == At(head, was, j))
            && (forall j :: k < j <= |now| + 1 ==> At(head, now, j) == At(head, was, j + 1))
  {
  }

  lemma MembersAfterInsert<T>(was: seq<Node<T>>, k: nat, entry: Node<T>)
    requires k <= |was|
    ensures Members(was[..k] + [entry] + was[k..]) == Members(was) + {entry}
  {
  }

  lemma MembersAfterDelete<T>(was: seq<Node<T>>, k: nat)
    requires k < |was|
    ensures Members(was) == Members(was[..k] + was[k + 1..]) + {was[k]}
  {
  }

  /** `next` and `prev` are inverse all round the ring. */
  ghost predicate Linked<T>(head: Node<T>, nodes: seq<Node<T>>)
    reads head, nodes
  {
    && (forall k {:trigger At(head, nodes, k).next} :: 0 <= k <= |nodes| ==>
          At(head, nodes, k).next == At(head, nodes, k + 1))
    && (forall k {:trigger At(head, nodes, k).prev} :: 1 <= k <= |nodes| + 1 ==>
          At(head, nodes, k).prev == At(head, nodes, k - 1))
  }

  /** The entries are live, different from the sentinel and, each knowing its position, from each other. */
  ghost predicate Numbered<T>(head: Node<T>, nodes: seq<Node<T>>)
    reads head, nodes
  {
    && (forall i :: 0 <= i < |nodes| ==> nodes[i].at == i && nodes[i] != head && !nodes[i].freed && nodes[i].data.Some?)
    && !head.freed
  }

  lemma DataAfterDelete<T>(was: seq<Node<T>>, k: nat)
    requires k < |was| && forall i :: 0 <= i < |was| ==> was[i].data.Some?
    ensures DataOf(was[..k] + was[k + 1..]) == DataOf(was)[..k] + DataOf(was)[k + 1..]
  {
  }

  class List<T> {
    const head: Node<T>
    ghost var nodes: seq<Node<T>>

    ghost predicate Valid()
      reads this, head, nodes
    {
      Linked(head, nodes) && Numbered(head, nodes)
    }

    ghost function Contents(): seq<T>
      reads this, head, nodes
      requires Valid()
    {
      DataOf(nodes)
    }

    /** Stepping from ring position `k` lands on the next one, which is still allocated. */
    lemma Following(k: nat)
      requires Valid() && k <= |nodes|
      ensures At(head, nodes, k).next == At(head, nodes, k + 1) && !At(head, nodes, k + 1).freed
      ensures At(head, nodes, 0) == head && !head.freed && (At(head, nodes, k + 1) == head <==> k == |nodes|)
    {
    }

    /** What comes after position `k` will take its place once it is gone. */
    lemma FollowingAfterDelete(k: nat)
      requires Valid() && k < |nodes|
      ensures nodes[k].next == At(head, nodes[..k] + nodes[k + 1..], k + 1)
    {
      RingAfterDelete(head, nodes, k);
      assert At(head, nodes, k + 1).next == At(head, nodes, k + 2);
    }

    constructor ()
      ensures Valid() && nodes == [] && fresh(head)
    {
      head := new Node(None);
      nodes := [];
    }

    /** The ghost positions, brought in line with `nodes`. */
    ghost method Renumber()
      modifies nodes`at
      requires forall i, j :: 0 <= i < j < |nodes| ==> nodes[i] != nodes[j]
      ensures forall i :: 0 <= i < |nodes| ==> nodes[i].at == i
    {
      var i := 0;
      while i < |nodes|
        invariant 0 <= i <= |nodes|
        invariant forall j :: 0 <= j < i ==> nodes[j].at == j
      {
        nodes[i].at := i;
        i := i + 1;
      }
    }

    /** `__list_add`: the four pointer writes that put `entry` between two neighbours. */
    method AddBetween(entry: Node<T>, prev: Node<T>, next: Node<T>, ghost k: nat)
      requires Valid() && k <= |nodes|
      requires prev == At(head, nodes, k) && next == At(head, nodes, k + 1)
      requires entry != head && entry !in nodes && !entry.freed && entry.data.Some?
      modifies this`nodes, nodes`at, entry`at, entry`next, entry`prev, prev`next, next`prev
      ensures Valid() && nodes == old(nodes)[..k] + [entry] + old(nodes)[k..]
    {
      Splice(entry, prev, next, k);
      Renumber();
    }

    method Splice(entry: Node<T>, prev: Node<T>, next: Node<T>, ghost k: nat)
      requires Valid() && k <= |nodes|
      requires prev == At(head, nodes, k) && next == At(head, nodes, k + 1)
      requires entry != head && entry !in nodes && !entry.freed
      modifies this`nodes, entry`next, entry`prev, prev`next, next`prev
      ensures Linked(head, nodes) && nodes == old(nodes)[..k] + [entry] + old(nodes)[k..]
    {
      next.SetPrev(entry);
      entry.SetNext(next);
      entry.SetPrev(prev);
      prev.SetNext(entry);
      ghost var was := nodes;
      nodes := nodes[..k] + [entry] + nodes[k..];
      RingAfterInsert(head, was, k, entry);
      forall j | 0 <= j <= |nodes| ensures At(head, nodes, j).next == At(head, nodes, j + 1) {
        if j != k + 1 {
          var i := if j <= k then j else j - 1;
          assert old(At(head, was, i).next) == At(head, was, i + 1);
        }
      }
      forall j | 1 <= j <= |nodes| + 1 ensures At(head, nodes, j).prev == At(head, nodes, j - 1) {
        if j != k + 1 {
          var i := if j <= k then j else j - 1;
          assert old(At(head, was, i).prev) == At(head, was, i - 1);
        }
      }
    }

    /** `list_add` */
    method AddFirst(entry: Node<T>)
      requires Valid()
      requires entry != head && entry !in nodes && !entry.freed && entry.data.Some?
      modifies this`nodes, entry`at, entry`next, entry`prev, head, nodes
      ensures Valid() && nodes == [entry] + old(nodes)
      ensures Contents() == [entry.data.value] + old(Contents())
      ensures Members(nodes) == Members(old(nodes)) + {entry}
    {
      MembersAfterInsert(nodes, 0, entry);
      Following(0);
      AddBetween(entry, head, head.Next(), 0);
    }

    /** `list_add_tail` */
    method AddLast(entry: Node<T>)
      requires Valid()
      requires entry != head && entry !in nodes && !entry.freed && entry.data.Some?
      modifies this`nodes, entry`at, entry`next, entry`prev, head, nodes
      ensures Valid() && nodes == old(nodes) + [entry]
      ensures Contents() == old(Contents()) + [entry.data.value]
      ensures Members(nodes) == Members(old(nodes)) + {entry}
    {
      MembersAfterInsert(nodes, |nodes|, entry);
      assert At(head, nodes, |nodes| + 1).prev == At(head, nodes, |nodes|);
      AddBetween(entry, head.Prev(), head, |nodes|);
    }

    /** `list_del` */
    method Delete(entry: Node<T>, ghost k: nat)
      requires Valid() && k < |nodes| && entry == nodes[k]
      modifies this`nodes, head, nodes
      ensures Valid() && nodes == old(nodes)[..k] + old(nodes)[k + 1..]
      ensures entry.next == null && entry.prev == null && !entry.freed && entry !in nodes
      ensures forall n :: n in old(nodes) ==> n.freed == old(n.freed)
    {
      Unlink(entry, k);
      Renumber();
    }

    method Unlink(entry: Node<T>, ghost k: nat)
      requires Valid() && k < |nodes| && entry == nodes[k]
      modifies this`nodes, head`next, head`prev, nodes`next, nodes`prev
      ensures Linked(head, nodes) && nodes == old(nodes)[..k] + old(nodes)[k + 1..]
      ensures entry.next == null && entry.prev == null
    {
      assert At(head, nodes, k + 1) == entry;
      assert At(head, nodes, k + 1).next == At(head, nodes, k + 2);
      assert At(head, nodes, k + 1).prev == At(head, nodes, k);
      var next, prev := entry.Next(), entry.Prev();
      next.SetPrev(prev);
      prev.SetNext(next);
      entry.SetNext(null);
      entry.SetPrev(null);
      ghost var was := nodes;
      nodes := nodes[..k] + nodes[k + 1..];
      RingAfterDelete(head, was, k);
      forall j | 0 <= j <= |nodes| ensures At(head, nodes, j).next == At(head, nodes, j + 1) {
        if j != k {
          var i := if j < k then j else j + 1;
          assert old(At(head, was, i).next) == At(head, was, i + 1);
        }
      }
      forall j | 1 <= j <= |nodes| + 1 ensures At(head, nodes, j).prev == At(head, nodes, j - 1) {
        if j != k + 1 {
          var i := if j <= k then j else j + 1;
          assert old(At(head, was, i).prev) == At(head, was, i - 1);
        }
      }
    }
  }
}
