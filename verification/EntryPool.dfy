/** Entries on a list together with the allocator's account of them. */
module EntryPool {
  import opened Basics
  import opened KernelList

  /** `entries` holds every entry ever allocated, `released` those freed again. */
  class Pool<T> {
    const list: List<T>
    ghost var entries: set<Node<T>>
    ghost var released: set<Node<T>>

    /** Each allocated entry is linked or freed, never both. */
    ghost predicate Valid()
      reads this, list, list.head, list.nodes, released
    {
      && list.Valid()
      && entries == Members(list.nodes) + released
      && forall n :: n in released ==> n.freed
    }

    ghost function Contents(): seq<T>
      reads this, list, list.head, list.nodes, released
      requires Valid()
    {
      list.Contents()
    }

    constructor ()
      ensures Valid() && Contents() == [] && entries == {} && fresh(list) && fresh(list.head)
    {
      list := new List<T>();
      entries, released := {}, {};
    }

    /** `list_del` and `kfree` of one entry: it moves from the linked to the freed entries, and the
        entry that came after it takes its place. */
    method Discard(entry: Node<T>, ghost k: nat)
      requires Valid() && k < |list.nodes| && entry == list.nodes[k]
      modifies this`released, list, list.head, entries
      ensures Valid() && entries == old(entries)
      ensures list.nodes == old(list.nodes)[..k] + old(list.nodes)[k + 1..]
      ensures released == old(released) + {entry}
      ensures Contents() == old(Contents())[..k] + old(Contents())[k + 1..]
      ensures old(entry.next) == At(list.head, list.nodes, k + 1)
    {
      list.FollowingAfterDelete(k);
      DataAfterDelete(list.nodes, k);
      MembersAfterDelete(list.nodes, k);
      list.Delete(entry, k);
      assert forall n :: n in released ==> n.freed;
      entry.Free();
      released := released + {entry};
    }

    /** `kmalloc` of an entry and `list_add` or `list_add_tail` of it. */
    method Insert(data: T, first: bool)
      requires Valid()
      modifies this`entries, list, list.head, entries
      ensures Valid() && fresh(entries - old(entries)) && old(entries) <= entries
      ensures released == old(released)
      ensures Contents() == if first then [data] + old(Contents()) else old(Contents()) + [data]
    {
      var entry := new Node(Some(data));
      if first {
        list.AddFirst(entry);
      } else {
        list.AddLast(entry);
      }
      entries := entries + {entry};
    }
  }
}
