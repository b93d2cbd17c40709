/** The name list of labs/lab10/api_assignment/kernel-api/list.c on real list entries. */
module NameList {
  import opened KernelList
  import opened EntryPool

  const NAME_MAX_SIZE := 128

  // -- What the four commands mean for the sequence of names ---------------------------------

  function RemoveFirst(names: seq<string>, name: string): seq<string> {
    if names == [] then []
    else if names[0] == name then names[1..]
    else [names[0]] + RemoveFirst(names[1..], name)
  }

  function RemoveAll(names: seq<string>, name: string): seq<string> {
    if names == [] then []
    else RemoveAll(names[..|names| - 1], name)
         + (if names[|names| - 1] == name then [] else [names[|names| - 1]])
  }

  function Concat(names: seq<string>): string {
    if names == [] then "" else Concat(names[..|names| - 1]) + names[|names| - 1]
  }

  /** The text of two lists is the text of the first followed by that of the second, and that of one
      name is the name. */
  lemma ConcatJoins(a: seq<string>, b: seq<string>, name: string)
    ensures Concat(a + b) == Concat(a) + Concat(b)
    ensures Concat([name]) == name
  {
    ConcatOfBoth(a, b);
    assert Concat([name]) == Concat([]) + name;
  }

  lemma {:induction false} ConcatOfBoth(a: seq<string>, b: seq<string>)
    ensures Concat(a + b) == Concat(a) + Concat(b)
  {
    if b == [] {
      assert a + b == a;
      assert Concat(a) + "" == Concat(a);
    } else {
      var rest, last := b[..|b| - 1], b[|b| - 1];
      assert (a + b)[..|a + b| - 1] == a + rest;
      ConcatOfBoth(a, rest);
      Regroup(Concat(a), Concat(rest), last);
    }
  }

  lemma Regroup(a: string, b: string, c: string)
    ensures (a + b) + c == a + (b + c)
  {
  }

  ghost predicate IsFirst(names: seq<string>, name: string, k: int) {
    0 <= k < |names| && names[k] == name && name !in names[..k]
  }

  lemma {:induction false} RemoveFirstAt(names: seq<string>, name: string, k: nat)
    requires IsFirst(names, name, k)
    ensures RemoveFirst(names, name) == names[..k] + names[k + 1..]
  {
    if k > 0 {
      assert names[1..][..k - 1] == names[..k][1..];
      RemoveFirstAt(names[1..], name, k - 1);
    }
  }

  lemma {:induction false} RemoveFirstAbsent(names: seq<string>, name: string)
    requires name !in names
    ensures RemoveFirst(names, name) == names
  {
    if names != [] {
      RemoveFirstAbsent(names[1..], name);
    }
  }

  /** If the name occurs, exactly its first occurrence goes; otherwise nothing does. */
  lemma RemoveFirstTakesFirst(names: seq<string>, name: string)
    ensures name !in names ==> RemoveFirst(names, name) == names
    ensures name in names ==>
              exists k :: IsFirst(names, name, k) && RemoveFirst(names, name) == names[..k] + names[k + 1..]
  {
    if name !in names {
      RemoveFirstAbsent(names, name);
    } else {
      var k := FindFirst(names, name);
      RemoveFirstAt(names, name, k);
    }
  }

  lemma {:induction false} FindFirst(names: seq<string>, name: string) returns (k: nat)
    requires name in names
    ensures IsFirst(names, name, k)
  {
    if names[0] == name {
      k := 0;
    } else {
      k := FindFirst(names[1..], name);
      k := k + 1;
      assert names[..k] == [names[0]] + names[1..][..k - 1];
    }
  }

  /** Every occurrence of the name goes, every other name stays as often as it was. */
  lemma {:induction false} RemoveAllKeepsOthers(names: seq<string>, name: string, other: string)
    ensures multiset(RemoveAll(names, name))[other] == if other == name then 0 else multiset(names)[other]
  {
    if names != [] {
      RemoveAllKeepsOthers(names[..|names| - 1], name, other);
      assert names == names[..|names| - 1] + [names[|names| - 1]];
    }
  }

  /** The survivors keep their order: removing all is removing from the two parts of any split. */
  lemma {:induction false} RemoveAllSplits(a: seq<string>, b: seq<string>, name: string)
    ensures RemoveAll(a + b, name) == RemoveAll(a, name) + RemoveAll(b, name)
  {
    if b == [] {
      assert a + b == a;
    } else {
      assert (a + b)[..|a + b| - 1] == a + b[..|b| - 1];
      RemoveAllSplits(a, b[..|b| - 1], name);
    }
  }

  /** `now` is what is at the positions `kept` of `was`, in order: all but those of the name. */
  ghost predicate KeepsOthers(was: seq<string>, now: seq<string>, name: string, kept: seq<nat>) {
    && |kept| == |now|
    && (forall j :: 0 <= j < |kept| ==> kept[j] < |was| && now[j] == was[kept[j]])
    && (forall i, j :: 0 <= i < j < |kept| ==> kept[i] < kept[j])
    && (forall i: nat :: i < |was| ==> (i in kept <==> was[i] != name))
  }

  lemma {:induction false} RemoveAllKeeps(names: seq<string>, name: string) returns (kept: seq<nat>)
    ensures KeepsOthers(names, RemoveAll(names, name), name, kept)
  {
    kept := [];
    if names != [] {
      var n := |names| - 1;
      var before := RemoveAllKeeps(names[..n], name);
      if names[n] == name {
        KeepsWithout(names[..n], RemoveAll(names[..n], name), name, before);
        kept := before;
      } else {
        KeepsWith(names[..n], RemoveAll(names[..n], name), name, before, names[n]);
        kept := before + [n];
      }
      assert names == names[..n] + [names[n]];
    }
  }

  lemma KeepsWithout(was: seq<string>, now: seq<string>, name: string, kept: seq<nat>)
    requires KeepsOthers(was, now, name, kept)
    ensures KeepsOthers(was + [name], now + [], name, kept)
  {
    assert now + [] == now;
  }

  lemma KeepsWith(was: seq<string>, now: seq<string>, name: string, kept: seq<nat>, x: string)
    requires KeepsOthers(was, now, name, kept) && x != name
    ensures KeepsOthers(was + [x], now + [x], name, kept + [|was|])
  {
    var more := kept + [|was|];
    forall i: nat | i < |was + [x]| ensures i in more <==> (was + [x])[i] != name {
      if i < |was| {
        assert i in kept <==> was[i] != name;
      } else {
        assert more[|kept|] == i;
      }
    }
  }

  /** The first name still to come is dropped or kept. */
  lemma RemoveAllHead(now: seq<string>, kept: seq<string>, rest: seq<string>, name: string)
    returns (kept': seq<string>, rest': seq<string>)
    requires rest != [] && now == kept + rest
    ensures now[|kept|] == rest[0]
    ensures rest[0] == name ==> |kept'| == |kept| && now[..|kept|] + now[|kept| + 1..] == kept' + rest'
    ensures rest[0] != name ==> |kept'| == |kept| + 1 && now == kept' + rest'
    ensures kept' + RemoveAll(rest', name) == kept + RemoveAll(rest, name)
  {
    assert rest == [rest[0]] + rest[1..];
    RemoveAllSplits([rest[0]], rest[1..], name);
    assert RemoveAll([rest[0]], name) == if rest[0] == name then [] else [rest[0]];
    kept', rest' := if rest[0] == name then kept else kept + [rest[0]], rest[1..];
  }

  // -- The functions of the module, on its global list ---------------------------------------

  /** `add_to_list` */
  method Add(names: Pool<string>, name: string, mode: char) returns (ret: int)
    requires names.Valid()
    modifies names`entries, names.list, names.list.head, names.entries
    ensures names.Valid() && fresh(names.entries - old(names.entries)) && old(names.entries) <= names.entries
    ensures names.released == old(names.released)
    ensures ret == if mode in {'f', 'e'} && |name| < NAME_MAX_SIZE then 0 else -1
    ensures names.Contents() == if ret != 0 then old(names.Contents())
                          else if mode == 'f' then [name] + old(names.Contents())
                          else old(names.Contents()) + [name]
  {
    if mode != 'f' && mode != 'e' {
      return -1;
    }
    if |name| >= NAME_MAX_SIZE {
      return -1;
    }
    names.Insert(name, mode == 'f');
    return 0;
  }

  /** `list_del` and `kfree` of the first entry with the name. */
  method TakeOut(names: Pool<string>, current: Node<string>, name: string, ghost i: nat)
    requires names.Valid() && i < |names.list.nodes| && current == names.list.nodes[i]
    requires IsFirst(names.Contents(), name, i)
    modifies names`released, names.list, names.list.head, names.entries
    ensures names.Valid() && names.entries == old(names.entries)
    ensures names.Contents() == RemoveFirst(old(names.Contents()), name)
  {
    RemoveFirstAt(names.Contents(), name, i);
    names.Discard(current, i);
  }

  /** `delete_first_from_list`: stops at the first equal name. */
  method DeleteFirst(names: Pool<string>, name: string) returns (ret: int)
    requires names.Valid()
    modifies names`released, names.list, names.list.head, names.entries
    ensures names.Valid() && names.entries == old(names.entries)
    ensures ret == if name in old(names.Contents()) then 0 else -1
    ensures names.Contents() == RemoveFirst(old(names.Contents()), name)
  {
    names.list.Following(0);
    var current := names.list.head.Next();
    var next := current.Next();
    ghost var i, was := 0, names.Contents();
    while current != names.list.head
      invariant names.Valid() && names.entries == old(names.entries)
      invariant names.list.nodes == old(names.list.nodes) && names.Contents() == was
      invariant i <= |names.list.nodes| && current == At(names.list.head, names.list.nodes, i + 1)
      invariant !current.freed && next == current.next
      invariant name !in was[..i]
      decreases |names.list.nodes| - i
    {
      if current.Value() == name {
        TakeOut(names, current, name, i);
        return 0;
      }
      names.list.Following(i + 1);
      current := next;
      next := next.Next();
      assert was[..i + 1] == was[..i] + [was[i]];
      i := i + 1;
    }
    assert was[..i] == was;
    RemoveFirstAbsent(was, name);
    return -1;
  }

  /** The body of the loop below; `j` becomes the number of names kept so far. */
  method DiscardIfNamed(names: Pool<string>, current: Node<string>, next: Node<string>, name: string, ghost j: nat)
    returns (ghost kept: nat)
    requires names.Valid() && j < |names.list.nodes| && current == names.list.nodes[j] && next == current.next
    modifies names`released, names.list, names.list.head, names.entries
    ensures names.Valid() && names.entries == old(names.entries)
    ensures kept <= |names.list.nodes| && next == At(names.list.head, names.list.nodes, kept + 1) && !next.freed
    ensures |names.list.nodes| - kept == old(|names.list.nodes|) - j - 1
    ensures if old(names.Contents())[j] == name
            then kept == j && names.Contents() == old(names.Contents())[..j] + old(names.Contents())[j + 1..]
            else kept == j + 1 && names.Contents() == old(names.Contents())
  {
    kept := j;
    if current.Value() == name {
      names.Discard(current, j);
    } else {
      names.list.Following(j + 1);
      kept := j + 1;
    }
    names.list.Following(kept);
  }

  /** `delete_all_from_list`: frees the current entry while walking on with the saved next one. */
  method DeleteAll(names: Pool<string>, name: string)
    requires names.Valid()
    modifies names`released, names.list, names.list.head, names.entries
    ensures names.Valid() && names.entries == old(names.entries)
    ensures names.Contents() == RemoveAll(old(names.Contents()), name)
  {
    names.list.Following(0);
    var current := names.list.head.Next();
    var next := current.Next();
    ghost var was := names.Contents();
    ghost var rest, kept := was, [];
    while current != names.list.head
      invariant names.Valid() && names.entries == old(names.entries)
      invariant |kept| <= |names.list.nodes| && current == At(names.list.head, names.list.nodes, |kept| + 1)
      invariant !current.freed && next == current.next
      invariant names.Contents() == kept + rest && kept + RemoveAll(rest, name) == RemoveAll(was, name)
      decreases |names.list.nodes| - |kept|
    {
      ghost var kept', rest' := RemoveAllHead(names.Contents(), kept, rest, name);
      ghost var j := DiscardIfNamed(names, current, next, name, |kept|);
      kept, rest := kept', rest';
      current := next;
      next := next.Next();
    }
  }

  /** `destroy_list`: the same walk, freeing every entry. */
  method Destroy(names: Pool<string>)
    requires names.Valid()
    modifies names`released, names.list, names.list.head, names.entries
    ensures names.Valid() && names.entries == old(names.entries)
    ensures names.Contents() == [] && names.released == names.entries
  {
    names.list.Following(0);
    var current := names.list.head.Next();
    var next := current.Next();
    ghost var was := names.list.nodes;
    ghost var i := 0;
    while current != names.list.head
      invariant names.Valid() && names.entries == old(names.entries)
      invariant i <= |was| && names.list.nodes == was[i..]
      invariant current == At(names.list.head, names.list.nodes, 1)
      invariant !current.freed && next == current.next
      decreases |was| - i
    {
      names.Discard(current, 0);
      names.list.Following(0);
      current := next;
      next := next.Next();
      i := i + 1;
    }
  }

  /** `list_proc_show` */
  method Show(names: Pool<string>) returns (text: string)
    requires names.Valid()
    ensures text == Concat(names.Contents())
  {
    text := "";
    names.list.Following(0);
    var entry := names.list.head.Next();
    ghost var i := 0;
    while entry != names.list.head
      invariant i <= |names.list.nodes| && entry == At(names.list.head, names.list.nodes, i + 1) && !entry.freed
      invariant text == Concat(names.Contents()[..i])
      decreases |names.list.nodes| - i
    {
      text := text + entry.Value();
      assert names.Contents()[..i + 1][..i] == names.Contents()[..i];
      names.list.Following(i + 1);
      entry := entry.Next();
      i := i + 1;
    }
    assert names.Contents()[..i] == names.Contents();
  }
}
