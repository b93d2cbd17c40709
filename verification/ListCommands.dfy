/** The command file of labs/lab10/api_assignment/kernel-api/list.c: what `list_write` accepts, its
    bounded copies and wrapping size, and the dispatch to the list.
  */
module ListCommands {
  import opened Basics
  import opened EntryPool
  import opened NameList

  const PROCFS_MAX_SIZE := 1024

  datatype Instruction = AddF | AddE | DelF | DelA

  function Text(inst: Instruction): string {
    match inst
    case AddF => "addf"
    case AddE => "adde"
    case DelF => "delf"
    case DelA => "dela"
  }

  datatype Parsed = Fault | Invalid | Accepted(inst: Instruction, name: string)

  /** A C string: everything before the first NUL. */
  function CString(s: seq<char>): (r: string)
    ensures |r| <= |s|
  {
    if s == [] || s[0] == '\0' then [] else [s[0]] + CString(s[1..])
  }

  predicate NulFree(s: string) {
    forall k :: 0 <= k < |s| ==> s[k] != '\0'
  }

  /** What an instruction's text and a name are taken to mean. */
  function Recognise(inst: string, name: string): Parsed {
    if inst == Text(AddF) then Accepted(AddF, name)
    else if inst == Text(AddE) then Accepted(AddE, name)
    else if inst == Text(DelF) then Accepted(DelF, name)
    else if inst == Text(DelA) then Accepted(DelA, name)
    else Invalid
  }

  /** The commands the module accepts. `user` is the readable memory behind the pointer, which may
      be shorter than `count`; the copy then fails. */
  function Parse(user: seq<char>, count: nat): Parsed {
    var size := Min(count, PROCFS_MAX_SIZE);
    if |user| < size then Fault
    else if size < 5 || size > 132 then Invalid
    else Recognise(user[..4], CString(user[5..size]))
  }

  function Format(inst: Instruction, name: string): seq<char> {
    Text(inst) + " " + name
  }

  // -- C strings -----------------------------------------------------------------------------

  lemma {:induction false} CStringIsPrefix(s: seq<char>)
    ensures CString(s) <= s && NulFree(CString(s))
    ensures |CString(s)| < |s| ==> s[|CString(s)|] == '\0'
  {
    if s != [] && s[0] != '\0' {
      CStringIsPrefix(s[1..]);
    }
  }

  lemma {:induction false} CStringOfNulFree(s: string)
    requires NulFree(s)
    ensures CString(s) == s
  {
    if s != [] {
      CStringOfNulFree(s[1..]);
    }
  }

  /** What follows the first NUL does not matter. */
  lemma {:induction false} CStringIgnoresTail(s: seq<char>, tail: seq<char>)
    requires tail != [] && tail[0] == '\0'
    ensures CString(s + tail) == CString(s)
  {
    if s == [] {
      assert s + tail == tail;
    } else if s[0] != '\0' {
      assert (s + tail)[1..] == s[1..] + tail;
      CStringIgnoresTail(s[1..], tail);
    }
  }

  // -- Parsing and formatting ----------------------------------------------------------------

  /** An accepted name is NUL-free and at most 127 long, so the length check of `add_to_list`
      never refuses it. */
  lemma AcceptedNameFits(user: seq<char>, count: nat)
    requires Parse(user, count).Accepted?
    ensures |Parse(user, count).name| < NAME_MAX_SIZE && NulFree(Parse(user, count).name)
  {
    CStringIsPrefix(user[5..Min(count, PROCFS_MAX_SIZE)]);
  }

  /** The writes the module should accept: readable, 5 to 132 bytes after the cut at 1024, and an
      instruction in front. */
  ghost predicate Acceptable(user: seq<char>, count: nat) {
    && Min(count, PROCFS_MAX_SIZE) <= |user|
    && 5 <= Min(count, PROCFS_MAX_SIZE) <= 132
    && (user[..4] == "addf" || user[..4] == "adde" || user[..4] == "delf" || user[..4] == "dela")
  }

  lemma AcceptedExactly(user: seq<char>, count: nat)
    ensures Parse(user, count).Accepted? <==> Acceptable(user, count)
  {
  }

  /** A formatted command comes back as itself. */
  lemma RoundTrip(inst: Instruction, name: string)
    requires NulFree(name) && |name| < NAME_MAX_SIZE
    ensures Parse(Format(inst, name), |Format(inst, name)|) == Accepted(inst, name)
  {
    var f := Format(inst, name);
    assert |Text(inst)| == 4;
    assert f[..4] == Text(inst) && f[5..|f|] == name;
    assert f[0] == Text(inst)[0] && f[1] == Text(inst)[1] && f[2] == Text(inst)[2] && f[3] == Text(inst)[3];
    CStringOfNulFree(name);
  }

  /** Any accepted write means the same as the formatted form of what was parsed from it. */
  lemma FormatNormalises(user: seq<char>, count: nat)
    requires Parse(user, count).Accepted?
    ensures var p := Parse(user, count);
            Parse(Format(p.inst, p.name), |Format(p.inst, p.name)|) == p
  {
    AcceptedNameFits(user, count);
    RoundTrip(Parse(user, count).inst, Parse(user, count).name);
  }

  // -- list_write ----------------------------------------------------------------------------

  /** `strncpy`: up to and including the first NUL, then NULs up to `n`. */
  method StrNCpy(dst: array<char>, src: array<char>, from: nat, n: nat)
    requires n <= dst.Length && from + n <= src.Length && dst != src
    modifies dst
    ensures dst[n..] == old(dst[n..])
    ensures IsCopy(dst[..n], src[from..from + n])
  {
    var i := 0;
    ghost var all := src[from..from + n];
    CStringIsPrefix(all);
    while i < n && src[from + i] != '\0'
      invariant i <= |CString(all)|
      invariant forall j :: 0 <= j < i ==> dst[j] == all[j]
      invariant dst[n..] == old(dst[n..])
    {
      assert all[i] == src[from + i];
      dst[i] := src[from + i];
      i := i + 1;
    }
    ghost var k := i;
    assert k == |CString(all)|;
    while i < n
      invariant k <= i <= n
      invariant forall j :: 0 <= j < k ==> dst[j] == all[j]
      invariant forall j :: k <= j < i ==> dst[j] == '\0'
      invariant dst[n..] == old(dst[n..])
    {
      dst[i] := '\0';
      i := i + 1;
    }
    PaddedCopy(dst[..n], all);
  }

  lemma PaddedCopy(copy: seq<char>, s: seq<char>)
    requires |copy| == |s|
    requires forall j :: 0 <= j < |CString(s)| ==> copy[j] == s[j]
    requires forall j :: |CString(s)| <= j < |s| ==> copy[j] == '\0'
    ensures IsCopy(copy, s)
  {
    CStringIsPrefix(s);
  }

  /** `copy` holds the C string of `s` and is padded with NULs. */
  ghost predicate IsCopy(copy: seq<char>, s: seq<char>) {
    && |copy| == |s|
    && copy[..|CString(s)|] == CString(s)
    && forall j :: |CString(s)| <= j < |s| ==> copy[j] == '\0'
  }

  /** A copy closed by a NUL holds the same C string. */
  lemma ClosedCopy(buffer: seq<char>, s: seq<char>)
    requires |s| < |buffer| && buffer[|s|] == '\0' && IsCopy(buffer[..|s|], s)
    ensures CString(buffer) == CString(s)
  {
    var k := |CString(s)|;
    assert buffer[..k] == buffer[..|s|][..k] == CString(s);
    assert buffer[k] == '\0' by {
      if k < |s| { assert buffer[k] == buffer[..|s|][k]; }
    }
    CStringIsPrefix(s);
    CStringIgnoresTail(CString(s), buffer[k..]);
    CStringOfNulFree(CString(s));
    assert buffer == CString(s) + buffer[k..];
  }

  /** A local buffer of `capacity` bytes: `strncpy` of `n` bytes, then the closing NUL. */
  method CopyString(capacity: nat, src: array<char>, from: nat, n: nat) returns (dst: array<char>)
    requires n < capacity && from + n <= src.Length
    ensures fresh(dst) && dst.Length == capacity
    ensures CString(dst[..]) == CString(src[from..from + n])
    ensures |CString(dst[..])| < dst.Length
  {
    dst := new char[capacity];
    StrNCpy(dst, src, from, n);
    ghost var copied := dst[..n];
    dst[n] := '\0';
    assert dst[..][..n] == copied;
    ClosedCopy(dst[..], src[from..from + n]);
  }

  /** `strcmp(a, b) == 0` for a NUL-terminated buffer. */
  method Equal(a: array<char>, text: string) returns (same: bool)
    requires NulFree(text) && |CString(a[..])| < a.Length
    ensures same <==> CString(a[..]) == text
  {
    CStringIsPrefix(a[..]);
    var i := 0;
    while a[i] != '\0' && i < |text| && a[i] == text[i]
      invariant i <= |CString(a[..])| && i <= |text| && CString(a[..])[..i] == text[..i]
      decreases a.Length - i
    {
      i := i + 1;
    }
    same := a[i] == '\0' && i == |text|;
    if same {
      assert i == |CString(a[..])|;
    }
  }

  /** What a write does to the names. */
  function Effect(names: seq<string>, p: Parsed): seq<string> {
    match p
    case Fault => names
    case Invalid => names
    case Accepted(AddF, name) => [name] + names
    case Accepted(AddE, name) => names + [name]
    case Accepted(DelF, name) => RemoveFirst(names, name)
    case Accepted(DelA, name) => RemoveAll(names, name)
  }

  /** What a write returns. */
  function Reply(p: Parsed, count: nat): int {
    match p
    case Fault => -EFAULT
    case Invalid => -EINVAL
    case Accepted(_, _) => Min(count, PROCFS_MAX_SIZE)
  }

  /** What a write makes of the names, said from its bytes. */
  ghost predicate WriteMeans(user: seq<char>, count: nat, was: seq<string>, now: seq<string>) {
    if Acceptable(user, count) then
      var inst, name := user[..4], CString(user[5..Min(count, PROCFS_MAX_SIZE)]);
      && (inst == "addf" ==> now == [name] + was)
      && (inst == "adde" ==> now == was + [name])
      && (inst == "delf" && name !in was ==> now == was)
      && (inst == "delf" && name in was ==>
            exists k :: IsFirst(was, name, k) && now == was[..k] + was[k + 1..])
      && (inst == "dela" ==> exists kept :: KeepsOthers(was, now, name, kept))
    else now == was
  }

  /** What a write returns, said from its bytes: the size it was cut to, -EFAULT if that many bytes
      cannot be read, and -EINVAL otherwise. */
  ghost predicate ReplyMeans(user: seq<char>, count: nat, reply: int) {
    if |user| < Min(count, PROCFS_MAX_SIZE) then reply == -EFAULT
    else if Acceptable(user, count) then reply == Min(count, PROCFS_MAX_SIZE)
    else reply == -EINVAL
  }

  lemma EffectMeans(user: seq<char>, count: nat, names: seq<string>)
    ensures WriteMeans(user, count, names, Effect(names, Parse(user, count)))
    ensures ReplyMeans(user, count, Reply(Parse(user, count), count))
  {
    if Acceptable(user, count) {
      var name := CString(user[5..Min(count, PROCFS_MAX_SIZE)]);
      RemoveFirstTakesFirst(names, name);
      var kept := RemoveAllKeeps(names, name);
    }
  }

  /** Four bytes compare equal to an instruction as a C string only if they are that instruction. */
  lemma InstructionRead(bytes: seq<char>)
    requires |bytes| == 4
    ensures forall inst :: CString(bytes) == Text(inst) <==> bytes == Text(inst)
  {
    CStringIsPrefix(bytes);
    forall inst ensures CString(bytes) == Text(inst) <==> bytes == Text(inst) {
      assert |Text(inst)| == 4;
      if bytes == Text(inst) {
        CStringOfNulFree(Text(inst));
      }
    }
  }

  lemma ParseInRange(user: seq<char>, count: nat)
    requires |user| >= Min(count, PROCFS_MAX_SIZE) && 5 <= Min(count, PROCFS_MAX_SIZE) <= 132
    ensures Parse(user, count) == Recognise(CString(user[..4]), CString(user[5..Min(count, PROCFS_MAX_SIZE)]))
  {
    InstructionRead(user[..4]);
  }

  /** The zeroed local buffer with the user's bytes at its start. */
  method CopyFromUser(user: seq<char>, size: nat) returns (local: array<char>)
    requires size <= |user| && size <= PROCFS_MAX_SIZE
    ensures fresh(local) && local.Length == PROCFS_MAX_SIZE
    ensures local[..][..size] == user[..size]
    ensures forall i :: size <= i < PROCFS_MAX_SIZE ==> local[i] == '\0'
  {
    local := new char[PROCFS_MAX_SIZE](i => if 0 <= i < size <= |user| then user[i] else '\0');
  }

  lemma SameSlices(local: seq<char>, user: seq<char>, size: nat)
    requires 5 <= size <= |local| && size <= |user| && local[..size] == user[..size]
    ensures local[0..4] == user[..4] && local[5..size] == user[5..size]
  {
    assert local[..size][..4] == local[0..4] && user[..size][..4] == user[..4];
    assert local[..size][5..] == local[5..size] && user[..size][5..] == user[5..size];
  }

  /** `(unsigned int)(size - 5)` with `size` unsigned long. */
  function NameSize(size: nat): nat
  {
    (size - 5) % ULONG % UINT
  }

  lemma NameSizeWraps(size: nat)
    requires size <= PROCFS_MAX_SIZE
    ensures NameSize(size) == if size < 5 then UINT + size - 5 else size - 5
    ensures NameSize(size) < NAME_MAX_SIZE <==> 5 <= size <= 132
  {
    if size < 5 {
      assert (size - 5) % ULONG == ULONG + size - 5;
      assert ULONG + size - 5 == UINT * (UINT - 1) + (UINT + size - 5);
    }
  }

  /** The size check and the two bounded copies of `list_write`. A size below 5 wraps around in the
      unsigned subtraction and is refused as too large. */
  method ParseBuffer(local: array<char>, size: nat) returns (p: Parsed)
    requires size <= PROCFS_MAX_SIZE == local.Length
    ensures p == if 5 <= size <= 132 then Recognise(CString(local[0..4]), CString(local[5..size])) else Invalid
  {
    var inst := CopyString(5, local, 0, 4);
    var nameSize := NameSize(size);
    NameSizeWraps(size);
    if nameSize >= NAME_MAX_SIZE {
      return Invalid;
    }
    var name := CopyString(NAME_MAX_SIZE + 1, local, 5, nameSize);
    p := Compare(inst, CString(name[..]));
  }

  /** `list_write` up to its effect on the list. */
  method ReadCommand(user: seq<char>, count: nat) returns (reply: int, p: Parsed)
    requires count < ULONG
    ensures p == Parse(user, count)
    ensures reply == Reply(p, count)
    ensures ReplyMeans(user, count, reply) && (reply >= 0 <==> Acceptable(user, count))
    ensures p.Accepted? ==> |p.name| < NAME_MAX_SIZE && NulFree(p.name) && user[..4] == Text(p.inst)
  {
    AcceptedExactly(user, count);
    EffectMeans(user, count, []);
    var size: nat := count;
    if size > PROCFS_MAX_SIZE {
      size := PROCFS_MAX_SIZE;
    }
    if |user| < size {
      return -EFAULT, Fault;
    }
    var local := CopyFromUser(user, size);
    p := ParseBuffer(local, size);
    if 5 <= size <= 132 {
      SameSlices(local[..], user, size);
      ParseInRange(user, count);
    }
    reply := if p.Accepted? then size else -EINVAL;
    if p.Accepted? {
      AcceptedNameFits(user, count);
    }
  }

  /** The chain of `strcmp` calls. */
  method Compare(inst: array<char>, name: string) returns (p: Parsed)
    requires |CString(inst[..])| < inst.Length
    ensures p == Recognise(CString(inst[..]), name)
  {
    var same := Equal(inst, Text(AddF));
    if same {
      return Accepted(AddF, name);
    }
    same := Equal(inst, Text(AddE));
    if same {
      return Accepted(AddE, name);
    }
    same := Equal(inst, Text(DelF));
    if same {
      return Accepted(DelF, name);
    }
    same := Equal(inst, Text(DelA));
    if same {
      return Accepted(DelA, name);
    }
    return Invalid;
  }

  /** `list_write`: whatever bytes and count arrive, the list and the reply are those of the parse. */
  method Write(names: Pool<string>, user: seq<char>, count: nat) returns (ret: int)
    requires names.Valid() && count < ULONG
    modifies names, names.list, names.list.head, names.entries
    ensures names.Valid() && fresh(names.entries - old(names.entries))
    ensures ret == Reply(Parse(user, count), count) && ReplyMeans(user, count, ret)
    ensures names.Contents() == Effect(old(names.Contents()), Parse(user, count))
    ensures WriteMeans(user, count, old(names.Contents()), names.Contents())
  {
    EffectMeans(user, count, names.Contents());
    var p;
    ret, p := ReadCommand(user, count);
    if p.Accepted? {
      match p.inst
      case AddF => var _ := Add(names, p.name, 'f');
      case AddE => var _ := Add(names, p.name, 'e');
      case DelF => var _ := DeleteFirst(names, p.name);
      case DelA => DeleteAll(names, p.name);
    }
  }

  /** The names after a sequence of writes. */
  function EffectOfAll(names: seq<string>, writes: seq<(seq<char>, nat)>): seq<string> {
    if writes == [] then names
    else
      var (user, count) := writes[|writes| - 1];
      Effect(EffectOfAll(names, writes[..|writes| - 1]), Parse(user, count))
  }

  /** The names after each of the first writes, from none on. */
  ghost predicate Steps(writes: seq<(seq<char>, nat)>, steps: seq<seq<string>>) {
    && |steps| == |writes| + 1 && steps[0] == []
    && forall i :: 0 <= i < |writes| ==> WriteMeans(writes[i].0, writes[i].1, steps[i], steps[i + 1])
  }

  lemma OneMoreStep(writes: seq<(seq<char>, nat)>, i: nat, steps: seq<seq<string>>, now: seq<string>)
    requires i < |writes| && Steps(writes[..i], steps) && steps[i] == EffectOfAll([], writes[..i])
    requires WriteMeans(writes[i].0, writes[i].1, steps[i], now)
    requires now == Effect(steps[i], Parse(writes[i].0, writes[i].1))
    ensures Steps(writes[..i + 1], steps + [now]) && now == EffectOfAll([], writes[..i + 1])
  {
    var more := steps + [now];
    assert writes[..i + 1][..i] == writes[..i];
    forall k | 0 <= k < i + 1
      ensures WriteMeans(writes[..i + 1][k].0, writes[..i + 1][k].1, more[k], more[k + 1])
    {
      if k < i {
        assert WriteMeans(writes[..i][k].0, writes[..i][k].1, steps[k], steps[k + 1]);
      }
    }
  }

  /** Any sequence of writes, from module load to unload: the heap stays a well-formed ring that
      holds what each write in turn makes of the names, the preview shows the text of the last ones,
      and at unload every entry ever allocated has been freed. */
  method Session(writes: seq<(seq<char>, nat)>)
    returns (preview: string, ghost steps: seq<seq<string>>, ghost names: Pool<string>)
    requires forall i :: 0 <= i < |writes| ==> writes[i].1 < ULONG
    ensures Steps(writes, steps) && preview == Concat(steps[|writes|])
    ensures preview == Concat(EffectOfAll([], writes))
    ensures fresh(names) && names.Valid() && names.Contents() == [] && names.released == names.entries
  {
    var loaded := new Pool<string>();
    steps := [[]];
    for i := 0 to |writes|
      invariant loaded.Valid() && fresh(loaded.list) && fresh(loaded.list.head) && fresh(loaded.entries)
      invariant loaded.Contents() == EffectOfAll([], writes[..i])
      invariant Steps(writes[..i], steps) && loaded.Contents() == steps[i]
    {
      var _ := Write(loaded, writes[i].0, writes[i].1);
      OneMoreStep(writes, i, steps, loaded.Contents());
      steps := steps + [loaded.Contents()];
    }
    assert writes[..|writes|] == writes;
    preview := Show(loaded);
    Destroy(loaded);
    names := loaded;
  }
}
