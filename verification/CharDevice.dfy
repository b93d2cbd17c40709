/** The character device of labs/lab11/my_cdev.c: one process at a time per minor, and reads and
    writes through a file position that moves over a window of the buffer.
  */
module CharDevice {
  import opened Basics

  const BUFSIZ := 4096

  // -- Sessions on plain byte sequences ------------------------------------------------------

  datatype Op = Read(count: nat) | Write(data: seq<Byte>)

  /** The device's bytes and the file position. */
  datatype Tape = Tape(bytes: seq<Byte>, pos: nat)

  ghost predicate TapeOk(t: Tape) {
    t.pos <= |t.bytes|
  }

  /** How many bytes an operation can move. */
  function Moved(op: Op, t: Tape): nat
    requires TapeOk(t)
  {
    Min(|t.bytes| - t.pos, if op.Read? then op.count else |op.data|)
  }

  function Overwrite(bytes: seq<Byte>, at: nat, data: seq<Byte>): (r: seq<Byte>)
    requires at + |data| <= |bytes|
    ensures |r| == |bytes|
  {
    bytes[..at] + data + bytes[at + |data|..]
  }

  function Apply(op: Op, t: Tape): (r: Tape)
    requires TapeOk(t)
    ensures TapeOk(r) && |r.bytes| == |t.bytes| && r.pos == t.pos + Moved(op, t)
  {
    var n := Moved(op, t);
    Tape(if op.Read? then t.bytes else Overwrite(t.bytes, t.pos, op.data[..n]), t.pos + n)
  }

  /** What the operation hands to the caller. */
  function Output(op: Op, t: Tape): seq<Byte>
    requires TapeOk(t)
  {
    if op.Read? then t.bytes[t.pos..t.pos + Moved(op, t)] else []
  }

  function ApplyAll(ops: seq<Op>, t: Tape): (r: Tape)
    requires TapeOk(t)
    ensures TapeOk(r) && |r.bytes| == |t.bytes| && r.pos >= t.pos
  {
    if ops == [] then t else Apply(ops[|ops| - 1], ApplyAll(ops[..|ops| - 1], t))
  }

  /** Everything a session has read. */
  function Outputs(ops: seq<Op>, t: Tape): seq<Byte>
    requires TapeOk(t)
  {
    if ops == [] then []
    else Outputs(ops[..|ops| - 1], t) + Output(ops[|ops| - 1], ApplyAll(ops[..|ops| - 1], t))
  }

  /** Everything a session has asked to write. */
  function Data(ops: seq<Op>): seq<Byte> {
    if ops == [] then []
    else Data(ops[..|ops| - 1]) + (if ops[|ops| - 1].Write? then ops[|ops| - 1].data else [])
  }

  function Requested(ops: seq<Op>): nat {
    if ops == [] then 0
    else Requested(ops[..|ops| - 1]) + (if ops[|ops| - 1].Read? then ops[|ops| - 1].count else 0)
  }

  ghost predicate AllWrites(ops: seq<Op>) {
    forall i :: 0 <= i < |ops| ==> ops[i].Write?
  }

  ghost predicate AllReads(ops: seq<Op>) {
    forall i :: 0 <= i < |ops| ==> ops[i].Read?
  }

  /** Only the window the position has moved over can have changed. */
  lemma {:induction false} OnlyWindowChanges(ops: seq<Op>, t: Tape, i: nat)
    requires TapeOk(t) && i < |t.bytes|
    requires i < t.pos || ApplyAll(ops, t).pos <= i
    ensures ApplyAll(ops, t).bytes[i] == t.bytes[i]
  {
    if ops != [] {
      OnlyWindowChanges(ops[..|ops| - 1], t, i);
    }
  }

  /** A session reads the bytes that were there when it began, even where it also writes. */
  lemma ReadsSeeTheStart(ops: seq<Op>, t: Tape, more: Op)
    requires TapeOk(t)
    ensures Output(more, ApplyAll(ops, t)) == Output(more, Tape(t.bytes, ApplyAll(ops, t).pos))
  {
    var now := ApplyAll(ops, t);
    if more.Read? {
      var n := Moved(more, now);
      forall k | now.pos <= k < now.pos + n ensures now.bytes[k] == t.bytes[k] {
        OnlyWindowChanges(ops, t, k);
      }
      assert now.bytes[now.pos..now.pos + n] == t.bytes[now.pos..now.pos + n];
    }
  }

  /** Writes in any chunks amount to one write of all the data, cut at the end of the device. */
  lemma {:induction false} WritesAreOneWrite(ops: seq<Op>, t: Tape)
    requires TapeOk(t) && AllWrites(ops)
    ensures ApplyAll(ops, t) == Apply(Write(Data(ops)), t)
  {
    if ops == [] {
      assert Overwrite(t.bytes, t.pos, []) == t.bytes;
    } else {
      var before, last := ops[..|ops| - 1], ops[|ops| - 1];
      WritesAreOneWrite(before, t);
      WriteAfterWrite(Data(before), last.data, t);
    }
  }

  lemma WriteAfterWrite(a: seq<Byte>, b: seq<Byte>, t: Tape)
    requires TapeOk(t)
    ensures Apply(Write(b), Apply(Write(a), t)) == Apply(Write(a + b), t)
  {
    var room := |t.bytes| - t.pos;
    var n := Min(room, |a|);
    var m := Min(room - n, |b|);
    WriteIsOverwrite(a, t);
    WriteIsOverwrite(b, Apply(Write(a), t));
    WriteIsOverwrite(a + b, t);
    PrefixOfBoth(a, b, room);
    OverwriteTwice(t.bytes, t.pos, a[..n], b[..m]);
  }

  lemma WriteIsOverwrite(data: seq<Byte>, t: Tape)
    requires TapeOk(t)
    ensures var n := Min(|t.bytes| - t.pos, |data|);
            Apply(Write(data), t) == Tape(Overwrite(t.bytes, t.pos, data[..n]), t.pos + n)
  {
  }

  lemma PrefixOfBoth(a: seq<Byte>, b: seq<Byte>, room: nat)
    ensures var n := Min(room, |a|);
            var m := Min(room - n, |b|);
            Min(room, |a + b|) == n + m && (a + b)[..n + m] == a[..n] + b[..m]
  {
  }

  /** Overwriting within a window is overwriting the window. */
  lemma OverwriteWindow(bytes: seq<Byte>, size: nat, at: nat, data: seq<Byte>)
    requires at + |data| <= size <= |bytes|
    ensures Overwrite(bytes, at, data)[..size] == Overwrite(bytes[..size], at, data)
    ensures data == [] ==> Overwrite(bytes, at, data) == bytes
  {
  }

  lemma OverwriteTwice(bytes: seq<Byte>, at: nat, a: seq<Byte>, b: seq<Byte>)
    requires at + |a| + |b| <= |bytes|
    ensures Overwrite(Overwrite(bytes, at, a), at + |a|, b) == Overwrite(bytes, at, a + b)
  {
  }

  lemma {:induction false} ReadsMove(ops: seq<Op>, t: Tape)
    requires TapeOk(t) && AllReads(ops)
    ensures ApplyAll(ops, t) == Tape(t.bytes, t.pos + Min(|t.bytes| - t.pos, Requested(ops)))
  {
    if ops != [] {
      ReadsMove(ops[..|ops| - 1], t);
    }
  }

  /** Reads in any chunks return one slice. */
  lemma {:induction false} ReadsAreOneRead(ops: seq<Op>, t: Tape)
    requires TapeOk(t) && AllReads(ops)
    ensures Outputs(ops, t) == t.bytes[t.pos..t.pos + Min(|t.bytes| - t.pos, Requested(ops))]
  {
    ReadsMove(ops, t);
    if ops != [] {
      var before, last := ops[..|ops| - 1], ops[|ops| - 1];
      ReadsAreOneRead(before, t);
      ReadsMove(before, t);
      var mid := ApplyAll(before, t).pos;
      assert Output(last, Tape(t.bytes, mid)) == t.bytes[mid..ApplyAll(ops, t).pos];
      JoinSlices(t.bytes, t.pos, mid, ApplyAll(ops, t).pos);
    }
  }

  /** Once the end is reached, reads return nothing more. */
  // Dafny need not look for an induction here: the lemmas called have made it.
  lemma {:induction false} NothingAfterTheEnd(ops: seq<Op>, t: Tape, n: nat)
    requires TapeOk(t) && AllReads(ops) && Requested(ops) >= |t.bytes| - t.pos
    ensures Output(Read(n), ApplyAll(ops, t)) == []
  {
    ReadsMove(ops, t);
  }

  lemma JoinSlices(s: seq<Byte>, a: nat, b: nat, c: nat)
    requires a <= b <= c <= |s|
    ensures s[a..b] + s[b..c] == s[a..c]
  {
  }

  lemma WrittenBytes(data: seq<Byte>, bytes: seq<Byte>, k: nat)
    requires k < |bytes|
    ensures Apply(Write(data), Tape(bytes, 0)).bytes[k] == if k < |data| then data[k] else bytes[k]
  {
  }

  /** `back` is the data, cut to the device size, and behind it the old bytes, `wanted` in all if there are as many. */
  ghost predicate ComesBack(data: seq<Byte>, bytes: seq<Byte>, wanted: nat, back: seq<Byte>) {
    && |back| == Min(|bytes|, wanted)
    && forall k :: 0 <= k < |back| ==> back[k] == if k < |data| then data[k] else bytes[k]
  }

  /** Bytes written in chunks from the start come back, cut to the device size, to any later
      session that reads them in chunks of its own; behind them come the old bytes. */
  // Dafny need not look for an induction here: the lemmas called have made it.
  lemma {:induction false} WrittenComesBack(stores: seq<Op>, loads: seq<Op>, bytes: seq<Byte>)
    requires AllWrites(stores) && AllReads(loads)
    ensures ComesBack(Data(stores), bytes, Requested(loads),
                      Outputs(loads, Tape(ApplyAll(stores, Tape(bytes, 0)).bytes, 0)))
  {
    var stored := ApplyAll(stores, Tape(bytes, 0)).bytes;
    WritesAreOneWrite(stores, Tape(bytes, 0));
    ReadsAreOneRead(loads, Tape(stored, 0));
    var back := Outputs(loads, Tape(stored, 0));
    forall k | 0 <= k < |back| ensures back[k] == if k < |Data(stores)| then Data(stores)[k] else bytes[k] {
      WrittenBytes(Data(stores), bytes, k);
    }
  }

  // -- How many bytes a call copies ----------------------------------------------------------

  const SSIZE_MAX := 0x7fff_ffff_ffff_ffff

  /** `size - *offset` in an unsigned type: huge once the position is behind the window. */
  function Left(size: nat, offset: nat): nat {
    (size - offset) % ULONG
  }

  /** `my_read` keeps the minimum in a signed type and copies nothing if it is negative. */
  function ReadLength(size: nat, offset: nat, count: nat): nat {
    var len := Min(Left(size, offset), count);
    if len > SSIZE_MAX then 0 else len
  }

  function WriteLength(size: nat, offset: nat, count: nat): nat {
    Min(Left(size, offset), count)
  }

  /** A copy of at least one byte stays in the window exactly if the position does; and then the
      length is what is left of the window. */
  lemma StaysInWindowExactly(size: nat, offset: nat, count: nat)
    requires size <= BUFSIZ && offset <= SSIZE_MAX && count < ULONG
    ensures ReadLength(size, offset, count) > 0 ==>
              (offset + ReadLength(size, offset, count) <= size <==> offset <= size)
    ensures WriteLength(size, offset, count) > 0 ==>
              (offset + WriteLength(size, offset, count) <= size <==> offset <= size)
    ensures offset <= size ==>
              ReadLength(size, offset, count) == WriteLength(size, offset, count) == Min(size - offset, count)
  {
    if offset <= size {
      assert Left(size, offset) == size - offset;
    } else {
      assert Left(size, offset) == ULONG + size - offset;
    }
  }

  /** Behind the window every count that can be asked for is copied in full. */
  lemma BehindTheWindow(size: nat, offset: nat, count: nat)
    requires size <= BUFSIZ && size < offset <= SSIZE_MAX && count <= SSIZE_MAX
    ensures ReadLength(size, offset, count) == WriteLength(size, offset, count) == count
  {
    assert Left(size, offset) == ULONG + size - offset;
  }

  // -- The driver ----------------------------------------------------------------------------

  const BUFFER_SIZE := 256

  /** One minor: its buffer, the size of the window on it, and `access`, which the open files take
      and give back. */
  class Minor {
    const buffer: array<Byte>
    var access: int
    var size: nat

    ghost predicate Valid()
      reads this
    {
      buffer.Length == BUFSIZ && size <= BUFSIZ
    }

    constructor ()
      ensures Valid() && access == 0 && size == BUFSIZ && fresh(buffer) && buffer[..] == seq(BUFSIZ, _ => 0)
    {
      buffer := new Byte[BUFSIZ](_ => 0);
      access, size := 0, BUFSIZ;
    }

    /** `atomic_cmpxchg(&access, 0, 1)` decides. */
    method Open() returns (ret: int)
      modifies this`access
      ensures ret == if old(access) == 0 then 0 else -EBUSY
      ensures access == if old(access) == 0 then 1 else old(access)
    {
      if access != 0 {
        return -EBUSY;
      }
      access := 1;
      return 0;
    }

    method Release()
      modifies this`access
      ensures access == 0
    {
      access := 0;
    }

    /** `copy_from_user` into the middle of the buffer. */
    method Store(at: nat, data: seq<Byte>, len: nat)
      requires Valid() && len <= |data| && at + len <= BUFSIZ
      modifies buffer
      ensures buffer[..] == Overwrite(old(buffer[..]), at, data[..len])
    {
      ghost var was := buffer[..];
      forall i | 0 <= i < len {
        buffer[at + i] := data[i];
      }
      assert buffer[..] == Overwrite(was, at, data[..len]);
    }

    /** The SET_BUFFER ioctl: `remains` of the 256 bytes could not be read from the user, and the
        kernel zeroes their place. The window shrinks to what came. */
    method SetBuffer(data: seq<Byte>, remains: nat) returns (ret: int)
      requires Valid() && |data| == BUFFER_SIZE && remains <= BUFFER_SIZE
      modifies this`size, buffer
      ensures Valid() && size == BUFFER_SIZE - remains
      ensures ret == if remains == 0 then 0 else -EFAULT
      ensures buffer[..] == data[..size] + seq(remains, _ => 0) + old(buffer[..])[BUFFER_SIZE..]
    {
      ghost var was := buffer[..];
      size := BUFFER_SIZE - remains;
      forall i | 0 <= i < BUFFER_SIZE {
        buffer[i] := if i < size then data[i] else 0;
      }
      assert buffer[..] == data[..size] + seq(remains, _ => 0) + was[BUFFER_SIZE..];
      ret := if remains != 0 then -EFAULT else 0;
    }

    /** The GET_BUFFER ioctl: the whole window. */
    method GetBuffer() returns (data: seq<Byte>)
      requires Valid()
      ensures data == buffer[..][..size]
    {
      data := buffer[..size];
    }
  }

  /** A call's outcome. What a copy that leaves the buffer does is not part of this model. */
  datatype Transfer = Done(bytes: seq<Byte>) | OutOfBuffer

  /** An open file on a minor. */
  class File {
    const minor: Minor
    var offset: nat

    ghost predicate Valid()
      reads this, minor
    {
      minor.Valid() && offset <= SSIZE_MAX
    }

    /** The position is in the window, as it always is without SET_BUFFER and positioned calls. */
    ghost predicate InWindow()
      reads this, minor
    {
      Valid() && offset <= minor.size
    }

    /** The window, with the position in it. */
    ghost function State(): (t: Tape)
      reads this, minor, minor.buffer
      requires InWindow()
      ensures TapeOk(t)
    {
      Tape(minor.buffer[..minor.size], offset)
    }

    constructor (minor: Minor)
      requires minor.Valid()
      ensures InWindow() && this.minor == minor && offset == 0
    {
      this.minor, offset := minor, 0;
    }

    /** `my_read`. Within the window it is a read of the tape. Behind it the copy takes place all the
        same, and from the buffer as long as that reaches. */
    method ReadInto(count: nat) returns (r: Transfer)
      requires Valid() && count < ULONG
      modifies this`offset
      ensures Valid() && (old(InWindow()) ==> InWindow())
      ensures var len := ReadLength(minor.size, old(offset), count);
              if len == 0 then r == Done([]) && offset == old(offset)
              else if old(offset) + len > BUFSIZ then r.OutOfBuffer? && offset == old(offset)
              else r == Done(minor.buffer[old(offset)..old(offset) + len]) && offset == old(offset) + len
      ensures old(InWindow()) ==>
                r == Done(Output(Read(count), old(State()))) && State() == Apply(Read(count), old(State()))
    {
      StaysInWindowExactly(minor.size, offset, count);
      var len := Min((minor.size - offset) % ULONG, count);
      if len > SSIZE_MAX || len == 0 {
        return Done([]);
      }
      if offset + len > BUFSIZ {
        return OutOfBuffer;
      }
      r := Done(minor.buffer[offset..offset + len]);
      offset := offset + len;
    }

    /** `my_write`, likewise; the bytes done are those written. */
    method WriteFrom(data: seq<Byte>) returns (r: Transfer)
      requires Valid() && |data| < ULONG
      modifies this`offset, minor.buffer
      ensures Valid() && (old(InWindow()) ==> InWindow())
      ensures var len := WriteLength(minor.size, old(offset), |data|);
              if len == 0 then r == Done([]) && offset == old(offset) && minor.buffer[..] == old(minor.buffer[..])
              else if old(offset) + len > BUFSIZ then
                r.OutOfBuffer? && offset == old(offset) && minor.buffer[..] == old(minor.buffer[..])
              else
                && r == Done(data[..len]) && offset == old(offset) + len
                && minor.buffer[..] == Overwrite(old(minor.buffer[..]), old(offset), data[..len])
      ensures old(InWindow()) ==>
                && r == Done(data[..Moved(Write(data), old(State()))])
                && State() == Apply(Write(data), old(State()))
    {
      StaysInWindowExactly(minor.size, offset, |data|);
      var len := Min((minor.size - offset) % ULONG, |data|);
      ghost var was := minor.buffer[..];
      if offset <= minor.size {
        OverwriteWindow(was, minor.size, offset, data[..len]);
      }
      if len <= 0 {
        return Done([]);
      }
      if offset + len > BUFSIZ {
        return OutOfBuffer;
      }
      minor.Store(offset, data, len);
      offset := offset + len;
      r := Done(data[..len]);
    }
  }

  /** So the window is not kept in general: fill the device, shrink it by SET_BUFFER, read on. */
  method ReadBehindTheWindow() returns (r: Transfer)
    ensures r.OutOfBuffer?
  {
    var minor := new Minor();
    var file := new File(minor);
    var filled := file.WriteFrom(seq(BUFSIZ, _ => 1));
    var ret := minor.SetBuffer(seq(BUFFER_SIZE, _ => 2), 0);
    BehindTheWindow(BUFFER_SIZE, BUFSIZ, 1);
    r := file.ReadInto(1);
  }
}
