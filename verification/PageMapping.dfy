/** The mmap of labs/lab14/kernel/mymmap.c: user pages that must be the kernel area's own frames.

    `frames[k]` is the physical frame of page k of the area. It is contiguous for kmalloc and
    alloc_pages and arbitrary for vmalloc.
  */
module PageMapping {
  import opened Basics

  const PAGE_SIZE := 4096
  const MAX_PAGES := 16
  const EAGAIN := 11

  datatype Variant = UseKmalloc | UseVmalloc | UseAllocPages | NotChosen

  predicate Aligned(address: nat) {
    address % PAGE_SIZE == 0
  }

  /** Physical address of byte `j` of the kernel area. */
  function AreaPhysical(frames: seq<nat>, j: nat): nat
    requires j / PAGE_SIZE < |frames|
  {
    frames[j / PAGE_SIZE] * PAGE_SIZE + j % PAGE_SIZE
  }

  /** Physical address a process reaches at `address` through a page table. */
  function UserPhysical(table: map<nat, nat>, address: nat): nat
    requires address / PAGE_SIZE in table
  {
    table[address / PAGE_SIZE] * PAGE_SIZE + address % PAGE_SIZE
  }

  /** Byte `j` of the window at `start` is byte `j` of the area: the same physical byte. */
  ghost predicate ShowsByte(table: map<nat, nat>, start: nat, j: nat, frames: seq<nat>)
    requires j / PAGE_SIZE < |frames|
  {
    (start + j) / PAGE_SIZE in table && UserPhysical(table, start + j) == AreaPhysical(frames, j)
  }

  ghost predicate Shows(table: map<nat, nat>, start: nat, len: nat, frames: seq<nat>)
    requires len <= |frames| * PAGE_SIZE
  {
    forall j: nat :: j < len ==> ShowsByte(table, start, j, frames)
  }

  /** Page by page: `pages` entries from page `first` on are the frames of the area. */
  ghost predicate MapsPages(table: map<nat, nat>, first: nat, pages: nat, frames: seq<nat>)
    requires pages <= |frames|
  {
    forall p :: first <= p < first + pages ==> p in table && table[p] == frames[p - first]
  }

  ghost predicate SameOutside(was: map<nat, nat>, now: map<nat, nat>, first: nat, pages: nat) {
    forall p :: p < first || first + pages <= p ==> (p in was <==> p in now) && (p in was ==> now[p] == was[p])
  }

  predicate InWindow(p: nat, first: nat, n: nat) {
    first <= p < first + n
  }

  /** `n` consecutive frames from `pfn` at the pages from `first` on. */
  function Remapped(table: map<nat, nat>, first: nat, n: nat, pfn: nat): map<nat, nat> {
    table + (map p: nat | p < first + n && InWindow(p, first, n) :: pfn + (p - first))
  }

  lemma PagesShow(table: map<nat, nat>, start: nat, pages: nat, frames: seq<nat>)
    requires Aligned(start) && pages <= |frames| && MapsPages(table, start / PAGE_SIZE, pages, frames)
    ensures Shows(table, start, pages * PAGE_SIZE, frames)
  {
    forall j: nat | j < pages * PAGE_SIZE ensures ShowsByte(table, start, j, frames) {
      var p := (start + j) / PAGE_SIZE;
      assert p == start / PAGE_SIZE + j / PAGE_SIZE && (start + j) % PAGE_SIZE == j % PAGE_SIZE;
      assert p in table && table[p] == frames[p - start / PAGE_SIZE];
    }
  }

  ghost predicate Contiguous(frames: seq<nat>) {
    forall k :: 0 <= k < |frames| ==> frames[k] == frames[0] + k
  }

  class Vma {
    const start: nat
    const end: nat
    var table: map<nat, nat>

    ghost predicate Valid() {
      start <= end && Aligned(start) && Aligned(end)
    }

    constructor (start: nat, end: nat, table: map<nat, nat>)
      requires start <= end && Aligned(start) && Aligned(end)
      ensures Valid() && this.start == start && this.end == end && this.table == table
    {
      this.start, this.end, this.table := start, end, table;
    }

    /** `remap_pfn_range`: consecutive frames at consecutive pages, or nothing if the kernel refuses. */
    method Remap(address: nat, pfn: nat, size: nat, refused: bool) returns (error: bool)
      requires Aligned(address) && Aligned(size)
      modifies this
      ensures error == refused
      ensures table == if refused then old(table)
                       else Remapped(old(table), address / PAGE_SIZE, size / PAGE_SIZE, pfn)
    {
      if !refused {
        table := Remapped(table, address / PAGE_SIZE, size / PAGE_SIZE, pfn);
      }
      return refused;
    }
  }

  /** The addresses at which the driver asks for a remapping. */
  function Requests(variant: Variant, start: nat, len: nat): set<nat> {
    if variant == UseVmalloc then set i: nat | i < len / PAGE_SIZE :: start + i * PAGE_SIZE else {start}
  }

  class Device {
    const variant: Variant
    const frames: seq<nat>
    const size: nat

    /** Initialised: 16 pages, contiguous unless from vmalloc; size 0 if no allocator was chosen. */
    ghost predicate Valid() {
      && |frames| == MAX_PAGES
      && size == (if variant == NotChosen then 0 else MAX_PAGES * PAGE_SIZE)
      && (variant != UseVmalloc ==> Contiguous(frames))
    }

    constructor (variant: Variant, frames: seq<nat>)
      requires |frames| == MAX_PAGES && (variant != UseVmalloc ==> Contiguous(frames))
      ensures Valid() && this.variant == variant && this.frames == frames
    {
      this.variant, this.frames := variant, frames;
      size := if variant == NotChosen then 0 else MAX_PAGES * PAGE_SIZE;
    }

    /** `mymmap_mmap`; `refuse` are the addresses at which the kernel refuses to remap. Success makes
        the whole window the area's own memory; pages outside the window never change. */
    method Mmap(vma: Vma, refuse: set<nat>) returns (ret: int)
      requires Valid() && vma.Valid()
      modifies vma
      ensures ret == if size == 0 then -ENOMEM
                     else if vma.end - vma.start > size then -EINVAL
                     else if Requests(variant, vma.start, vma.end - vma.start) !! refuse then 0
                     else -EAGAIN
      ensures ret == 0 ==> Shows(vma.table, vma.start, vma.end - vma.start, frames)
      ensures SameOutside(old(vma.table), vma.table, vma.start / PAGE_SIZE, (vma.end - vma.start) / PAGE_SIZE)
    {
      if size == 0 {
        return -ENOMEM;
      }
      var len := vma.end - vma.start;
      if len > size {
        return -EINVAL;
      }
      var pages := len / PAGE_SIZE;
      if variant == UseVmalloc {
        ret := MapByPage(vma, pages, refuse);
      } else {
        var error := vma.Remap(vma.start, frames[0], len, vma.start in refuse);
        ret := if error then -EAGAIN else 0;
      }
      if ret == 0 {
        PagesShow(vma.table, vma.start, pages, frames);
      }
    }

    /** The vmalloc loop: the frames are scattered, so every page is looked up and mapped alone. */
    method MapByPage(vma: Vma, pages: nat, refuse: set<nat>) returns (ret: int)
      requires Valid() && vma.Valid() && variant == UseVmalloc && pages <= MAX_PAGES
      modifies vma
      ensures ret == if Requests(variant, vma.start, pages * PAGE_SIZE) !! refuse then 0 else -EAGAIN
      ensures ret == 0 ==> MapsPages(vma.table, vma.start / PAGE_SIZE, pages, frames)
      ensures SameOutside(old(vma.table), vma.table, vma.start / PAGE_SIZE, pages)
    {
      var i := 0;
      ghost var k := 0;
      while i < pages * PAGE_SIZE
        invariant 0 <= k <= pages && i == k * PAGE_SIZE
        invariant MapsPages(vma.table, vma.start / PAGE_SIZE, k, frames)
        invariant SameOutside(old(vma.table), vma.table, vma.start / PAGE_SIZE, pages)
        invariant forall j: nat :: j < k ==> vma.start + j * PAGE_SIZE !in refuse
        decreases pages - k
      {
        var pfn := frames[i / PAGE_SIZE];
        var error := vma.Remap(vma.start + i, pfn, PAGE_SIZE, vma.start + i in refuse);
        if error {
          assert vma.start + k * PAGE_SIZE in Requests(variant, vma.start, pages * PAGE_SIZE);
          return -EAGAIN;
        }
        i := i + PAGE_SIZE;
        k := k + 1;
      }
      return 0;
    }
  }

  // -- What sharing the frames means ---------------------------------------------------------

  /** Whatever memory holds, the process reads the area's bytes, whichever allocator was used. */
  lemma UserReadsArea(memory: nat -> Byte, table: map<nat, nat>, start: nat, len: nat, frames: seq<nat>, j: nat)
    requires len <= |frames| * PAGE_SIZE && Shows(table, start, len, frames) && j < len
    ensures (start + j) / PAGE_SIZE in table
    ensures memory(UserPhysical(table, start + j)) == memory(AreaPhysical(frames, j))
  {
    assert ShowsByte(table, start, j, frames);
  }

  ghost predicate Separate(frames: seq<nat>) {
    forall a, b :: 0 <= a < b < |frames| ==> frames[a] != frames[b]
  }

  /** A byte the process writes changes that byte of the area and no other. */
  lemma UserWritesArea(memory: nat -> Byte, table: map<nat, nat>, start: nat, len: nat, frames: seq<nat>,
                       j: nat, value: Byte, i: nat)
    requires len <= |frames| * PAGE_SIZE && Shows(table, start, len, frames) && j < len
    requires Separate(frames) && i < |frames| * PAGE_SIZE
    ensures (start + j) / PAGE_SIZE in table
    ensures var written := UserPhysical(table, start + j);
            var after := (a: nat) => if a == written then value else memory(a);
            after(AreaPhysical(frames, i)) == if i == j then value else memory(AreaPhysical(frames, i))
  {
    assert ShowsByte(table, start, j, frames);
    if i != j && AreaPhysical(frames, i) == AreaPhysical(frames, j) {
      SamePhysical(frames[i / PAGE_SIZE], i % PAGE_SIZE, frames[j / PAGE_SIZE], j % PAGE_SIZE);
    }
  }

  lemma SamePhysical(f: nat, x: nat, g: nat, y: nat)
    requires x < PAGE_SIZE && y < PAGE_SIZE && f * PAGE_SIZE + x == g * PAGE_SIZE + y
    ensures f == g && x == y
  {
  }

  /** The contiguous remapping and the page-by-page one agree on a contiguous area. */
  lemma VariantsAgree(was: map<nat, nat>, first: nat, pages: nat, frames: seq<nat>, byPage: map<nat, nat>)
    requires pages <= |frames| && frames != [] && Contiguous(frames)
    requires MapsPages(byPage, first, pages, frames) && SameOutside(was, byPage, first, pages)
    ensures byPage == Remapped(was, first, pages, frames[0])
  {
    var atOnce := Remapped(was, first, pages, frames[0]);
    forall p: nat ensures p in byPage <==> p in atOnce {}
    forall p: nat | p in byPage ensures byPage[p] == atOnce[p] {}
  }

  // -- Initialisation ------------------------------------------------------------------------

  const MARK: seq<Byte> := [0xfa, 0xce, 0xb0, 0x0c]

  /** The fill loop of `mymmap_init`: four marker bytes at the start of every page, nothing else. */
  method MarkPages(area: array<Byte>)
    requires area.Length == MAX_PAGES * PAGE_SIZE
    modifies area
    ensures forall j :: 0 <= j < area.Length ==>
              area[j] == if j % PAGE_SIZE < 4 then MARK[j % PAGE_SIZE] else old(area[j])
  {
    var i := 0;
    while i < MAX_PAGES * PAGE_SIZE
      invariant 0 <= i <= area.Length && i % PAGE_SIZE == 0
      invariant forall j :: 0 <= j < i ==> area[j] == if j % PAGE_SIZE < 4 then MARK[j % PAGE_SIZE] else old(area[j])
      invariant forall j :: i <= j < area.Length ==> area[j] == old(area[j])
    {
      area[i] := 0xfa;
      area[i + 1] := 0xce;
      area[i + 2] := 0xb0;
      area[i + 3] := 0x0c;
      i := i + PAGE_SIZE;
    }
  }

  /** `memory` is what the frames hold while the kernel's area is `area`. */
  ghost predicate Backs(memory: nat -> Byte, frames: seq<nat>, area: seq<Byte>)
    requires |area| <= |frames| * PAGE_SIZE
  {
    forall j: nat :: j < |area| ==> memory(AreaPhysical(frames, j)) == area[j]
  }

  /** A process that reads the window at `start` finds `bytes` there. */
  ghost predicate Finds(memory: nat -> Byte, table: map<nat, nat>, start: nat, bytes: seq<Byte>) {
    forall j: nat :: j < |bytes| ==> FindsByte(memory, table, start + j, bytes[j])
  }

  ghost predicate FindsByte(memory: nat -> Byte, table: map<nat, nat>, address: nat, byte: Byte) {
    address / PAGE_SIZE in table && memory(UserPhysical(table, address)) == byte
  }

  lemma WindowFindsArea(memory: nat -> Byte, table: map<nat, nat>, start: nat, len: nat, frames: seq<nat>,
                        area: seq<Byte>)
    requires len <= |area| <= |frames| * PAGE_SIZE && Shows(table, start, len, frames)
    requires Backs(memory, frames, area)
    ensures Finds(memory, table, start, area[..len])
  {
    forall j: nat | j < len ensures FindsByte(memory, table, start + j, area[..len][j]) {
      UserReadsArea(memory, table, start, len, frames, j);
      assert memory(AreaPhysical(frames, j)) == area[j];
    }
  }

  /** The area after initialisation: fresh pages, marked if an allocator was chosen. */
  ghost predicate Initialised(variant: Variant, was: seq<Byte>, now: seq<Byte>) {
    && |was| == |now|
    && forall j :: 0 <= j < |now| ==>
         now[j] == if variant != NotChosen && j % PAGE_SIZE < 4 then MARK[j % PAGE_SIZE] else was[j]
  }

  /** `mymmap_init`, then a process's mmap: if that succeeds, then whatever `memory` backs the area
      at any later time, the process finds the area's current bytes in its window; and right after
      initialisation each of its pages begins with the marker. */
  method InitThenMap(variant: Variant, frames: seq<nat>, area: array<Byte>, vma: Vma, refuse: set<nat>)
    returns (device: Device, ret: int)
    requires |frames| == MAX_PAGES && (variant != UseVmalloc ==> Contiguous(frames))
    requires area.Length == MAX_PAGES * PAGE_SIZE && vma.Valid()
    modifies area, vma
    ensures device.Valid() && device.variant == variant && device.frames == frames
    ensures Initialised(variant, old(area[..]), area[..])
    ensures variant == NotChosen ==> ret == -ENOMEM
    ensures ret == 0 ==> vma.end - vma.start <= area.Length
    ensures ret == 0 ==> forall memory, bytes: seq<Byte> ::
              |bytes| == area.Length && Backs(memory, frames, bytes)
              ==> Finds(memory, vma.table, vma.start, bytes[..vma.end - vma.start])
    ensures ret == 0 ==> forall memory ::
              Backs(memory, frames, area[..])
              ==> PagesMarked(memory, vma.table, vma.start, vma.end - vma.start)
  {
    device := new Device(variant, frames);
    if variant != NotChosen {
      MarkPages(area);
    }
    ret := device.Mmap(vma, refuse);
    if ret == 0 {
      var len := vma.end - vma.start;
      forall memory, bytes: seq<Byte> | |bytes| == area.Length && Backs(memory, frames, bytes)
        ensures Finds(memory, vma.table, vma.start, bytes[..len])
      {
        WindowFindsArea(memory, vma.table, vma.start, len, frames, bytes);
      }
      forall memory | Backs(memory, frames, area[..]) ensures PagesMarked(memory, vma.table, vma.start, len) {
        MappedPagesAreMarked(memory, area[..], vma.table, vma.start, len, frames);
      }
    }
  }

  /** Every page of the window begins with the four marker bytes. */
  ghost predicate PagesMarked(memory: nat -> Byte, table: map<nat, nat>, start: nat, len: nat) {
    forall j: nat :: j < len && j % PAGE_SIZE < 4 ==> FindsByte(memory, table, start + j, MARK[j % PAGE_SIZE])
  }

  /** So every page a process maps begins with the four marker bytes. */
  lemma MappedPagesAreMarked(memory: nat -> Byte, area: seq<Byte>, table: map<nat, nat>, start: nat, len: nat,
                             frames: seq<nat>)
    requires len <= |area| <= |frames| * PAGE_SIZE && Backs(memory, frames, area)
    requires forall j :: 0 <= j < |area| && j % PAGE_SIZE < 4 ==> area[j] == MARK[j % PAGE_SIZE]
    requires Shows(table, start, len, frames)
    ensures PagesMarked(memory, table, start, len)
  {
    WindowFindsArea(memory, table, start, len, frames, area);
    forall j: nat | j < len && j % PAGE_SIZE < 4
      ensures FindsByte(memory, table, start + j, MARK[j % PAGE_SIZE])
    {
      assert area[..len][j] == area[j];
    }
  }
}
