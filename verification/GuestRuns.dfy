/**
 * Runs of the guest directory and facade, from an empty directory on, that show where the guest's
 * bookkeeping and its documentation part.
 */
module GuestRuns {
  import opened Core
  import opened Bits
  import opened Allocator
  import opened Compaction
  import opened Guest
  import opened GuestFacade
  import D = Directory

  /** A new region in a directory of one pool with room for it. */
  method CreateInPool(d: GuestDirectory, kind: D.RegionKind, capacity: u32) returns (id: u16)
    requires d.Valid() && |d.pools| == 1 && d.nextId < U16_MAX && d.pools[0].used + capacity <= d.pools[0].capacity
    modifies d
    ensures d.Valid() && id == old(d.nextId) && d.nextId == id + 1
    ensures d.pools == [Pool(old(d.pools[0].used) + capacity, old(d.pools[0].capacity))]
    ensures d.slots == old(d.slots) +
      [Some(Entry(1, capacity, false, D.PolicyFor(kind).pinnable, 0, old(d.pools[0].used), D.Freelist(map[])))]
  {
    assert GuestDirectory.Fits(d.pools[0], capacity);
    var r := d.CreateRegion(kind, capacity, D.FreelistKind);
    id := r.value;
  }

  /** A placement that fails still takes an id, so the region created next answers to an id that names
      no slot. */
  method FailedCreateShiftsIds() returns (first: Result<u16>, second: u16, found: Result<(nat, u32)>)
    ensures first.Err? && second == 2 && found == Err(RegionNotFound(2))
  {
    var d := new GuestDirectory([Pool(0, 1)]);
    first := d.CreateRegion(D.Scratch, 2, D.FreelistKind);
    second := CreateInPool(d, D.Scratch, 1);
    found := d.Resolve(Handle(2, 1, 0));
  }

  method WriteThenRead(t: GuestTvm, w: Handle, b: byte, h: Handle, len: u32) returns (r: Result<bytes>)
    requires t.Valid()
    modifies t`cache, t.mems
    ensures r == GuestRead(old(t.directory.slots), GuestWrite(old(t.directory.slots), old(t.Contents()), w, [b]).0, h, len)
  {
    ghost var wanted := GuestWrite(t.directory.slots, t.Contents(), w, [b]).0;
    var done := t.Write(w, [b]);
    assert t.Contents() == wanted;
    r := t.Read(h, len);
  }

  /** Two regions of one byte each, next to each other. */
  method Neighbours() returns (d: GuestDirectory)
    ensures fresh(d) && d.Valid() && |d.pools| == 1
    ensures var e := Entry(1, 1, false, false, 0, 0, D.Freelist(map[])); d.slots == [None, Some(e), Some(e.(base := 1))]
  {
    d := new GuestDirectory([Pool(0, 2)]);
    var a := CreateInPool(d, D.Scratch, 1);
    var b := CreateInPool(d, D.Scratch, 1);
  }

  /** Writing 7 to the second and reading two bytes of the first. */
  lemma AcrossTheBorder(slots: Slots, a: bytes, b: bytes)
    requires |slots| == 3 && slots[1].Some? && slots[2].Some?
    requires var e := Entry(1, 1, false, false, 0, 0, D.Freelist(map[])); slots[1].value == e && slots[2].value == e.(base := 1)
    requires a == [0, 0] && b == [0, 7]
    ensures GuestWrite(slots, [a], Handle(2, 1, 0), [7]).0 == [b]
    ensures GuestRead(slots, [b], Handle(1, 1, 0), 2) == Ok(b)
  {
    var data: bytes := [7];
    assert ResolveIn(slots, Handle(2, 1, 0)) == Ok((0, 1));
    assert ResolveIn(slots, Handle(1, 1, 0)) == Ok((0, 0));
    assert Splice(a, 1, data) == b;
    assert [a][0 := b] == [b];
    assert b[0..2] == b;
  }

  /** Reading two bytes of the first region, which has one, returns a byte of its neighbour. */
  method ReadPastTheEnd() returns (r: Result<bytes>)
    ensures r == Ok([0, 7])
  {
    var d := Neighbours();
    var mem := new byte[2](_ => 0);
    ghost var a: bytes := [0, 0];
    assert mem[..] == a;
    var t := new GuestTvm(d, [mem]);
    assert t.Contents() == [a];
    AcrossTheBorder(d.slots, a, [0, 7]);
    r := WriteThenRead(t, Handle(2, 1, 0), 7, Handle(1, 1, 0), 2);
  }

  /** The lowest fit is what `FirstFit` answers. */
  lemma FitAt(live: Live, capacity: u32, size: u32, o: u32)
    requires size > 0 && Vacant(live, capacity, o, size)
    requires forall q :: 0 <= q < o ==> LiveByte(live, q)
    ensures FirstFit(live, capacity, size, 1) == Ok(o)
  {
    GoodAlignIsPowerOfTwo(1);
    assert Pow2(0) == 1;
    forall q | 0 <= q < o ensures !Fits(live, capacity, q, size, 1) { assert LiveByte(live, q); }
    assert Fits(live, capacity, o, size, 1);
  }

  /** Three allocations in a region of four bytes, lowest first. */
  lemma ThreeFits()
    ensures FirstFit(map[], 4, 1, 1) == Ok(0)
    ensures FirstFit(map[0 := 1], 4, 2, 1) == Ok(1)
    ensures FirstFit(map[0 := 1, 1 := 2], 4, 1, 1) == Ok(3)
  {
    FitAt(map[], 4, 1, 0);
    var one: Live := map[0 := 1];
    forall q | 0 <= q < 1 ensures LiveByte(one, q) { assert 0 in one && 0 <= q < 0 + one[0]; }
    FitAt(one, 4, 2, 1);
    var two: Live := map[0 := 1, 1 := 2];
    forall q | 0 <= q < 3 ensures LiveByte(two, q) {
      var o: u32 := if q == 0 then 0 else 1;
      assert o in two && o <= q < o + two[o];
    }
    FitAt(two, 4, 1, 3);
  }

  /** An allocation in region 1 whose place is known. */
  method AllocAt(d: GuestDirectory, live: Live, size: u32, o: u32) returns (h: Handle)
    requires d.Valid() && |d.slots| == 2 && d.slots[1].Some? && d.slots[1].value.alloc == D.Freelist(live)
    requires FirstFit(live, d.slots[1].value.capacity, size, 1) == Ok(o)
    modifies d`slots
    ensures d.Valid() && h == Handle(1, old(d.slots[1].value.generation), o)
    ensures d.slots == old(d.slots)[1 := Some(old(d.slots[1]).value.(alloc := D.Freelist(live[o := size])))]
  {
    var r := d.Alloc(1, size);
    h := r.value;
  }

  /** A new region of four bytes. */
  method FourBytes() returns (d: GuestDirectory)
    ensures fresh(d) && d.Valid() && |d.pools| == 1
    ensures d.slots == [None, Some(Entry(1, 4, false, false, 0, 0, D.Freelist(map[])))]
  {
    d := new GuestDirectory([Pool(0, 4)]);
    var id := CreateInPool(d, D.Scratch, 4);
  }

  /** A full region of four bytes. */
  method Filled() returns (d: GuestDirectory, first: Handle, held: Handle)
    ensures fresh(d) && d.Valid() && first == Handle(1, 1, 0) && held == Handle(1, 1, 1)
    ensures |d.pools| == 1 && d.slots == [None, Some(Entry(1, 4, false, false, 0, 0, D.Freelist(map[0 := 1, 1 := 2, 3 := 1])))]
  {
    d := FourBytes();
    ThreeFits();
    first := AllocAt(d, map[], 1, 0);
    held := AllocAt(d, map[0 := 1], 2, 1);
    var last := AllocAt(d, map[0 := 1, 1 := 2], 1, 3);
  }

  /** A region of four bytes with one free byte in front of two blocks. */
  method Fragmented() returns (d: GuestDirectory, held: Handle)
    ensures fresh(d) && d.Valid() && held == Handle(1, 1, 1)
    ensures |d.pools| == 1 && d.slots == [None, Some(Entry(1, 4, false, false, 0, 0, D.Freelist(map[1 := 2, 3 := 1])))]
  {
    var first;
    d, first, held := Filled();
    var gone := d.Dealloc(first);
    var live: Live := map[0 := 1, 1 := 2, 3 := 1];
    assert live - {0} == map[1 := 2, 3 := 1];
  }

  /** Two bytes through the directory. */
  method ReadPool(d: GuestDirectory, mem: array<byte>, h: Handle) returns (r: Result<bytes>)
    requires d.Valid()
    ensures r == GuestRead(d.slots, [mem[..]], h, 2)
  {
    var at := d.Resolve(h);
    if at.Err? { return Err(at.error); }
    var (pool, off) := at.value;
    if off + 2 > U32_MAX || pool > 0 || off + 2 > mem.Length { return Err(OutOfBounds); }
    return Ok(mem[off..off + 2]);
  }

  lemma TwoBlocks()
    ensures var blocks := SortedBlocks(map[1 := 2, 3 := 1]);
      && FirstMisfit(blocks, 0, 0, 3) == 1 && |blocks| == 2
      && AfterSlides(blocks, 1, 0, [9, 1, 2]) == [1, 2, 2]
  {
    var live: Live := map[1 := 2, 3 := 1];
    var blocks := [Block(1, 2), Block(3, 1)];
    assert live.Keys == {1, 3} && MinKey(live.Keys) == 1;
    var rest: Live := map[3 := 1];
    assert live - {1} == rest;
    assert rest.Keys == {3} && MinKey(rest.Keys) == 3;
    assert rest - {3} == map[];
    assert SortedBlocks(live) == blocks;
    assert blocks[..0] == [] && blocks[..1] == [Block(1, 2)] && [Block(1, 2)][1..] == [];
    assert Landing(blocks, 0) == 0 && Landing(blocks, 1) == 2;
    var before: bytes := [9, 1, 2];
    assert before[1..3] == [1, 2];
    assert AfterSlides(blocks, 0, 0, before) == before;
    assert AfterSlides(blocks, 1, 0, before) == SlideStep(before, blocks[0], 0, 0) == [1, 2, 2];
  }

  /** A compaction whose second copy leaves the memory is refused after its first one. */
  method RefusedHalfway(d: GuestDirectory, mem: array<byte>) returns (r: Result<HandleRemap>)
    requires d.Valid() && |d.slots| == 2 && mem.Length == 3 && mem[..] == [9, 1, 2]
    requires d.slots[1] == Some(Entry(1, 4, false, false, 0, 0, D.Freelist(map[1 := 2, 3 := 1])))
    modifies d`slots, mem
    ensures d.Valid() && d.slots == old(d.slots) && r == Err(OutOfBounds) && mem[..] == [1, 2, 2]
  {
    TwoBlocks();
    r := d.CompactRegion(1, mem);
  }

  lemma HeldBytes(slots: Slots, mem: bytes)
    requires |slots| == 2 && slots[1] == Some(Entry(1, 4, false, false, 0, 0, D.Freelist(map[1 := 2, 3 := 1]))) && |mem| == 3
    ensures GuestRead(slots, [mem], Handle(1, 1, 1), 2) == Ok(mem[1..3])
  {
    assert ResolveIn(slots, Handle(1, 1, 1)) == Ok((0, 1));
  }

  /** The block at 1 held 1, 2 and is still listed there after the refusal, but now reads 2, 2. */
  method RefusedCompactionLosesBytes() returns (r: Result<HandleRemap>, before: Result<bytes>, after: Result<bytes>)
    ensures r == Err(OutOfBounds) && before == Ok([1, 2]) && after == Ok([2, 2])
  {
    var d, held := Fragmented();
    var mem := new byte[3](i => if i == 0 then 9 else if i == 1 then 1 else 2);
    assert mem[..] == [9, 1, 2] && mem[..][1..3] == [1, 2];
    HeldBytes(d.slots, mem[..]);
    before := ReadPool(d, mem, held);
    r := RefusedHalfway(d, mem);
    assert mem[..][1..3] == [2, 2];
    HeldBytes(d.slots, mem[..]);
    after := ReadPool(d, mem, held);
  }

  /** A facade over one pinnable region of one byte. */
  method Pinnable() returns (t: GuestTvm)
    ensures fresh(t) && fresh(t.directory) && t.Valid() && fresh(t.mems)
    ensures |t.directory.slots| == 2 && t.directory.slots[1].Some? && t.directory.slots[1].value.pinnable
  {
    var d := new GuestDirectory([Pool(0, 1)]);
    var id := CreateInPool(d, D.HotHeap, 1);
    var mem := new byte[1](_ => 0);
    t := new GuestTvm(d, [mem]);
  }

  /** The compaction of a pinned region is refused. */
  lemma PinnedRefused(id: u16, r: Result<HandleRemap>, before: Slots, after: Slots, was: seq<bytes>, now: seq<bytes>)
    requires AsDirectory(id, r, before, after, was, now) && id < |before| && before[id].Some? && before[id].value.pinned
    ensures r == Err(Pinned)
  {
  }

  /** A region pinned once can never be compacted, although it has been unpinned. */
  method UnpinnedStaysPinned() returns (pinned: Result<()>, unpinned: Result<()>, r: Result<HandleRemap>)
    ensures pinned.Ok? && unpinned.Ok? && r == Err(Pinned)
  {
    var t := Pinnable();
    pinned := t.Pin(1);
    unpinned := t.Unpin(1);
    ghost var before, was := t.directory.slots, t.Contents();
    r := t.CompactRegion(1);
    PinnedRefused(1, r, before, t.directory.slots, was, t.Contents());
  }
}
