/**
 * Compaction as a function of the live blocks: where each block lands, what the packed bytes are,
 * and how handles follow. The host and the guest compactors are both proved against it.
 */
module Compaction {
  import opened Core
  import opened Allocator
  import opened Bits

  datatype HandleRemap = HandleRemap(regionId: u16, oldGeneration: u16, newGeneration: u16, mapping: map<u32, u32>) {
    function Migrate(h: Handle): Option<Handle> {
      if h.regionId != regionId || h.generation != oldGeneration then None
      else if h.offset !in mapping then None
      else Some(Handle(h.regionId, newGeneration, mapping[h.offset]))
    }
  }

  /** `blocks` moved end to end from `cursor`. */
  function PackFrom(blocks: seq<Block>, cursor: nat): seq<Block>
    requires cursor + TotalSize(blocks) <= U32_MAX
  {
    if blocks == [] then []
    else [Block(cursor, blocks[0].size)] + PackFrom(blocks[1..], cursor + blocks[0].size)
  }

  /** Old offset to new offset. */
  function MappingFrom(blocks: seq<Block>, cursor: nat): map<u32, u32>
    requires cursor + TotalSize(blocks) <= U32_MAX
  {
    if blocks == [] then map[]
    else MappingFrom(blocks[1..], cursor + blocks[0].size)[blocks[0].off := cursor]
  }

  predicate Within(blocks: seq<Block>, limit: int) { forall b :: b in blocks ==> b.End() <= limit }

  /** The bytes of the blocks, one after another. */
  function Gather(blocks: seq<Block>, mem: bytes): bytes
    requires Within(blocks, |mem|)
  {
    if blocks == [] then []
    else
      assert blocks[0] in blocks;
      mem[blocks[0].off..blocks[0].End()] + Gather(blocks[1..], mem)
  }

  lemma {:induction false} PackFromLayout(blocks: seq<Block>, cursor: nat)
    requires cursor + TotalSize(blocks) <= U32_MAX && forall b :: b in blocks ==> b.size > 0
    ensures Packed(PackFrom(blocks, cursor), cursor)
    ensures |PackFrom(blocks, cursor)| == |blocks| && TotalSize(PackFrom(blocks, cursor)) == TotalSize(blocks)
  {
    if blocks != [] {
      assert blocks[0] in blocks;
      PackFromLayout(blocks[1..], cursor + blocks[0].size);
    }
  }

  lemma {:induction false} GatherSize(blocks: seq<Block>, mem: bytes)
    requires Within(blocks, |mem|)
    ensures |Gather(blocks, mem)| == TotalSize(blocks)
  {
    if blocks != [] {
      assert blocks[0] in blocks;
      GatherSize(blocks[1..], mem);
    }
  }

  /** Where block `i` starts after packing. */
  function Landing(blocks: seq<Block>, i: nat): nat
    requires i <= |blocks|
  {
    TotalSize(blocks[..i])
  }

  lemma LandingTail(blocks: seq<Block>, i: nat)
    requires 0 < i <= |blocks|
    ensures Landing(blocks, i) == blocks[0].size + Landing(blocks[1..], i - 1)
  {
    assert blocks[..i] == [blocks[0]] + blocks[1..][..i - 1];
  }

  lemma {:induction false} LandingNext(blocks: seq<Block>, i: nat)
    requires i < |blocks|
    ensures Landing(blocks, i + 1) == Landing(blocks, i) + blocks[i].size
  {
    LandingTail(blocks, i + 1);
    if i > 0 {
      LandingNext(blocks[1..], i - 1);
      LandingTail(blocks, i);
    }
  }

  lemma LandingSplit(blocks: seq<Block>, i: nat)
    requires i <= |blocks|
    ensures Landing(blocks, i) + TotalSize(blocks[i..]) == TotalSize(blocks)
  {
    assert blocks == blocks[..i] + blocks[i..];
    TotalSizeAppend(blocks[..i], blocks[i..]);
  }

  lemma LandingStep(blocks: seq<Block>, i: nat)
    requires i < |blocks|
    ensures Landing(blocks, i + 1) == Landing(blocks, i) + blocks[i].size
    ensures Landing(blocks, i + 1) + TotalSize(blocks[i + 1..]) == TotalSize(blocks)
  {
    LandingNext(blocks, i);
    LandingSplit(blocks, i + 1);
  }

  /** The mapping is defined on exactly the block starts and sends block `i` to its landing place. */
  lemma MappingEntries(blocks: seq<Block>, cursor: nat, lo: int, capacity: u32)
    requires Apart(blocks, lo, capacity) && cursor + TotalSize(blocks) <= U32_MAX
    ensures forall o :: o in MappingFrom(blocks, cursor) <==> exists b :: b in blocks && b.off == o
    ensures forall i :: 0 <= i < |blocks| ==>
      blocks[i].off in MappingFrom(blocks, cursor) && MappingFrom(blocks, cursor)[blocks[i].off] == cursor + Landing(blocks, i)
  {
    MappingKeys(blocks, cursor);
    forall i | 0 <= i < |blocks|
      ensures blocks[i].off in MappingFrom(blocks, cursor) && MappingFrom(blocks, cursor)[blocks[i].off] == cursor + Landing(blocks, i)
    {
      MappingEntry(blocks, cursor, lo, capacity, i);
    }
  }

  lemma {:induction false} MappingKeys(blocks: seq<Block>, cursor: nat)
    requires cursor + TotalSize(blocks) <= U32_MAX
    ensures forall o :: o in MappingFrom(blocks, cursor) <==> exists b :: b in blocks && b.off == o
  {
    if blocks != [] {
      var m, rest := MappingFrom(blocks, cursor), MappingFrom(blocks[1..], cursor + blocks[0].size);
      MappingKeys(blocks[1..], cursor + blocks[0].size);
      assert m == rest[blocks[0].off := cursor];
      forall o: u32 ensures o in m <==> exists b :: b in blocks && b.off == o {
        if o in m && o != blocks[0].off {
          assert o in rest;
          var b :| b in blocks[1..] && b.off == o;
          assert b in blocks;
        }
        if b :| b in blocks && b.off == o { assert b == blocks[0] || b in blocks[1..]; }
        if o == blocks[0].off { assert blocks[0] in blocks; }
      }
    }
  }

  lemma {:induction false} MappingEntry(blocks: seq<Block>, cursor: nat, lo: int, capacity: u32, i: nat)
    requires Apart(blocks, lo, capacity) && cursor + TotalSize(blocks) <= U32_MAX && i < |blocks|
    ensures blocks[i].off in MappingFrom(blocks, cursor) && MappingFrom(blocks, cursor)[blocks[i].off] == cursor + Landing(blocks, i)
  {
    if i > 0 {
      MappingEntry(blocks[1..], cursor + blocks[0].size, blocks[0].End(), capacity, i - 1);
      ApartAbove(blocks[1..], blocks[0].End(), capacity);
      assert blocks[i] == blocks[1..][i - 1] && blocks[i] in blocks[1..];
      LandingTail(blocks, i);
    }
  }

  lemma {:induction false} PackFromEntries(blocks: seq<Block>, cursor: nat, i: nat)
    requires cursor + TotalSize(blocks) <= U32_MAX && i < |blocks|
    ensures |PackFrom(blocks, cursor)| == |blocks|
    ensures cursor + Landing(blocks, i) <= U32_MAX
    ensures PackFrom(blocks, cursor)[i] == Block(cursor + Landing(blocks, i), blocks[i].size)
  {
    PackFromSize(blocks, cursor);
    if i > 0 {
      assert blocks[..i] == [blocks[0]] + blocks[1..][..i - 1];
      PackFromEntries(blocks[1..], cursor + blocks[0].size, i - 1);
    }
  }

  lemma {:induction false} PackFromSize(blocks: seq<Block>, cursor: nat)
    requires cursor + TotalSize(blocks) <= U32_MAX
    ensures |PackFrom(blocks, cursor)| == |blocks|
  {
    if blocks != [] { PackFromSize(blocks[1..], cursor + blocks[0].size); }
  }

  /** Packing carries block `i` to its landing place byte for byte. */
  lemma {:induction false} GatherAt(blocks: seq<Block>, mem: bytes, i: nat)
    requires Within(blocks, |mem|) && i < |blocks|
    ensures blocks[i] in blocks && Landing(blocks, i) + blocks[i].size <= |Gather(blocks, mem)|
    ensures Gather(blocks, mem)[Landing(blocks, i)..Landing(blocks, i) + blocks[i].size] == mem[blocks[i].off..blocks[i].End()]
  {
    assert blocks[0] in blocks && blocks[i] in blocks;
    var head := mem[blocks[0].off..blocks[0].End()];
    var rest := Gather(blocks[1..], mem);
    if i == 0 {
      assert (head + rest)[..|head|] == head;
    } else {
      GatherAt(blocks[1..], mem, i - 1);
      LandingTail(blocks, i);
      ShiftSlice(head, rest, Landing(blocks[1..], i - 1), blocks[i].size);
    }
  }

  lemma ShiftSlice(a: bytes, b: bytes, at: nat, n: nat)
    requires at + n <= |b|
    ensures (a + b)[|a| + at..|a| + at + n] == b[at..at + n]
  {
  }

  lemma PrefixSlice(a: bytes, b: bytes, at: nat, n: nat)
    requires at + n <= |a|
    ensures (a + b)[at..at + n] == a[at..at + n]
  {
  }

  lemma {:induction false} LandingMonotone(blocks: seq<Block>, i: nat, j: nat)
    requires i < j < |blocks| && forall b :: b in blocks ==> b.size > 0
    ensures Landing(blocks, i) < Landing(blocks, j)
    decreases j
  {
    LandingStep(blocks, j - 1);
    assert blocks[j - 1] in blocks;
    if i < j - 1 { LandingMonotone(blocks, i, j - 1); }
  }

  /** What compaction does to a region's live blocks and bytes. */
  datatype Compacted = Compacted(live: Live, mem: bytes, mapping: map<u32, u32>)

  function Compact(live: Live, mem: bytes, capacity: u32): Compacted
    requires LiveOk(live, capacity) && Within(SortedBlocks(live), |mem|)
  {
    var blocks := SortedBlocks(live);
    LiveBytesBound(live, capacity);
    GatherSize(blocks, mem);
    Compacted(AsMap(PackFrom(blocks, 0)),
              Gather(blocks, mem) + Zeros(capacity - TotalSize(blocks)),
              MappingFrom(blocks, 0))
  }

  lemma CompactShape(live: Live, mem: bytes, capacity: u32)
    requires LiveOk(live, capacity) && Within(SortedBlocks(live), |mem|)
    ensures var c := Compact(live, mem, capacity);
      && LiveOk(c.live, capacity) && |c.mem| == capacity && LiveBytes(c.live) == LiveBytes(live)
      && SortedBlocks(c.live) == PackFrom(SortedBlocks(live), 0)
  {
    var blocks := SortedBlocks(live);
    LiveBytesBound(live, capacity);
    GatherSize(blocks, mem);
    SortedBlocksApart(live, 0, capacity);
    ApartAbove(blocks, 0, capacity);
    PackFromLayout(blocks, 0);
    PackedLive(PackFrom(blocks, 0), capacity);
    PackedSorted(PackFrom(blocks, 0), capacity);
  }

  /** All free space of a compacted region is one block at its end. */
  lemma CompactLeavesOneTail(live: Live, mem: bytes, capacity: u32)
    requires LiveOk(live, capacity) && Within(SortedBlocks(live), |mem|)
    ensures LiveBytes(live) <= capacity
    ensures State(capacity, Tail(LiveBytes(live), capacity), Compact(live, mem, capacity).live, LiveBytes(live))
  {
    var blocks := SortedBlocks(live);
    LiveBytesBound(live, capacity);
    SortedBlocksApart(live, 0, capacity);
    ApartAbove(blocks, 0, capacity);
    PackFromLayout(blocks, 0);
    PackedState(PackFrom(blocks, 0), capacity);
  }

  /** The index of a live block in address order. */
  lemma IndexOf(live: Live, o: u32) returns (i: nat)
    requires o in live
    ensures i < |SortedBlocks(live)| && SortedBlocks(live)[i] == Block(o, live[o])
  {
    SortedBlocksElements(live);
    assert Block(o, live[o]) in SortedBlocks(live);
    i :| 0 <= i < |SortedBlocks(live)| && SortedBlocks(live)[i] == Block(o, live[o]);
  }

  /** Migration is defined on exactly the starts of live blocks. */
  lemma MappingDomain(live: Live, mem: bytes, capacity: u32)
    requires LiveOk(live, capacity) && Within(SortedBlocks(live), |mem|)
    ensures Compact(live, mem, capacity).mapping.Keys == live.Keys
  {
    var blocks := SortedBlocks(live);
    LiveBytesBound(live, capacity);
    SortedBlocksApart(live, 0, capacity);
    MappingEntries(blocks, 0, 0, capacity);
    SortedBlocksElements(live);
    forall o ensures o in MappingFrom(blocks, 0) <==> o in live {
      if o in live { assert Block(o, live[o]) in blocks; }
    }
  }

  lemma MigratedOffset(live: Live, mem: bytes, capacity: u32, i: nat)
    requires LiveOk(live, capacity) && Within(SortedBlocks(live), |mem|) && i < |SortedBlocks(live)|
    ensures var c := Compact(live, mem, capacity); var b := SortedBlocks(live)[i]; var at := Landing(SortedBlocks(live), i);
      && b.off in c.mapping && c.mapping[b.off] == at
      && at in c.live && c.live[at] == b.size
  {
    var blocks := SortedBlocks(live);
    CompactShape(live, mem, capacity);
    LiveBytesBound(live, capacity);
    SortedBlocksApart(live, 0, capacity);
    MappingEntries(blocks, 0, 0, capacity);
    PackFromEntries(blocks, 0, i);
    SortedBlocksElements(Compact(live, mem, capacity).live);
    assert PackFrom(blocks, 0)[i] in PackFrom(blocks, 0);
  }

  lemma PackedBytesAt(blocks: seq<Block>, mem: bytes, fill: bytes, i: nat)
    requires Within(blocks, |mem|) && i < |blocks|
    ensures var at := Landing(blocks, i);
      && blocks[i].End() <= |mem| && at + blocks[i].size <= |Gather(blocks, mem) + fill|
      && Slice(Gather(blocks, mem) + fill, at, blocks[i].size) == Slice(mem, blocks[i].off, blocks[i].size)
  {
    GatherAt(blocks, mem, i);
    InFront(Gather(blocks, mem), fill, Landing(blocks, i), mem, blocks[i].off, blocks[i].size);
  }

  lemma InFront(packed: bytes, fill: bytes, at: nat, mem: bytes, off: nat, n: nat)
    requires at + n <= |packed| && off + n <= |mem| && packed[at..at + n] == mem[off..off + n]
    ensures Slice(packed + fill, at, n) == Slice(mem, off, n)
  {
    PrefixSlice(packed, fill, at, n);
  }

  /** A migrated block is live, has its old size and holds its old bytes. */
  lemma MigratedBlock(live: Live, mem: bytes, capacity: u32, o: u32)
    requires LiveOk(live, capacity) && Within(SortedBlocks(live), |mem|) && o in live
    ensures var c := Compact(live, mem, capacity);
      && o in c.mapping && c.mapping[o] in c.live && c.live[c.mapping[o]] == live[o]
      && c.mapping[o] + live[o] <= |c.mem| && o + live[o] <= |mem|
      && Slice(c.mem, c.mapping[o], live[o]) == Slice(mem, o, live[o])
  {
    var i := IndexOf(live, o);
    MigratedOffset(live, mem, capacity, i);
    LiveBytesBound(live, capacity);
    PackedBytesAt(SortedBlocks(live), mem, Zeros(capacity - LiveBytes(live)), i);
  }

  /** Migration keeps address order, so it is injective. */
  lemma MigrationOrder(live: Live, mem: bytes, capacity: u32, o: u32, q: u32)
    requires LiveOk(live, capacity) && Within(SortedBlocks(live), |mem|)
    requires o in live && q in live && o < q
    ensures var m := Compact(live, mem, capacity).mapping;
      o in m && q in m && m[o] < m[q]
  {
    var blocks := SortedBlocks(live);
    LiveBytesBound(live, capacity);
    SortedBlocksApart(live, 0, capacity);
    ApartAbove(blocks, 0, capacity);
    MappingEntries(blocks, 0, 0, capacity);
    var i := IndexOf(live, o);
    var j := IndexOf(live, q);
    if i < j {
      LandingMonotone(blocks, i, j);
    } else {
      ApartIndex(blocks, 0, capacity, j, i);
    }
  }

  lemma {:induction false} ApartIndex(blocks: seq<Block>, lo: int, capacity: u32, i: nat, j: nat)
    requires Apart(blocks, lo, capacity) && i <= j < |blocks|
    ensures i == j || blocks[i].End() <= blocks[j].off
  {
    if i > 0 {
      ApartIndex(blocks[1..], blocks[0].End(), capacity, i - 1, j - 1);
    } else if j > 0 {
      ApartAbove(blocks[1..], blocks[0].End(), capacity);
      assert blocks[j] in blocks[1..];
    }
  }

  /** Compacting a packed region again moves nothing. */
  lemma CompactTwice(live: Live, mem: bytes, capacity: u32)
    requires LiveOk(live, capacity) && Within(SortedBlocks(live), |mem|)
    ensures var c := Compact(live, mem, capacity);
      && LiveOk(c.live, capacity) && Within(SortedBlocks(c.live), |c.mem|)
      && var d := Compact(c.live, c.mem, capacity);
      && d.live == c.live && d.mem == c.mem && forall o :: o in d.mapping ==> d.mapping[o] == o
  {
    var c := Compact(live, mem, capacity);
    var blocks := SortedBlocks(live);
    var packed := PackFrom(blocks, 0);
    CompactShape(live, mem, capacity);
    LiveBytesBound(live, capacity);
    SortedBlocksApart(live, 0, capacity);
    ApartAbove(blocks, 0, capacity);
    PackFromLayout(blocks, 0);
    PackedBounds(packed, 0);
    PackAgain(packed, 0);
    GatherPacked(packed, 0, c.mem);
    GatherSize(blocks, mem);
    var n := TotalSize(blocks);
    assert c.mem == c.mem[..n] + Zeros(capacity - n);
  }

  /** The bytes of a first block and of what follows it. */
  lemma HeadBytes(b: Block, rest: nat, mem: bytes)
    requires b.End() + rest <= |mem|
    ensures mem[b.off..b.End()] + mem[b.End()..b.End() + rest] == mem[b.off..b.End() + rest]
  {
  }

  lemma {:induction false} PackAgain(packed: seq<Block>, start: nat)
    requires Packed(packed, start) && start + TotalSize(packed) <= U32_MAX
    ensures PackFrom(packed, start) == packed
    ensures forall o :: o in MappingFrom(packed, start) ==> MappingFrom(packed, start)[o] == o
  {
    if packed != [] { PackAgain(packed[1..], start + packed[0].size); }
  }

  lemma GatherHead(blocks: seq<Block>, mem: bytes)
    requires blocks != [] && Within(blocks, |mem|)
    ensures blocks[0] in blocks && Within(blocks[1..], |mem|)
    ensures Gather(blocks, mem) == mem[blocks[0].off..blocks[0].End()] + Gather(blocks[1..], mem)
  {
  }

  lemma {:induction false} GatherPacked(packed: seq<Block>, start: nat, mem: bytes)
    requires Packed(packed, start) && Within(packed, |mem|) && start + TotalSize(packed) <= |mem|
    ensures Gather(packed, mem) == mem[start..start + TotalSize(packed)]
  {
    if packed != [] {
      assert packed[0] in packed;
      var b, rest := packed[0], packed[1..];
      GatherPacked(rest, start + b.size, mem);
      GatherHead(packed, mem);
      HeadBytes(b, TotalSize(rest), mem);
    }
  }

  // ---------------------------------------------------------------------------------------------
  // Generations.
  // ---------------------------------------------------------------------------------------------

  function GenerationAfter(g: u16, bumps: nat): u16 {
    if bumps == 0 then g else NextGeneration(GenerationAfter(g, bumps - 1))
  }

  lemma {:induction false} GenerationClosedForm(g: u16, bumps: nat)
    requires g != 0
    ensures GenerationAfter(g, bumps) == (g - 1 + bumps) % 65535 + 1
  {
    if bumps > 0 {
      GenerationClosedForm(g, bumps - 1);
      var x := g - 2 + bumps;
      var q, r := x / 65535, x % 65535;
      DivModUnique(x + 1, 65535, if r == 65534 then q + 1 else q, if r == 65534 then 0 else r + 1);
    }
  }

  /** Generations never hit 0 and come back exactly every 65535 bumps, so an old handle is rejected
      for the next 1 to 65534 bumps. */
  lemma GenerationCycle(g: u16, bumps: nat)
    requires g != 0
    ensures GenerationAfter(g, bumps) != 0
    ensures GenerationAfter(g, bumps) == g <==> bumps % 65535 == 0
  {
    GenerationClosedForm(g, bumps);
    var x := g - 1;
    var q, r := bumps / 65535, bumps % 65535;
    if x + r < 65535 { DivModUnique(x + bumps, 65535, q, x + r); } else { DivModUnique(x + bumps, 65535, q + 1, x + r - 65535); }
  }
}
