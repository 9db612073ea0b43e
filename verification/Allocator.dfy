/**
 * The first-fit free list. Its live blocks are the abstract state; `FirstFit`, a scan over every
 * offset, is the reference definition of allocation; the class is the list of free runs that
 * splits and coalesces in place.
 */
module Allocator {
  import opened Core
  import opened Bits

  type Live = map<u32, u32>

  // ---------------------------------------------------------------------------------------------
  // Live blocks in address order.
  // ---------------------------------------------------------------------------------------------

  /** The least key at or above `from`. */
  function NextKey(keys: set<u32>, from: nat): (k: u32)
    requires exists k :: k in keys && from <= k
    ensures k in keys && from <= k && forall o :: o in keys && from <= o ==> k <= o
    decreases TWO_32 - from
  {
    if from in keys then from else NextKey(keys, from + 1)
  }

  function MinKey(keys: set<u32>): (k: u32)
    requires keys != {}
    ensures k in keys && forall o :: o in keys ==> k <= o
  {
    NextKey(keys, 0)
  }

  /** The live blocks sorted by offset, as iterating the ordered map yields them. */
  function SortedBlocks(live: Live): seq<Block>
    decreases |live|
  {
    if live == map[] then []
    else
      var k := MinKey(live.Keys);
      [Block(k, live[k])] + SortedBlocks(live - {k})
  }

  lemma {:induction false} SortedBlocksElements(live: Live)
    ensures forall b :: b in SortedBlocks(live) <==> b.off in live && live[b.off] == b.size
    decreases |live|
  {
    if live != map[] {
      var k := MinKey(live.Keys);
      SortedBlocksElements(live - {k});
      forall b ensures b in SortedBlocks(live) <==> b.off in live && live[b.off] == b.size {
        assert b in SortedBlocks(live) <==> b == Block(k, live[k]) || b in SortedBlocks(live - {k});
      }
    }
  }

  /** Non-empty blocks in address order from `lo` on, inside the region. */
  predicate Apart(blocks: seq<Block>, lo: int, capacity: u32) {
    blocks != [] ==>
      && lo <= blocks[0].off
      && blocks[0].size > 0
      && blocks[0].End() <= capacity
      && Apart(blocks[1..], blocks[0].End(), capacity)
  }

  /** Without its lowest block the rest lies above that block. */
  lemma RestAbove(live: Live, k: u32, capacity: u32)
    requires LiveOk(live, capacity) && k in live && forall o :: o in live ==> k <= o
    ensures LiveOk(live - {k}, capacity) && forall o :: o in live - {k} ==> k + live[k] <= o
  {
  }

  lemma {:induction false} SortedBlocksApart(live: Live, lo: int, capacity: u32)
    requires LiveOk(live, capacity) && forall o :: o in live ==> lo <= o
    ensures Apart(SortedBlocks(live), lo, capacity)
    decreases |live|
  {
    if live != map[] {
      var k := MinKey(live.Keys);
      RestAbove(live, k, capacity);
      SortedBlocksApart(live - {k}, k + live[k], capacity);
    }
  }

  lemma {:induction false} ApartAbove(blocks: seq<Block>, lo: int, capacity: u32)
    requires Apart(blocks, lo, capacity)
    ensures forall b :: b in blocks ==> lo <= b.off && b.size > 0 && b.End() <= capacity
    ensures lo <= capacity ==> TotalSize(blocks) <= capacity - lo
  {
    if blocks != [] { ApartAbove(blocks[1..], blocks[0].End(), capacity); }
  }

  /** Address order leaves one way to list a set of disjoint blocks. */
  lemma {:induction false} ApartUnique(a: seq<Block>, b: seq<Block>, lo: int, capacity: u32)
    requires Apart(a, lo, capacity) && Apart(b, lo, capacity)
    requires forall x :: x in a <==> x in b
    ensures a == b
  {
    if a != [] { assert a[0] in b; }
    if b != [] { assert b[0] in a; }
    if a != [] && b != [] {
      ApartAbove(a[1..], a[0].End(), capacity);
      ApartAbove(b[1..], b[0].End(), capacity);
      assert a[0] == b[0];
      forall x ensures x in a[1..] <==> x in b[1..] {
        assert x in a <==> x == a[0] || x in a[1..];
        assert x in b <==> x == b[0] || x in b[1..];
      }
      ApartUnique(a[1..], b[1..], a[0].End(), capacity);
    }
  }

  function LiveBytes(live: Live): nat { TotalSize(SortedBlocks(live)) }

  lemma {:induction false} LiveBytesRemove(live: Live, k: u32)
    requires k in live
    ensures LiveBytes(live) == live[k] + LiveBytes(live - {k})
    decreases |live|
  {
    var m := MinKey(live.Keys);
    if k != m {
      LiveBytesRemove(live - {m}, k);
      assert (live - {k}).Keys == live.Keys - {k};
      MinKeyWithout(live.Keys, k);
      assert live - {m} - {k} == live - {k} - {m};
    }
  }

  lemma MinKeyWithout(keys: set<u32>, k: u32)
    requires k in keys && k != MinKey(keys)
    ensures keys - {k} != {} && MinKey(keys - {k}) == MinKey(keys)
  {
    assert MinKey(keys) in keys - {k};
  }

  lemma LiveBytesInsert(live: Live, k: u32, size: u32)
    requires k !in live
    ensures LiveBytes(live[k := size]) == LiveBytes(live) + size
  {
    LiveBytesRemove(live[k := size], k);
    assert live[k := size] - {k} == live;
  }

  // ---------------------------------------------------------------------------------------------
  // Reference semantics over live blocks alone.
  // ---------------------------------------------------------------------------------------------

  predicate LiveByte(live: Live, p: int) { exists o :: o in live && o <= p < o + live[o] }

  /** Live blocks are non-empty, disjoint and inside the region. */
  ghost predicate LiveOk(live: Live, capacity: u32) {
    && (forall o :: o in live ==> live[o] > 0 && o + live[o] <= capacity)
    && (forall o, q :: o in live && q in live && o < q ==> o + live[o] <= q)
  }

  /** `[o, o + size)` lies in the region and touches no live byte. */
  predicate Vacant(live: Live, capacity: u32, o: int, size: u32) {
    0 <= o && o + size <= capacity && forall p :: o <= p < o + size ==> !LiveByte(live, p)
  }

  predicate Fits(live: Live, capacity: u32, o: int, size: u32, align: u32)
    requires align > 0
  {
    o % align == 0 && Vacant(live, capacity, o, size)
  }

  /** The lowest aligned offset at or above `from` that fits, found by trying each one. */
  function ScanFit(live: Live, capacity: u32, size: u32, align: u32, from: nat): (r: Option<u32>)
    requires align > 0
    ensures r.Some? ==> from <= r.value && Fits(live, capacity, r.value, size, align)
    ensures r.Some? ==> forall o :: from <= o < r.value ==> !Fits(live, capacity, o, size, align)
    ensures r.None? ==> forall o :: from <= o ==> !Fits(live, capacity, o, size, align)
    decreases capacity - from
  {
    if from + size > capacity then None
    else if Fits(live, capacity, from, size, align) then Some(from)
    else if from == capacity then None
    else ScanFit(live, capacity, size, align, from + 1)
  }

  function FirstFit(live: Live, capacity: u32, size: u32, align: u32): Result<u32> {
    if size == 0 || !GoodAlign(align) then Err(AllocationFailed)
    else
      var r := ScanFit(live, capacity, size, align, 0);
      if r.Some? then Ok(r.value) else Err(AllocationFailed)
  }

  lemma FirstFitKeepsLiveOk(live: Live, capacity: u32, size: u32, align: u32)
    requires LiveOk(live, capacity) && FirstFit(live, capacity, size, align).Ok?
    ensures var o := FirstFit(live, capacity, size, align).value;
      o !in live && LiveOk(live[o := size], capacity)
  {
    var o := FirstFit(live, capacity, size, align).value;
    assert !LiveByte(live, o) && !LiveByte(live, o + size - 1);
    forall q | q in live ensures q + live[q] <= o || o + size <= q {
      if o <= q < o + size { assert LiveByte(live, q); }
    }
  }

  // ---------------------------------------------------------------------------------------------
  // The free list.
  // ---------------------------------------------------------------------------------------------

  predicate FreeByte(free: seq<Block>, p: int) {
    free != [] && (free[0].Covers(p) || FreeByte(free[1..], p))
  }

  /** Non-empty blocks in address order beyond `lo`, no two of them touching. */
  predicate Coalesced(free: seq<Block>, lo: int, capacity: u32) {
    free != [] ==>
      && lo < free[0].off
      && free[0].size > 0
      && free[0].End() <= capacity
      && Coalesced(free[1..], free[0].End(), capacity)
  }

  /** Free and live bytes partition the region. */
  ghost predicate Tiles(free: seq<Block>, live: Live, capacity: u32) {
    forall p :: 0 <= p < capacity ==> (FreeByte(free, p) <==> !LiveByte(live, p))
  }

  /** The free list as a partner of the live blocks. A region without bytes may keep one empty block. */
  ghost predicate FreeOk(capacity: u32, free: seq<Block>, live: Live) {
    if capacity == 0 then free == [] || free == [Block(0, 0)]
    else Coalesced(free, -1, capacity) && Tiles(free, live, capacity)
  }

  /** Free and live blocks tile `[0, capacity)`; `used` is the sum of the live sizes. */
  ghost predicate State(capacity: u32, free: seq<Block>, live: Live, used: u32) {
    LiveOk(live, capacity) && FreeOk(capacity, free, live) && used == LiveBytes(live)
  }

  /** Where the next block after `free` may start. */
  function LastEnd(free: seq<Block>, lo: int): int {
    if free == [] then lo else free[|free| - 1].End()
  }

  lemma {:induction false} CoalescedConcat(a: seq<Block>, b: seq<Block>, lo: int, capacity: u32)
    ensures Coalesced(a + b, lo, capacity) <==> Coalesced(a, lo, capacity) && Coalesced(b, LastEnd(a, lo), capacity)
  {
    if a == [] {
      assert a + b == b;
    } else {
      assert (a + b)[1..] == a[1..] + b;
      CoalescedConcat(a[1..], b, a[0].End(), capacity);
    }
  }

  lemma {:induction false} FreeByteConcat(a: seq<Block>, b: seq<Block>, p: int)
    ensures FreeByte(a + b, p) <==> FreeByte(a, p) || FreeByte(b, p)
  {
    if a == [] {
      assert a + b == b;
    } else {
      assert (a + b)[1..] == a[1..] + b;
      FreeByteConcat(a[1..], b, p);
    }
  }

  lemma {:induction false} FreeByteBounds(free: seq<Block>, lo: int, capacity: u32, p: int)
    requires Coalesced(free, lo, capacity)
    ensures FreeByte(free, p) ==> lo < p < LastEnd(free, lo)
    ensures lo <= LastEnd(free, lo) && (free != [] ==> LastEnd(free, lo) <= capacity)
  {
    if free != [] { FreeByteBounds(free[1..], free[0].End(), capacity, p); }
  }

  /** A run of free bytes never spans two blocks, because neighbours would have been coalesced. */
  lemma {:induction false} RunInOneBlock(free: seq<Block>, lo: int, capacity: u32, o: int, size: u32) returns (i: nat)
    requires Coalesced(free, lo, capacity)
    requires size > 0 && forall p :: o <= p < o + size ==> FreeByte(free, p)
    ensures i < |free| && free[i].off <= o && o + size <= free[i].End()
  {
    assert FreeByte(free, o);
    if free[0].Covers(o) {
      i := 0;
      FreeByteBounds(free[1..], free[0].End(), capacity, free[0].End());
      assert !FreeByte(free, free[0].End());
    } else {
      FreeByteBounds(free[1..], free[0].End(), capacity, o);
      forall p | o <= p < o + size ensures FreeByte(free[1..], p) { assert FreeByte(free, p); }
      i := RunInOneBlock(free[1..], free[0].End(), capacity, o, size);
      i := i + 1;
    }
  }

  /** Two coalesced lists covering the same bytes are the same list: the free list carries no
      information beyond which blocks are live. */
  lemma {:induction false} CoalescedUnique(a: seq<Block>, b: seq<Block>, lo: int, capacity: u32)
    requires Coalesced(a, lo, capacity) && Coalesced(b, lo, capacity)
    requires forall p :: FreeByte(a, p) <==> FreeByte(b, p)
    ensures a == b
  {
    if a != [] { assert FreeByte(a, a[0].off); }
    if b != [] { assert FreeByte(b, b[0].off); }
    if a != [] && b != [] {
      FirstBlockCovered(a, b, lo, capacity);
      FirstBlockCovered(b, a, lo, capacity);
      assert a[0] == b[0];
      forall p ensures FreeByte(a[1..], p) <==> FreeByte(b[1..], p) {
        FreeByteBounds(a[1..], a[0].End(), capacity, p);
        FreeByteBounds(b[1..], b[0].End(), capacity, p);
        assert FreeByte(a, p) <==> FreeByte(b, p);
      }
      CoalescedUnique(a[1..], b[1..], a[0].End(), capacity);
    }
  }

  lemma FirstBlockCovered(a: seq<Block>, b: seq<Block>, lo: int, capacity: u32)
    requires Coalesced(a, lo, capacity) && Coalesced(b, lo, capacity) && a != [] && b != []
    requires forall p :: FreeByte(a, p) <==> FreeByte(b, p)
    ensures b[0].off <= a[0].off && (a[0].off == b[0].off ==> a[0].End() <= b[0].End())
  {
    assert FreeByte(a, a[0].off);
    FreeByteBounds(b[1..], b[0].End(), capacity, a[0].off);
    FreeByteBounds(b[1..], b[0].End(), capacity, b[0].End());
    assert FreeByte(a, b[0].End()) <==> FreeByte(b, b[0].End());
  }

  /** What block `i` owns, the blocks around it do not. */
  lemma BlockOwnsBytes(free: seq<Block>, i: nat, capacity: u32, p: int)
    requires Coalesced(free, -1, capacity) && i < |free|
    ensures Coalesced(free[..i], -1, capacity)
    ensures LastEnd(free[..i], -1) < free[i].off && free[i].size > 0 && free[i].End() <= capacity
    ensures Coalesced(free[i + 1..], free[i].End(), capacity)
    ensures FreeByte(free, p) <==> FreeByte(free[..i], p) || free[i].Covers(p) || FreeByte(free[i + 1..], p)
    ensures free[i].Covers(p) ==> !FreeByte(free[..i], p) && !FreeByte(free[i + 1..], p)
  {
    assert free == free[..i] + free[i..];
    assert free[i..][1..] == free[i + 1..];
    CoalescedConcat(free[..i], free[i..], -1, capacity);
    FreeByteConcat(free[..i], free[i..], p);
    FreeByteBounds(free[..i], -1, capacity, p);
    FreeByteBounds(free[i + 1..], free[i].End(), capacity, p);
  }

  // ---------------------------------------------------------------------------------------------
  // Taking a block.
  // ---------------------------------------------------------------------------------------------

  /** The pieces of `b` left over when `[at, end)` is cut out of it. */
  function Pieces(b: Block, at: u32, end: u32): seq<Block>
    requires b.off <= at <= end <= b.End()
  {
    (if at > b.off then [Block(b.off, at - b.off)] else [])
    + (if end < b.End() then [Block(end, b.End() - end)] else [])
  }

  /** `free` with `[at, at + size)` cut out of block `i`. */
  function Carve(free: seq<Block>, i: nat, at: u32, size: u32): seq<Block>
    requires i < |free| && free[i].off <= at && at + size <= free[i].End() <= U32_MAX
  {
    free[..i] + Pieces(free[i], at, at + size) + free[i + 1..]
  }

  lemma PiecesCover(b: Block, at: u32, end: u32, lo: int, capacity: u32, p: int)
    requires b.off <= at < end <= b.End() <= capacity && lo < b.off
    ensures FreeByte(Pieces(b, at, end), p) <==> b.Covers(p) && !(at <= p < end)
    ensures Coalesced(Pieces(b, at, end), lo, capacity) && LastEnd(Pieces(b, at, end), lo) <= b.End()
  {
    var l := if at > b.off then [Block(b.off, at - b.off)] else [];
    var r := if end < b.End() then [Block(end, b.End() - end)] else [];
    FreeByteConcat(l, r, p);
    CoalescedConcat(l, r, lo, capacity);
  }

  lemma CoalescedFrom(free: seq<Block>, lo: int, lower: int, capacity: u32)
    requires Coalesced(free, lo, capacity) && lower <= lo
    ensures Coalesced(free, lower, capacity)
  {
  }

  lemma CarveCovers(free: seq<Block>, i: nat, at: u32, size: u32, capacity: u32, p: int)
    requires Coalesced(free, -1, capacity) && i < |free| && size > 0
    requires free[i].off <= at && at + size <= free[i].End() <= U32_MAX
    ensures FreeByte(Carve(free, i, at, size), p) <==> FreeByte(free, p) && !(at <= p < at + size)
  {
    var pre, mid, post := free[..i], Pieces(free[i], at, at + size), free[i + 1..];
    BlockOwnsBytes(free, i, capacity, p);
    PiecesCover(free[i], at, at + size, LastEnd(pre, -1), capacity, p);
    FreeByteConcat(pre, mid, p);
    FreeByteConcat(pre + mid, post, p);
  }

  lemma CarveCoalesced(free: seq<Block>, i: nat, at: u32, size: u32, capacity: u32)
    requires Coalesced(free, -1, capacity) && i < |free| && size > 0
    requires free[i].off <= at && at + size <= free[i].End() <= U32_MAX
    ensures Coalesced(Carve(free, i, at, size), -1, capacity)
  {
    var pre, mid, post := free[..i], Pieces(free[i], at, at + size), free[i + 1..];
    BlockOwnsBytes(free, i, capacity, at);
    PiecesCover(free[i], at, at + size, LastEnd(pre, -1), capacity, at);
    PiecesJoin(pre, mid, post, free[i].End(), capacity);
  }

  lemma PiecesJoin(pre: seq<Block>, mid: seq<Block>, post: seq<Block>, end: int, capacity: u32)
    requires Coalesced(pre, -1, capacity) && Coalesced(mid, LastEnd(pre, -1), capacity) && Coalesced(post, end, capacity)
    requires LastEnd(mid, LastEnd(pre, -1)) <= end
    ensures Coalesced(pre + mid + post, -1, capacity)
  {
    CoalescedConcat(pre, mid, -1, capacity);
    CoalescedConcat(pre + mid, post, -1, capacity);
    assert LastEnd(pre + mid, -1) == LastEnd(mid, LastEnd(pre, -1));
    CoalescedFrom(post, end, LastEnd(pre + mid, -1), capacity);
  }

  lemma LiveByteInsert(live: Live, at: u32, size: u32, p: int)
    requires at !in live
    ensures LiveByte(live[at := size], p) <==> LiveByte(live, p) || at <= p < at + size
  {
    var now := live[at := size];
    if LiveByte(live, p) {
      var o :| o in live && o <= p < o + live[o];
      assert o in now && now[o] == live[o];
    }
    if LiveByte(now, p) {
      var o :| o in now && o <= p < o + now[o];
      assert o == at || o in live;
    }
    assert at in now;
  }

  /** Cutting an allocation out of the block that holds it keeps the allocator consistent. */
  lemma AllocKeepsState(capacity: u32, free: seq<Block>, live: Live, used: u32, i: nat, at: u32, size: u32)
    requires State(capacity, free, live, used) && capacity > 0
    requires i < |free| && size > 0 && free[i].off <= at && at + size <= free[i].End() <= U32_MAX
    requires at !in live && LiveOk(live[at := size], capacity)
    ensures used + size <= U32_MAX
    ensures State(capacity, Carve(free, i, at, size), live[at := size], used + size)
  {
    var now := live[at := size];
    LiveBytesInsert(live, at, size);
    LiveBytesBound(now, capacity);
    CarveCoalesced(free, i, at, size, capacity);
    forall p | 0 <= p < capacity ensures FreeByte(Carve(free, i, at, size), p) <==> !LiveByte(now, p) {
      CarveCovers(free, i, at, size, capacity, p);
      LiveByteInsert(live, at, size, p);
    }
  }

  // ---------------------------------------------------------------------------------------------
  // Completeness of the first-fit walk.
  // ---------------------------------------------------------------------------------------------

  predicate BlockFits(b: Block, o: int, size: u32, align: u32)
    requires align > 0
  {
    b.off <= o && o % align == 0 && o + size <= b.End()
  }

  /** No block before `i` has room at any aligned offset. */
  ghost predicate Passed(free: seq<Block>, i: nat, size: u32, align: u32)
    requires i <= |free|
  {
    GoodAlign(align) ==> forall o, j :: 0 <= j < i ==> !BlockFits(free[j], o, size, align)
  }

  lemma {:induction false} OffsetsAscend(free: seq<Block>, lo: int, capacity: u32, i: nat, j: nat)
    requires Coalesced(free, lo, capacity) && i <= j < |free|
    ensures lo < free[i].off && free[j].End() <= capacity
    ensures i < j ==> free[i].End() < free[j].off
    decreases j
  {
    if i > 0 { OffsetsAscend(free[1..], free[0].End(), capacity, i - 1, j - 1); }
    else if j > 0 { OffsetsAscend(free[1..], free[0].End(), capacity, 0, j - 1); OffsetsAscend(free[1..], free[0].End(), capacity, j - 1, j - 1); }
  }

  /** The block that holds an offset where the request fits. */
  lemma FitInBlock(capacity: u32, free: seq<Block>, live: Live, o: int, size: u32, align: u32) returns (j: nat)
    requires capacity > 0 && FreeOk(capacity, free, live)
    requires align > 0 && size > 0 && Fits(live, capacity, o, size, align)
    ensures j < |free| && BlockFits(free[j], o, size, align)
  {
    j := RunInOneBlock(free, -1, capacity, o, size);
  }

  /** When no block before `i` has room and block `i` overflows 32 bits, nothing fits anywhere:
      the early returns lose no later fit. */
  lemma NoFit(capacity: u32, free: seq<Block>, live: Live, size: u32, align: u32, i: nat)
    requires FreeOk(capacity, free, live)
    requires size > 0 && i <= |free| && Passed(free, i, size, align)
    requires i == |free| || AlignUp(free[i].off, align).None?
      || AlignUp(free[i].off, align).value - free[i].off + size > U32_MAX
    ensures FirstFit(live, capacity, size, align) == Err(AllocationFailed)
  {
    GoodAlignIsPowerOfTwo(align);
    var fit := FirstFit(live, capacity, size, align);
    if fit.Ok? {
      var j := FitInBlock(capacity, free, live, fit.value, size, align);
      OffsetsAscend(free, -1, capacity, 0, j);
      if i < |free| {
        AlignUpIsLeastMultiple(free[i].off, align);
        if i < j { OffsetsAscend(free, -1, capacity, i, j); }
      }
    }
  }

  /** The first block with room yields the lowest fit. */
  lemma LowestFit(capacity: u32, free: seq<Block>, live: Live, size: u32, align: u32, i: nat, aligned: u32)
    requires capacity > 0 && LiveOk(live, capacity) && FreeOk(capacity, free, live)
    requires size > 0 && i < |free| && Passed(free, i, size, align)
    requires AlignUp(free[i].off, align) == Some(aligned) && aligned + size <= free[i].End()
    ensures FirstFit(live, capacity, size, align) == Ok(aligned)
    ensures aligned !in live && LiveOk(live[aligned := size], capacity)
  {
    GoodAlignIsPowerOfTwo(align);
    AlignUpIsLeastMultiple(free[i].off, align);
    OffsetsAscend(free, -1, capacity, i, i);
    forall p | aligned <= p < aligned + size ensures !LiveByte(live, p) {
      BlockOwnsBytes(free, i, capacity, p);
    }
    assert Fits(live, capacity, aligned, size, align);
    var fit := FirstFit(live, capacity, size, align);
    var j := FitInBlock(capacity, free, live, fit.value, size, align);
    if i < j { OffsetsAscend(free, -1, capacity, i, j); }
    FirstFitKeepsLiveOk(live, capacity, size, align);
  }

  // ---------------------------------------------------------------------------------------------
  // Releasing a block.
  // ---------------------------------------------------------------------------------------------

  lemma LiveIsNotFree(capacity: u32, free: seq<Block>, live: Live, o: u32, p: nat)
    requires Tiles(free, live, capacity) && o in live && o <= p < o + live[o] && p < capacity
    ensures !FreeByte(free, p)
  {
    assert LiveByte(live, p);
  }

  /** A byte of one listed block is free in the whole list. */
  lemma {:induction false} MemberFree(free: seq<Block>, i: nat, p: int)
    requires i < |free| && free[i].Covers(p)
    ensures FreeByte(free, p)
  {
    if i > 0 { MemberFree(free[1..], i - 1, p); }
  }

  /** The free list around a live block at `offset`: `pre` ends before it, `post` starts after it. */
  lemma LiveBlockIsolated(capacity: u32, pre: seq<Block>, post: seq<Block>, live: Live, offset: u32)
    requires capacity > 0 && LiveOk(live, capacity) && FreeOk(capacity, pre + post, live) && offset in live
    requires pre != [] ==> pre[|pre| - 1].off < offset
    requires post != [] ==> offset <= post[0].off
    ensures Coalesced(pre, -1, capacity) && LastEnd(pre, -1) <= offset
    ensures Coalesced(post, offset + live[offset] - 1, capacity)
  {
    CoalescedConcat(pre, post, -1, capacity);
    var free := pre + post;
    if pre != [] {
      var i := |pre| - 1;
      LiveIsNotFree(capacity, free, live, offset, offset);
      if free[i].Covers(offset) { MemberFree(free, i, offset); }
    }
    if post != [] {
      var p := post[0].off;
      if p < offset + live[offset] {
        LiveIsNotFree(capacity, free, live, offset, p);
        MemberFree(free, |pre|, p);
      }
    }
  }

  lemma ReleaseTiles(capacity: u32, before: seq<Block>, now: seq<Block>, live: Live, offset: u32)
    requires LiveOk(live, capacity) && Tiles(before, live, capacity) && offset in live
    requires forall p :: FreeByte(now, p) <==> FreeByte(before, p) || offset <= p < offset + live[offset]
    ensures Tiles(now, live - {offset}, capacity)
  {
    var rest := live - {offset};
    assert rest[offset := live[offset]] == live;
    forall p | 0 <= p < capacity ensures FreeByte(now, p) <==> !LiveByte(rest, p) {
      LiveByteInsert(rest, offset, live[offset], p);
      if offset <= p < offset + live[offset] { ReleasedByte(capacity, live, offset, p); }
    }
  }

  /** No other live block covers a byte of the released one. */
  lemma ReleasedByte(capacity: u32, live: Live, offset: u32, p: int)
    requires LiveOk(live, capacity) && offset in live && offset <= p < offset + live[offset]
    ensures !LiveByte(live - {offset}, p)
  {
    var rest := live - {offset};
    forall o | o in rest ensures !(o <= p < o + rest[o]) { assert o in live && o != offset; }
  }

  /** Replacing the middle of a list by blocks covering the same bytes covers the same bytes. */
  lemma SameCover(pre: seq<Block>, mid: seq<Block>, mid': seq<Block>, post: seq<Block>)
    requires forall p :: FreeByte(mid, p) <==> FreeByte(mid', p)
    ensures forall p :: FreeByte(pre + mid + post, p) <==> FreeByte(pre + mid' + post, p)
  {
    forall p ensures FreeByte(pre + mid + post, p) <==> FreeByte(pre + mid' + post, p) {
      FreeByteConcat(pre, mid, p);
      FreeByteConcat(pre + mid, post, p);
      FreeByteConcat(pre, mid', p);
      FreeByteConcat(pre + mid', post, p);
    }
  }

  /** Block `b` freed between `pre` and `post`, before touching neighbours are merged. */
  ghost predicate Gap(pre: seq<Block>, b: Block, post: seq<Block>, capacity: u32) {
    && b.size > 0
    && b.End() <= capacity
    && Coalesced(pre, -1, capacity) && LastEnd(pre, -1) <= b.off
    && Coalesced(post, b.End() - 1, capacity)
  }

  lemma MergeRight(pre: seq<Block>, b: Block, post: seq<Block>, capacity: u32)
    requires Gap(pre, b, post, capacity) && post != [] && post[0].off == b.End()
    ensures b.size + post[0].size <= U32_MAX
    ensures var m := Block(b.off, b.size + post[0].size);
      && Gap(pre, m, post[1..], capacity) && Coalesced(post[1..], m.End(), capacity)
      && forall p :: FreeByte(pre + [b] + post, p) <==> FreeByte(pre + [m] + post[1..], p)
  {
    var m := Block(b.off, b.size + post[0].size);
    CoalescedFrom(post[1..], m.End(), m.End() - 1, capacity);
    forall p ensures FreeByte([b] + [post[0]], p) <==> FreeByte([m], p) { FreeByteConcat([b], [post[0]], p); }
    SameCover(pre, [b] + [post[0]], [m], post[1..]);
    assert pre + ([b] + [post[0]]) + post[1..] == pre + [b] + post;
  }

  lemma MergeLeft(pre: seq<Block>, a: Block, b: Block, post: seq<Block>, capacity: u32)
    requires Gap(pre + [a], b, post, capacity) && Coalesced(post, b.End(), capacity) && a.End() == b.off
    ensures a.size + b.size <= U32_MAX
    ensures Coalesced(pre + [Block(a.off, a.size + b.size)] + post, -1, capacity)
  {
    CoalescedConcat(pre, [a], -1, capacity);
    JoinCoalesced(pre, Block(a.off, a.size + b.size), post, capacity);
  }

  lemma MergeLeftCovers(pre: seq<Block>, a: Block, b: Block, post: seq<Block>)
    requires a.End() == b.off && a.size + b.size <= U32_MAX
    ensures forall p :: FreeByte(pre + [a] + [b] + post, p) <==> FreeByte(pre + [Block(a.off, a.size + b.size)] + post, p)
  {
    var m := Block(a.off, a.size + b.size);
    forall p ensures FreeByte([a] + [b], p) <==> FreeByte([m], p) { FreeByteConcat([a], [b], p); }
    SameCover(pre, [a] + [b], [m], post);
    assert pre + ([a] + [b]) + post == pre + [a] + [b] + post;
  }

  lemma JoinCoalesced(pre: seq<Block>, b: Block, post: seq<Block>, capacity: u32)
    requires Coalesced(pre, -1, capacity) && LastEnd(pre, -1) < b.off && b.size > 0 && b.End() <= capacity
    requires Coalesced(post, b.End(), capacity)
    ensures Coalesced(pre + [b] + post, -1, capacity)
  {
    CoalescedConcat(pre, [b], -1, capacity);
    CoalescedConcat(pre + [b], post, -1, capacity);
  }

  class FreelistAllocator {
    var capacity: u32
    var free: seq<Block>
    var live: Live
    var used: u32

    ghost predicate Valid()
      reads this
    {
      State(capacity, free, live, used)
    }

    constructor (capacity: u32)
      ensures Valid() && this.capacity == capacity && live == map[] && used == 0
    {
      this.capacity := capacity;
      free := [Block(0, capacity)];
      live := map[];
      used := 0;
    }

    method Alloc(size: u32, align: u32) returns (r: Result<u32>)
      requires Valid()
      modifies this
      ensures Valid() && capacity == old(capacity)
      ensures r == FirstFit(old(live), capacity, size, align)
      ensures r.Ok? ==> live == old(live)[r.value := size]
      ensures r.Err? ==> live == old(live) && free == old(free) && used == old(used)
    {
      if size == 0 { return Err(AllocationFailed); }
      ghost var f, l, cap := free, live, capacity;
      var i := 0;
      while i < |free|
        invariant 0 <= i <= |free|
        invariant unchanged(this)
        invariant Passed(f, i, size, align)
      {
        var block := free[i];
        AlignUpIsLeastMultiple(block.off, align);
        GoodAlignIsPowerOfTwo(align);
        var up := AlignUp(block.off, align);
        if up.None? || up.value - block.off + size > U32_MAX {
          NoFit(cap, f, l, size, align, i);
          return Err(AllocationFailed);
        }
        var aligned: u32 := up.value;
        var pad: u32 := aligned - block.off;
        var need: u32 := pad + size;
        if need <= block.size {
          TakeFrom(i, aligned, pad, block.size - need, size, align);
          return Ok(aligned);
        }
        i := i + 1;
      }
      NoFit(cap, f, l, size, align, i);
      return Err(AllocationFailed);
    }

    /** The four ways of taking `[aligned, aligned + size)` out of block `i`. */
    method TakeFrom(i: nat, aligned: u32, pad: u32, remainder: u32, size: u32, align: u32)
      requires Valid() && size > 0 && i < |free| && Passed(free, i, size, align)
      requires AlignUp(free[i].off, align) == Some(aligned)
      requires pad == aligned - free[i].off && pad + size + remainder == free[i].size
      modifies this
      ensures Valid() && capacity == old(capacity)
      ensures FirstFit(old(live), capacity, size, align) == Ok(aligned)
      ensures live == old(live)[aligned := size]
    {
      ghost var f := free;
      LowestFit(capacity, f, live, size, align, i, aligned);
      OffsetsAscend(f, -1, capacity, i, i);
      AllocKeepsState(capacity, f, live, used, i, aligned, size);
      live := live[aligned := size];
      used := used + size;
      free := Cut(free, i, aligned, pad, remainder, size);
    }

    static method Cut(free: seq<Block>, i: nat, aligned: u32, pad: u32, remainder: u32, size: u32) returns (out: seq<Block>)
      requires i < |free| && free[i].off + pad == aligned && pad + size + remainder == free[i].size
      requires size > 0 && free[i].End() <= U32_MAX
      ensures out == Carve(free, i, aligned, size)
    {
      var off := free[i].off;
      if pad == 0 && remainder == 0 {
        out := free[..i] + free[i + 1..];
      } else if pad == 0 {
        out := free[i := Block(aligned + size, remainder)];
      } else if remainder == 0 {
        out := free[i := Block(off, pad)];
      } else {
        out := free[i := Block(off, pad)];
        out := out[..i + 1] + [Block(aligned + size, remainder)] + out[i + 1..];
      }
    }

    method Dealloc(offset: u32) returns (r: Result<u32>)
      requires Valid()
      modifies this
      ensures Valid() && capacity == old(capacity)
      ensures r == if offset in old(live) then Ok(old(live)[offset]) else Err(OutOfBounds)
      ensures live == old(live) - {offset}
      ensures r.Err? ==> free == old(free) && used == old(used)
    {
      if offset !in live {
        assert live - {offset} == live;
        return Err(OutOfBounds);
      }
      var size := live[offset];
      ghost var was, before, cap := live, free, capacity;
      LiveBytesRemove(was, offset);
      live := live - {offset};
      used := used - size;
      var pos := PartitionPoint(free, offset);
      ghost var pre, post := before[..pos], before[pos..];
      assert before == pre + post;
      LiveBlockIsolated(cap, pre, post, was, offset);
      InsertCovers(pre, Block(offset, size), post);
      free := free[..pos] + [Block(offset, size)] + free[pos..];
      Coalesce(pos, pre, post);
      ReleaseTiles(cap, before, free, was, offset);
      return Ok(size);
    }

    /** How many blocks start before `offset`. */
    static method PartitionPoint(free: seq<Block>, offset: u32) returns (pos: nat)
      ensures pos <= |free|
      ensures pos > 0 ==> free[pos - 1].off < offset
      ensures pos < |free| ==> offset <= free[pos].off
    {
      pos := 0;
      while pos < |free| && free[pos].off < offset
        invariant pos <= |free|
        invariant pos > 0 ==> free[pos - 1].off < offset
      {
        pos := pos + 1;
      }
    }

    /** Merges block `idx` with its right and then its left neighbour where they touch. */
    method Coalesce(idx: nat, ghost pre: seq<Block>, ghost post: seq<Block>)
      requires idx < |free| && idx == |pre| && free == pre + [free[idx]] + post
      requires Gap(pre, free[idx], post, capacity)
      modifies this`free
      ensures Coalesced(free, -1, capacity)
      ensures forall p :: FreeByte(free, p) <==> old(FreeByte(free, p))
    {
      var list := free;
      ghost var rest := post;
      if idx + 1 < |list| {
        var a, b := list[idx], list[idx + 1];
        assert b == post[0];
        var end: u32 := a.off + a.size;
        if end == b.off {
          MergeRight(pre, a, post, capacity);
          rest := post[1..];
          var merged: u32 := a.size + b.size;
          list := list[..idx] + [Block(a.off, merged)] + list[idx + 2..];
          assert list == pre + [Block(a.off, merged)] + rest;
        }
      }
      free := CoalesceLeft(list, idx, pre, rest, capacity);
    }

    static method CoalesceLeft(list: seq<Block>, idx: nat, ghost pre: seq<Block>, ghost post: seq<Block>, ghost capacity: u32)
        returns (out: seq<Block>)
      requires idx < |list| && idx == |pre| && list == pre + [list[idx]] + post
      requires Gap(pre, list[idx], post, capacity) && Coalesced(post, list[idx].End(), capacity)
      ensures Coalesced(out, -1, capacity)
      ensures forall p :: FreeByte(out, p) <==> FreeByte(list, p)
    {
      out := list;
      var b := list[idx];
      if idx > 0 {
        var a := list[idx - 1];
        assert a == pre[idx - 1];
        var end: u32 := a.off + a.size;
        if end == b.off {
          ghost var before := pre[..idx - 1];
          assert pre == before + [a];
          MergeLeft(before, a, b, post, capacity);
          MergeLeftCovers(before, a, b, post);
          var merged: u32 := a.size + b.size;
          out := list[..idx - 1] + [Block(a.off, merged)] + list[idx + 1..];
          assert out == before + [Block(a.off, merged)] + post;
          return;
        }
      }
      JoinCoalesced(pre, b, post, capacity);
    }

    method RebuildAfterCompact(newBlocks: seq<Block>, capacity: u32)
      requires Packed(newBlocks, 0) && TotalSize(newBlocks) <= capacity
      modifies this
      ensures Valid() && this.capacity == capacity
      ensures live == AsMap(newBlocks) && used == TotalSize(newBlocks)
      ensures free == Tail(used, capacity)
    {
      this.capacity := capacity;
      used := Register(newBlocks, capacity);
      free := [];
      if used < capacity {
        free := free + [Block(used, capacity - used)];
      }
      PackedState(newBlocks, capacity);
      assert free == Tail(used, capacity);
    }

    /** Records every block as live and adds up their sizes. */
    method Register(newBlocks: seq<Block>, capacity: u32) returns (sum: u32)
      requires TotalSize(newBlocks) <= capacity
      modifies this`live
      ensures live == AsMap(newBlocks) && sum == TotalSize(newBlocks)
    {
      live := map[];
      sum := 0;
      var i := 0;
      while i < |newBlocks|
        invariant 0 <= i <= |newBlocks|
        invariant sum == TotalSize(newBlocks[..i]) && live == AsMap(newBlocks[..i])
      {
        var b := newBlocks[i];
        PrefixStep(newBlocks, i);
        AsMapStep(newBlocks, i);
        live := live[b.off := b.size];
        sum := sum + b.size;
        i := i + 1;
      }
      assert newBlocks[..i] == newBlocks;
    }
  }

  lemma InsertCovers(pre: seq<Block>, b: Block, post: seq<Block>)
    ensures forall p :: FreeByte(pre + [b] + post, p) <==> FreeByte(pre + post, p) || b.Covers(p)
  {
    forall p ensures FreeByte(pre + [b] + post, p) <==> FreeByte(pre + post, p) || b.Covers(p) {
      FreeByteConcat(pre, [b], p);
      FreeByteConcat(pre + [b], post, p);
      FreeByteConcat(pre, post, p);
    }
  }

  lemma PrefixStep(blocks: seq<Block>, i: nat)
    requires i < |blocks|
    ensures TotalSize(blocks[..i + 1]) == TotalSize(blocks[..i]) + blocks[i].size <= TotalSize(blocks)
  {
    assert blocks[..i + 1] == blocks[..i] + [blocks[i]];
    TotalSizeAppend(blocks[..i], [blocks[i]]);
    assert blocks == blocks[..i + 1] + blocks[i + 1..];
    TotalSizeAppend(blocks[..i + 1], blocks[i + 1..]);
  }

  lemma AsMapStep(blocks: seq<Block>, i: nat)
    requires i < |blocks|
    ensures AsMap(blocks[..i + 1]) == AsMap(blocks[..i])[blocks[i].off := blocks[i].size]
  {
    assert blocks[..i + 1][..i] == blocks[..i];
  }

  // ---------------------------------------------------------------------------------------------
  // Packed layouts.
  // ---------------------------------------------------------------------------------------------

  /** Blocks laid end to end from `start`. */
  predicate Packed(blocks: seq<Block>, start: nat) {
    blocks != [] ==> blocks[0].off == start && blocks[0].size > 0 && Packed(blocks[1..], start + blocks[0].size)
  }

  function AsMap(blocks: seq<Block>): Live {
    if blocks == [] then map[] else AsMap(blocks[..|blocks| - 1])[blocks[|blocks| - 1].off := blocks[|blocks| - 1].size]
  }

  lemma {:induction false} PackedBounds(blocks: seq<Block>, start: nat)
    requires Packed(blocks, start)
    ensures forall b :: b in blocks ==> start <= b.off && b.size > 0 && b.End() <= start + TotalSize(blocks)
  {
    if blocks != [] { PackedBounds(blocks[1..], start + blocks[0].size); }
  }

  lemma {:induction false} PackedOrder(blocks: seq<Block>, start: nat, i: nat, j: nat)
    requires Packed(blocks, start) && i < j < |blocks|
    ensures blocks[i].size > 0 && blocks[i].End() <= blocks[j].off
  {
    if i > 0 {
      PackedOrder(blocks[1..], start + blocks[0].size, i - 1, j - 1);
    } else {
      PackedBounds(blocks[1..], start + blocks[0].size);
      assert blocks[j] in blocks[1..];
    }
  }

  lemma {:induction false} PackedCovers(blocks: seq<Block>, start: nat, p: int) returns (b: Block)
    requires Packed(blocks, start) && start <= p < start + TotalSize(blocks)
    ensures b in blocks && b.Covers(p)
  {
    if blocks[0].Covers(p) { b := blocks[0]; } else { b := PackedCovers(blocks[1..], start + blocks[0].size, p); }
  }

  lemma {:induction false} AsMapEntries(blocks: seq<Block>)
    requires forall i, j :: 0 <= i < j < |blocks| ==> blocks[i].off != blocks[j].off
    ensures forall b :: b in blocks <==> b.off in AsMap(blocks) && AsMap(blocks)[b.off] == b.size
  {
    if blocks != [] {
      var n := |blocks| - 1;
      AsMapEntries(blocks[..n]);
      forall b ensures b in blocks <==> b.off in AsMap(blocks) && AsMap(blocks)[b.off] == b.size {
        assert b in blocks <==> b in blocks[..n] || b == blocks[n];
        if b in blocks[..n] { assert b.off != blocks[n].off; }
      }
    }
  }

  lemma PackedEntries(blocks: seq<Block>)
    requires Packed(blocks, 0)
    ensures forall b :: b in blocks <==> b.off in AsMap(blocks) && AsMap(blocks)[b.off] == b.size
  {
    forall i, j | 0 <= i < j < |blocks| ensures blocks[i].off != blocks[j].off { PackedOrder(blocks, 0, i, j); }
    AsMapEntries(blocks);
  }

  lemma {:induction false} PackedApart(blocks: seq<Block>, start: nat, capacity: u32)
    requires Packed(blocks, start) && start + TotalSize(blocks) <= capacity
    ensures Apart(blocks, start, capacity)
  {
    if blocks != [] { PackedApart(blocks[1..], start + blocks[0].size, capacity); }
  }

  lemma PackedSorted(blocks: seq<Block>, capacity: u32)
    requires Packed(blocks, 0) && TotalSize(blocks) <= capacity
    ensures SortedBlocks(AsMap(blocks)) == blocks
  {
    PackedLive(blocks, capacity);
    PackedEntries(blocks);
    SortedBlocksElements(AsMap(blocks));
    SortedBlocksApart(AsMap(blocks), 0, capacity);
    PackedApart(blocks, 0, capacity);
    ApartUnique(SortedBlocks(AsMap(blocks)), blocks, 0, capacity);
  }

  lemma PackedLive(blocks: seq<Block>, capacity: u32)
    requires Packed(blocks, 0) && TotalSize(blocks) <= capacity
    ensures LiveOk(AsMap(blocks), capacity)
  {
    var live := AsMap(blocks);
    PackedBounds(blocks, 0);
    PackedEntries(blocks);
    forall o | o in live ensures live[o] > 0 && o + live[o] <= capacity {
      assert Block(o, live[o]) in blocks;
    }
    forall o, q | o in live && q in live && o < q ensures o + live[o] <= q {
      var a, b := Block(o, live[o]), Block(q, live[q]);
      assert a in blocks && b in blocks;
      var i :| 0 <= i < |blocks| && blocks[i] == a;
      var j :| 0 <= j < |blocks| && blocks[j] == b;
      if i < j { PackedOrder(blocks, 0, i, j); } else { PackedOrder(blocks, 0, j, i); }
    }
  }

  lemma PackedLiveBytes(blocks: seq<Block>, p: int)
    requires Packed(blocks, 0)
    ensures LiveByte(AsMap(blocks), p) <==> 0 <= p < TotalSize(blocks)
  {
    PackedBounds(blocks, 0);
    PackedEntries(blocks);
    var live := AsMap(blocks);
    if 0 <= p < TotalSize(blocks) {
      var b := PackedCovers(blocks, 0, p);
      assert b.off in live;
    }
    if LiveByte(live, p) {
      var o :| o in live && o <= p < o + live[o];
      assert Block(o, live[o]) in blocks;
    }
  }

  /** A packed layout leaves all its free space in one block at the end. */
  lemma PackedState(blocks: seq<Block>, capacity: u32)
    requires Packed(blocks, 0) && TotalSize(blocks) <= capacity
    ensures State(capacity, Tail(TotalSize(blocks), capacity), AsMap(blocks), TotalSize(blocks))
  {
    var sum := TotalSize(blocks);
    PackedLive(blocks, capacity);
    PackedSorted(blocks, capacity);
    forall p | 0 <= p < capacity ensures FreeByte(Tail(sum, capacity), p) <==> !LiveByte(AsMap(blocks), p) {
      PackedLiveBytes(blocks, p);
    }
  }

  /** `[sum, capacity)` as a free list. */
  function Tail(sum: u32, capacity: u32): seq<Block>
    requires sum <= capacity
  {
    if sum < capacity then [Block(sum, capacity - sum)] else []
  }

  lemma LiveBytesBound(live: Live, capacity: u32)
    requires LiveOk(live, capacity)
    ensures LiveBytes(live) <= capacity
  {
    SortedBlocksApart(live, 0, capacity);
    ApartAbove(SortedBlocks(live), 0, capacity);
  }
}
