/**
 * The guest-side directory: regions placed in shared memory pools, and compaction that slides live
 * blocks down inside the pool instead of packing them into a fresh buffer.
 */
module Guest {
  import opened Core
  import opened Allocator
  import opened Compaction
  import D = Directory
  import R = RegionDirectory

  datatype Pool = Pool(used: u32, capacity: u32)

  datatype Entry = Entry(generation: u16, capacity: u32, pinned: bool, pinnable: bool, pool: nat, base: u32, alloc: D.Alloc) {
    function End(): int { base + capacity }
  }

  /** Every region lies inside the used part of its pool, and regions of a pool do not overlap. */
  ghost predicate Placed(pools: seq<Pool>, slots: seq<Option<Entry>>) {
    && (forall i :: 0 <= i < |pools| ==> pools[i].used <= pools[i].capacity)
    && (forall i :: 0 <= i < |slots| && slots[i].Some? ==> EntryOk(pools, slots[i].value))
    && (forall i, j :: 0 <= i < j < |slots| && slots[i].Some? && slots[j].Some? ==> Disjoint(slots[i].value, slots[j].value))
  }

  ghost predicate EntryOk(pools: seq<Pool>, e: Entry) {
    e.pool < |pools| && e.End() <= pools[e.pool].used && e.generation != 0 && D.AllocOk(e.alloc, e.capacity)
  }

  predicate Disjoint(a: Entry, b: Entry) { a.pool != b.pool || a.End() <= b.base || b.End() <= a.base }

  /** A band's turn: pools `lo..hi` from the cursor on, wrapping around. */
  function Turn(lo: nat, hi: nat, cursor: nat, k: nat): (i: nat)
    requires lo < hi
    ensures lo <= i < hi
  {
    lo + (cursor + k) % (hi - lo)
  }

  /** Over one full turn every pool of the band comes up. */
  lemma TurnCovers(lo: nat, hi: nat, cursor: nat, i: nat) returns (k: nat)
    requires lo <= i < hi
    ensures k < hi - lo && Turn(lo, hi, cursor, k) == i
  {
    var span := hi - lo;
    var c := cursor % span;
    k := if i - lo >= c then i - lo - c else i - lo + span - c;
    ModShift(cursor, k, span);
    var total := c + k;
    if i - lo >= c { ModBelow(total, span); } else { ModWrap(total, span); }
  }

  lemma ModBelow(a: nat, m: nat)
    requires a < m
    ensures a % m == a
  {
  }

  lemma ModWrap(a: nat, m: nat)
    requires 0 < m <= a < 2 * m
    ensures a % m == a - m
  {
    Bits.DivModUnique(a, m, 1, a - m);
  }

  lemma ModShift(a: nat, k: nat, m: nat)
    requires m > 0
    ensures (a + k) % m == (a % m + k) % m
  {
    var q, r := (a % m + k) / m, (a % m + k) % m;
    Bits.DivModUnique(a + k, m, a / m + q, r);
  }

  function ResolveIn(slots: seq<Option<Entry>>, h: Handle): Result<(nat, u32)> {
    if h.regionId >= |slots| || slots[h.regionId].None? then Err(RegionNotFound(h.regionId))
    else
      var e := slots[h.regionId].value;
      if e.generation != h.generation then Err(StaleHandle)
      else if e.base + h.offset > U32_MAX then Err(OutOfBounds)
      else Ok((e.pool, e.base + h.offset))
  }

  /** A new entry at the end of its pool's used part keeps every range apart. */
  lemma PlaceOne(pools: seq<Pool>, slots: seq<Option<Entry>>, at: nat, e: Entry)
    requires Placed(pools, slots) && at < |pools| && e.pool == at && e.base == pools[at].used
    requires pools[at].capacity - pools[at].used >= e.capacity && e.generation != 0 && D.AllocOk(e.alloc, e.capacity)
    ensures Placed(pools[at := Pool(pools[at].used + e.capacity, pools[at].capacity)], slots + [Some(e)])
  {
    var ps := pools[at := Pool(pools[at].used + e.capacity, pools[at].capacity)];
    var ss := slots + [Some(e)];
    forall i | 0 <= i < |ss| && ss[i].Some? ensures EntryOk(ps, ss[i].value) {
      if i < |slots| { assert EntryOk(pools, slots[i].value); }
    }
    forall i, j | 0 <= i < j < |ss| && ss[i].Some? && ss[j].Some? ensures Disjoint(ss[i].value, ss[j].value) {
      assert EntryOk(pools, slots[i].value);
      if j < |slots| { assert Disjoint(slots[i].value, slots[j].value); }
    }
  }

  /** A region may change its allocator state and generation in place. */
  lemma ReplaceOne(pools: seq<Pool>, slots: seq<Option<Entry>>, at: nat, e: Entry)
    requires Placed(pools, slots) && at < |slots| && slots[at].Some? && EntryOk(pools, e)
    requires e.pool == slots[at].value.pool && e.base == slots[at].value.base && e.capacity == slots[at].value.capacity
    ensures Placed(pools, slots[at := Some(e)])
  {
    var ss := slots[at := Some(e)];
    forall i, j | 0 <= i < j < |ss| && ss[i].Some? && ss[j].Some? ensures Disjoint(ss[i].value, ss[j].value) {
      assert Disjoint(slots[i].value, slots[j].value);
    }
  }

  // ---------------------------------------------------------------------------------------------
  // Sliding blocks down.
  // ---------------------------------------------------------------------------------------------

  predicate Moves(blocks: seq<Block>, i: nat)
    requires i < |blocks|
  {
    blocks[i].off != Landing(blocks, i)
  }

  /** The first block from `i` on that has to move but does not end inside the pool's memory; the
      number of blocks if there is none. */
  function FirstMisfit(blocks: seq<Block>, i: nat, base: u32, limit: nat): (m: nat)
    requires i <= |blocks|
    ensures i <= m <= |blocks|
    ensures forall k :: i <= k < m ==> !Moves(blocks, k) || base + blocks[k].End() <= limit
    ensures m < |blocks| ==> Moves(blocks, m) && base + blocks[m].End() > limit
    decreases |blocks| - i
  {
    if i == |blocks| then i
    else if Moves(blocks, i) && base + blocks[i].End() > limit then i
    else FirstMisfit(blocks, i + 1, base, limit)
  }

  /** Where block `i - 1` used to end. */
  function LowEnd(blocks: seq<Block>, i: nat): int
    requires i <= |blocks|
  {
    if i == 0 then 0 else blocks[i - 1].End()
  }

  /** The bytes of the first `i` blocks, packed at the base; blocks that the memory does not hold
      have no bytes to speak of. */
  ghost predicate Gathered(blocks: seq<Block>, i: nat, base: u32, before: bytes, now: bytes) {
    i <= |blocks| && |now| == |before| && base <= |before| && Within(blocks[..i], |before| - base) ==>
      base + Landing(blocks, i) <= |before| && now[base..base + Landing(blocks, i)] == Gather(blocks[..i], before[base..])
  }

  /** Everything from the old end of block `i - 1` on is as before. */
  ghost predicate Above(blocks: seq<Block>, i: nat, base: u32, before: bytes, now: bytes) {
    i <= |blocks| && |now| == |before| && forall p :: base + LowEnd(blocks, i) <= p < |now| ==> now[p] == before[p]
  }

  /** The packed bytes of a finished slide. */
  ghost predicate Packs(blocks: seq<Block>, base: u32, before: bytes, after: bytes) {
    && |after| == |before|
    && (base <= |before| && Within(blocks, |before| - base) ==>
          base + TotalSize(blocks) <= |before| && after[base..base + TotalSize(blocks)] == Gather(blocks, before[base..]))
  }

  /** Packing only moves blocks down. */
  lemma {:induction false} LandingBelow(blocks: seq<Block>, i: nat, capacity: u32)
    requires Apart(blocks, 0, capacity) && i < |blocks|
    ensures blocks[i].size > 0 && blocks[i].End() <= capacity
    ensures Landing(blocks, i) <= LowEnd(blocks, i) <= blocks[i].off
  {
    ApartAbove(blocks, 0, capacity);
    assert blocks[i] in blocks;
    if i > 0 {
      LandingBelow(blocks, i - 1, capacity);
      LandingStep(blocks, i - 1);
      ApartIndex(blocks, 0, capacity, i - 1, i);
    }
  }

  /** The place a block is copied to ends before every block not yet moved starts. */
  lemma PendingUntouched(blocks: seq<Block>, i: nat, j: nat, capacity: u32)
    requires Apart(blocks, 0, capacity) && i < j < |blocks|
    ensures Landing(blocks, i) + blocks[i].size <= blocks[j].off
  {
    LandingBelow(blocks, i, capacity);
    ApartIndex(blocks, 0, capacity, i, j);
  }

  lemma PrefixWithin(blocks: seq<Block>, i: nat, limit: int)
    requires i < |blocks| && Within(blocks[..i + 1], limit)
    ensures Within(blocks[..i], limit) && blocks[i].End() <= limit
  {
    assert blocks[..i + 1] == blocks[..i] + [blocks[i]];
    forall b | b in blocks[..i] ensures b.End() <= limit { assert b in blocks[..i + 1]; }
    assert blocks[i] in blocks[..i + 1];
  }

  lemma JoinSlices(s: bytes, at: nat, n: nat, m: nat)
    requires at + n + m <= |s|
    ensures s[at..at + n] + s[at + n..at + n + m] == s[at..at + n + m]
  {
  }

  lemma SubSlice(s: bytes, from: nat, at: nat, n: nat)
    requires from + at + n <= |s|
    ensures s[from..][at..at + n] == s[from + at..from + at + n]
  {
  }

  lemma AboveSlice(blocks: seq<Block>, i: nat, base: u32, before: bytes, now: bytes, at: nat, n: nat)
    requires Above(blocks, i, base, before, now) && base + LowEnd(blocks, i) <= at && at + n <= |now|
    ensures now[at..at + n] == before[at..at + n]
  {
  }

  /** One block slid from its old place to the cursor. */
  function SlideStep(now: bytes, b: Block, cursor: nat, base: u32): (r: bytes)
    ensures |r| == |now|
  {
    if b.off == cursor || cursor > b.off || base + b.End() > |now| then now
    else Splice(now, base + cursor, now[base + b.off..base + b.End()])
  }

  /** The pool after the first `i` blocks have been handled. */
  function AfterSlides(blocks: seq<Block>, i: nat, base: u32, before: bytes): (r: bytes)
    requires i <= |blocks|
    ensures |r| == |before|
  {
    if i == 0 then before else SlideStep(AfterSlides(blocks, i - 1, base, before), blocks[i - 1], Landing(blocks, i - 1), base)
  }

  lemma StepAbove(blocks: seq<Block>, i: nat, base: u32, capacity: u32, before: bytes, now: bytes)
    requires Apart(blocks, 0, capacity) && i < |blocks| && Above(blocks, i, base, before, now)
    ensures Above(blocks, i + 1, base, before, SlideStep(now, blocks[i], Landing(blocks, i), base))
  {
    LandingBelow(blocks, i, capacity);
  }

  /** A block arrives at its landing place with its own bytes. */
  lemma StepChunk(blocks: seq<Block>, i: nat, base: u32, capacity: u32, before: bytes, now: bytes)
    requires Apart(blocks, 0, capacity) && i < |blocks| && Above(blocks, i, base, before, now) && base + blocks[i].End() <= |before|
    ensures var at := base + Landing(blocks, i); var after := SlideStep(now, blocks[i], Landing(blocks, i), base);
      && at + blocks[i].size <= |after|
      && after[..at] == now[..at]
      && after[at..at + blocks[i].size] == before[base..][blocks[i].off..blocks[i].End()]
  {
    LandingBelow(blocks, i, capacity);
    AboveSlice(blocks, i, base, before, now, base + blocks[i].off, blocks[i].size);
    SubSlice(before, base, blocks[i].off, blocks[i].size);
  }

  /** Bytes already packed, untouched by the next copy, and the chunk it brings. */
  lemma OneMorePacked(now: bytes, after: bytes, base: nat, n: nat, m: nat, packed: bytes, chunk: bytes)
    requires |after| == |now| && base + n + m <= |after| && after[..base + n] == now[..base + n]
    requires now[base..base + n] == packed && after[base + n..base + n + m] == chunk
    ensures after[base..base + n + m] == packed + chunk
  {
    assert after[..base + n][base..] == after[base..base + n] && now[..base + n][base..] == now[base..base + n];
    JoinSlices(after, base, n, m);
  }

  lemma StepGathered(blocks: seq<Block>, i: nat, base: u32, capacity: u32, before: bytes, now: bytes)
    requires Apart(blocks, 0, capacity) && i < |blocks| && |now| == |before|
    requires Above(blocks, i, base, before, now) && Gathered(blocks, i, base, before, now)
    ensures Gathered(blocks, i + 1, base, before, SlideStep(now, blocks[i], Landing(blocks, i), base))
  {
    if base <= |before| && Within(blocks[..i + 1], |before| - base) { StepPacked(blocks, i, base, capacity, before, now); }
  }

  lemma StepPacked(blocks: seq<Block>, i: nat, base: u32, capacity: u32, before: bytes, now: bytes)
    requires Apart(blocks, 0, capacity) && i < |blocks| && |now| == |before| && Above(blocks, i, base, before, now)
    requires base <= |before| && Within(blocks[..i + 1], |before| - base) && Gathered(blocks, i, base, before, now)
    ensures base + Landing(blocks, i + 1) <= |before|
    ensures SlideStep(now, blocks[i], Landing(blocks, i), base)[base..base + Landing(blocks, i + 1)] == Gather(blocks[..i + 1], before[base..])
  {
    var n, m := Landing(blocks, i), blocks[i].size;
    PrefixWithin(blocks, i, |before| - base);
    StepChunk(blocks, i, base, capacity, before, now);
    R.GatherStep(blocks, before[base..], i);
    LandingStep(blocks, i);
    OneMorePacked(now, SlideStep(now, blocks[i], n, base), base, n, m, Gather(blocks[..i], before[base..]),
                  before[base..][blocks[i].off..blocks[i].End()]);
  }

  lemma {:induction false} SlidesGather(blocks: seq<Block>, i: nat, base: u32, capacity: u32, before: bytes)
    requires Apart(blocks, 0, capacity) && i <= |blocks|
    ensures Above(blocks, i, base, before, AfterSlides(blocks, i, base, before))
    ensures Gathered(blocks, i, base, before, AfterSlides(blocks, i, base, before))
  {
    if i > 0 {
      SlidesGather(blocks, i - 1, base, capacity, before);
      var now := AfterSlides(blocks, i - 1, base, before);
      StepAbove(blocks, i - 1, base, capacity, before, now);
      StepGathered(blocks, i - 1, base, capacity, before, now);
    }
  }

  lemma {:induction false} SlidesStayInside(blocks: seq<Block>, i: nat, base: u32, capacity: u32, before: bytes)
    requires Apart(blocks, 0, capacity) && i <= |blocks|
    ensures forall p :: 0 <= p < |before| && !(base <= p < base + capacity) ==> AfterSlides(blocks, i, base, before)[p] == before[p]
  {
    if i > 0 {
      SlidesStayInside(blocks, i - 1, base, capacity, before);
      LandingBelow(blocks, i - 1, capacity);
    }
  }

  /** What a successful compaction leaves of a region and its pool. */
  ghost predicate Slid(e: Entry, e': Option<Entry>, remap: HandleRemap, id: u16, before: bytes, after: bytes)
    requires D.AllocOk(e.alloc, e.capacity) && e.alloc.Freelist?
  {
    var blocks := SortedBlocks(e.alloc.live);
    LiveBytesBound(e.alloc.live, e.capacity);
    && e' == Some(e.(generation := NextGeneration(e.generation), alloc := D.Freelist(AsMap(PackFrom(blocks, 0)))))
    && remap == HandleRemap(id, e.generation, NextGeneration(e.generation), MappingFrom(blocks, 0))
    && Packs(blocks, e.base, before, after)
  }

  /** What a compaction of region `e` answers and leaves behind. A copy past the pool's memory ends it. */
  ghost predicate CompactsTo(e: Entry, e': Option<Entry>, r: Result<HandleRemap>, id: u16, before: bytes, after: bytes)
    requires D.AllocOk(e.alloc, e.capacity)
  {
    if e.pinned then r == Err(Pinned) && after == before
    else if e.alloc.Bump? then r == Err(UnsupportedAllocator) && after == before
    else
      var blocks := SortedBlocks(e.alloc.live);
      var done := FirstMisfit(blocks, 0, e.base, |before|);
      && (r.Ok? <==> done == |blocks|) && (r.Err? ==> r.error == OutOfBounds)
      && after == AfterSlides(blocks, done, e.base, before)
      && (forall p :: 0 <= p < |before| && !(e.base <= p < e.End()) ==> after[p] == before[p])
      && (r.Ok? ==> Slid(e, e', r.value, id, before, after))
  }

  lemma SlideResult(blocks: seq<Block>, base: u32, capacity: u32, before: bytes, after: bytes, ok: bool, done: nat)
    requires Apart(blocks, 0, capacity) && done <= |blocks| && after == AfterSlides(blocks, done, base, before)
    requires ok ==> done == |blocks|
    ensures |after| == |before| && forall p :: 0 <= p < |before| && !(base <= p < base + capacity) ==> after[p] == before[p]
    ensures ok ==> Packs(blocks, base, before, after)
  {
    SlidesStayInside(blocks, done, base, capacity, before);
    SlidesGather(blocks, |blocks|, base, capacity, before);
    assert blocks[..|blocks|] == blocks;
  }

  lemma CompactedAlloc(live: Live, capacity: u32)
    requires LiveOk(live, capacity)
    ensures LiveBytes(live) <= capacity && LiveOk(AsMap(PackFrom(SortedBlocks(live), 0)), capacity)
  {
    LiveBytesBound(live, capacity);
    SortedBlocksApart(live, 0, capacity);
    ApartAbove(SortedBlocks(live), 0, capacity);
    PackFromLayout(SortedBlocks(live), 0);
    PackedLive(PackFrom(SortedBlocks(live), 0), capacity);
  }

  // ---------------------------------------------------------------------------------------------
  // Region ids.
  // ---------------------------------------------------------------------------------------------

  /** The id counter and the number of slots. */
  datatype Ids = Ids(next: u16, slotCount: nat)

  /** What one create does to them: the id is taken first, and only a placed region gets a slot. */
  function TakeId(s: Ids, placed: bool): (Ids, Option<u16>) {
    if s.next == U16_MAX then (s, None)
    else (Ids(s.next + 1, if placed then s.slotCount + 1 else s.slotCount), if placed then Some(s.next) else None)
  }

  /** The counter after a run of creates; `false` is a create that found no room. */
  function AfterCreates(placements: seq<bool>): Ids {
    if placements == [] then Ids(1, 1) else TakeId(AfterCreates(placements[..|placements| - 1]), placements[|placements| - 1]).0
  }

  lemma {:induction false} IdsAfterCreates(placements: seq<bool>)
    requires |placements| < U16_MAX
    ensures var s := AfterCreates(placements);
      && s.next == |placements| + 1 && 1 <= s.slotCount <= s.next
      && (s.slotCount == s.next <==> forall i :: 0 <= i < |placements| ==> placements[i])
  {
    if placements != [] {
      var before := placements[..|placements| - 1];
      IdsAfterCreates(before);
      assert forall i :: 0 <= i < |before| ==> before[i] == placements[i];
    }
  }

  /** The id a successful create returns is the index of the slot it fills exactly when no create
      before it failed. */
  lemma IdIsSlotIff(placements: seq<bool>)
    requires |placements| + 1 < U16_MAX
    ensures var s := AfterCreates(placements); var (t, id) := TakeId(s, true);
      id.Some? && (id.value == s.slotCount <==> forall i :: 0 <= i < |placements| ==> placements[i])
  {
    IdsAfterCreates(placements);
  }

  class GuestDirectory {
    var pools: seq<Pool>
    var slots: seq<Option<Entry>>
    var nextId: u16
    var cursorHot: u32
    var cursorWarm: u32

    ghost predicate Valid()
      reads this
    {
      && Placed(pools, slots) && 1 <= |slots| <= nextId && slots[0].None?
      && |pools| <= U16_MAX && cursorHot <= U16_MAX && cursorWarm <= U16_MAX
    }

    constructor (pools: seq<Pool>)
      requires |pools| <= U16_MAX && forall i :: 0 <= i < |pools| ==> pools[i].used <= pools[i].capacity
      ensures Valid() && this.pools == pools && slots == [None] && nextId == 1
    {
      this.pools := pools;
      slots := [None];
      nextId := 1;
      cursorHot, cursorWarm := 0, 0;
    }

    function Lookup(id: u16): Option<Entry>
      reads this
    {
      if id < |slots| then slots[id] else None
    }

    /** One band: the first pool with room, in turn from the cursor. */
    static method ScanBand(pools: seq<Pool>, lo: u32, hi: u32, cursor: u32, capacity: u32) returns (r: Option<nat>, next: u32)
      requires lo < hi <= |pools| && |pools| <= U16_MAX && cursor <= U16_MAX
      ensures r.None? ==> next == cursor && forall i :: lo <= i < hi ==> !Fits(pools[i], capacity)
      ensures r.Some? ==> exists k: nat :: FirstInTurn(pools, lo, hi, cursor, capacity, k) && r.value == Turn(lo, hi, cursor, k) && next == (cursor + k + 1) % (hi - lo)
      ensures r.Some? ==> next < hi - lo
    {
      var span := hi - lo;
      var k := 0;
      while k < span
        invariant 0 <= k <= span
        invariant forall j :: 0 <= j < k ==> !Fits(pools[Turn(lo, hi, cursor, j)], capacity)
      {
        var idx := lo + (cursor + k) % span;
        assert idx == Turn(lo, hi, cursor, k);
        if Fits(pools[idx], capacity) {
          assert FirstInTurn(pools, lo, hi, cursor, capacity, k);
          return Some(idx), (cursor + k + 1) % span;
        }
        k := k + 1;
      }
      forall i: nat | lo <= i < hi ensures !Fits(pools[i], capacity) {
        var j := TurnCovers(lo, hi, cursor, i);
        assert !Fits(pools[Turn(lo, hi, cursor, j)], capacity);
      }
      return None, cursor;
    }

    /** The `k`-th pool of the turn has room and the ones before it have none. */
    static ghost predicate FirstInTurn(pools: seq<Pool>, lo: nat, hi: nat, cursor: nat, capacity: u32, k: nat)
      requires lo < hi <= |pools|
    {
      k < hi - lo && Fits(pools[Turn(lo, hi, cursor, k)], capacity) && forall j :: 0 <= j < k ==> !Fits(pools[Turn(lo, hi, cursor, j)], capacity)
    }

    static predicate Fits(p: Pool, capacity: u32) { p.capacity - p.used >= capacity }

    /** The preferred band first, then the other; fails only when no pool has room. */
    method ChoosePool(capacity: u32, prefersHot: bool) returns (r: Option<nat>)
      requires Valid()
      modifies this`cursorHot, this`cursorWarm
      ensures Valid()
      ensures r.None? <==> forall i :: 0 <= i < |pools| ==> !Fits(pools[i], capacity)
      ensures r.Some? ==> r.value < |pools| && Fits(pools[r.value], capacity)
      ensures var mid := (|pools| + 1) / 2;
        r.Some? && (r.value < mid) != prefersHot ==> forall i :: 0 <= i < |pools| && (i < mid) == prefersHot ==> !Fits(pools[i], capacity)
      ensures r.None? ==> cursorHot == old(cursorHot) && cursorWarm == old(cursorWarm)
    {
      var n: u32 := |pools|;
      if n == 0 { return None; }
      var mid: u32 := (n + 1) / 2;
      var next: u32;
      if prefersHot {
        r, next := ScanBand(pools, 0, mid, cursorHot, capacity);
        cursorHot := next;
        if r.Some? { return; }
        if mid < n {
          r, next := ScanBand(pools, mid, n, cursorWarm, capacity);
          cursorWarm := next;
        }
      } else {
        r := None;
        if mid < n {
          r, next := ScanBand(pools, mid, n, cursorWarm, capacity);
          cursorWarm := next;
          if r.Some? { return; }
        }
        r, next := ScanBand(pools, 0, mid, cursorHot, capacity);
        cursorHot := next;
      }
    }

    /** The id is taken before a pool is found, so a failed placement still consumes it; the region
        always goes into the next slot. */
    method CreateRegion(kind: D.RegionKind, capacity: u32, ak: D.AllocatorKind) returns (r: Result<u16>)
      requires Valid()
      modifies this
      ensures Valid()
      ensures r.Ok? ==>
        && |slots| == old(|slots|) + 1 && slots[..old(|slots|)] == old(slots)
        && slots[old(|slots|)].Some?
        && var e := slots[old(|slots|)].value;
        && e == Entry(1, capacity, false, D.PolicyFor(kind).pinnable, e.pool, e.base, if ak == D.BumpKind then D.Bump(0) else D.Freelist(map[]))
        && e.pool < |old(pools)| && e.base == old(pools)[e.pool].used
        && pools == old(pools)[e.pool := Pool(e.End(), old(pools)[e.pool].capacity)]
      ensures r.Err? ==> slots == old(slots) && pools == old(pools) && r.error == AllocationFailed
      ensures (Ids(nextId, |slots|), if r.Ok? then Some(r.value) else None) == TakeId(old(Ids(nextId, |slots|)), r.Ok?)
      ensures r.Ok? <==> old(nextId) < U16_MAX && exists i :: 0 <= i < |old(pools)| && Fits(old(pools[i]), capacity)
    {
      var id := nextId;
      if nextId == U16_MAX { return Err(AllocationFailed); }
      nextId := nextId + 1;
      var policy := D.PolicyFor(kind);
      var at := ChoosePool(capacity, policy.initial == D.Hot);
      if at.None? { return Err(AllocationFailed); }
      var pool := pools[at.value];
      var base := pool.used;
      var e := Entry(1, capacity, false, policy.pinnable, at.value, base, if ak == D.BumpKind then D.Bump(0) else D.Freelist(map[]));
      PlaceOne(pools, slots, at.value, e);
      pools := pools[at.value := Pool(pool.used + capacity, pool.capacity)];
      slots := slots + [Some(e)];
      return Ok(id);
    }

    method Alloc(id: u16, size: u32) returns (r: Result<Handle>)
      requires Valid()
      modifies this`slots
      ensures Valid() && |slots| == old(|slots|)
      ensures old(Lookup(id)).None? ==> r == Err(RegionNotFound(id)) && slots == old(slots)
      ensures old(Lookup(id)).Some? ==>
        var e := old(Lookup(id)).value; var (a, o) := D.AllocIn(e.alloc, e.capacity, size, 1);
        && slots == old(slots)[id := Some(e.(alloc := a))]
        && r == if o.Err? then Err(o.error) else Ok(Handle(id, e.generation, o.value))
    {
      var entry := Lookup(id);
      if entry.None? { return Err(RegionNotFound(id)); }
      var e := entry.value;
      assert EntryOk(pools, e);
      D.AllocInOk(e.alloc, e.capacity, size, 1);
      var (a, o) := D.AllocIn(e.alloc, e.capacity, size, 1);
      ReplaceOne(pools, slots, id, e.(alloc := a));
      slots := slots[id := Some(e.(alloc := a))];
      return if o.Err? then Err(o.error) else Ok(Handle(id, e.generation, o.value));
    }

    method Dealloc(h: Handle) returns (r: Result<()>)
      requires Valid()
      modifies this`slots
      ensures Valid() && |slots| == old(|slots|)
      ensures old(Lookup(h.regionId)).None? ==> r == Err(RegionNotFound(h.regionId)) && slots == old(slots)
      ensures old(Lookup(h.regionId)).Some? ==>
        var e := old(Lookup(h.regionId)).value; var (a, o) := D.DeallocIn(e.alloc, h.offset);
        if e.generation != h.generation then r == Err(StaleHandle) && slots == old(slots)
        else
          && slots == old(slots)[h.regionId := Some(e.(alloc := a))]
          && r == if o.Err? then Err(o.error) else Ok(())
    {
      var entry := Lookup(h.regionId);
      if entry.None? { return Err(RegionNotFound(h.regionId)); }
      var e := entry.value;
      if e.generation != h.generation { return Err(StaleHandle); }
      assert EntryOk(pools, e);
      var (a, o) := D.DeallocIn(e.alloc, h.offset);
      assert D.AllocOk(a, e.capacity);
      ReplaceOne(pools, slots, h.regionId, e.(alloc := a));
      slots := slots[h.regionId := Some(e.(alloc := a))];
      return if o.Err? then Err(o.error) else Ok(());
    }

    method Pin(id: u16) returns (r: Result<()>)
      requires Valid()
      modifies this`slots
      ensures Valid() && |slots| == old(|slots|)
      ensures old(Lookup(id)).None? ==> r == Err(RegionNotFound(id)) && slots == old(slots)
      ensures old(Lookup(id)).Some? ==>
        var e := old(Lookup(id)).value;
        if !e.pinnable then r == Err(PolicyViolation) && slots == old(slots)
        else r == Ok(()) && slots == old(slots)[id := Some(e.(pinned := true))]
    {
      var entry := Lookup(id);
      if entry.None? { return Err(RegionNotFound(id)); }
      var e := entry.value;
      if !e.pinnable { return Err(PolicyViolation); }
      assert EntryOk(pools, e);
      ReplaceOne(pools, slots, id, e.(pinned := true));
      slots := slots[id := Some(e.(pinned := true))];
      return Ok(());
    }

    method Resolve(h: Handle) returns (r: Result<(nat, u32)>)
      requires Valid()
      ensures r == ResolveIn(slots, h)
    {
      var e := Lookup(h.regionId);
      if e.None? { return Err(RegionNotFound(h.regionId)); }
      if e.value.generation != h.generation { return Err(StaleHandle); }
      var absolute := e.value.base + h.offset;
      if absolute > U32_MAX { return Err(OutOfBounds); }
      return Ok((e.value.pool, absolute));
    }

    /** Slides the region's live blocks down to its base, in address order, inside the pool. */
    method CompactRegion(id: u16, mem: array<byte>) returns (r: Result<HandleRemap>)
      requires Valid()
      modifies this`slots, mem
      ensures Valid() && pools == old(pools) && |slots| == old(|slots|)
      ensures forall i :: 0 <= i < |slots| && i != id ==> slots[i] == old(slots[i])
      ensures old(Lookup(id)).None? ==> r == Err(RegionNotFound(id)) && mem[..] == old(mem[..])
      ensures old(Lookup(id)).Some? ==> CompactsTo(old(Lookup(id)).value, Lookup(id), r, id, old(mem[..]), mem[..])
      ensures r.Err? ==> slots == old(slots)
    {
      var entry := Lookup(id);
      if entry.None? { return Err(RegionNotFound(id)); }
      var e := entry.value;
      assert EntryOk(pools, e);
      var slid: Entry;
      r, slid := SlideRegion(e, id, mem);
      if r.Ok? {
        ReplaceOne(pools, slots, id, slid);
        slots := slots[id := Some(slid)];
      }
    }

    /** The checks, the slide, and then the new generation and the rebuilt allocator. */
    static method SlideRegion(e: Entry, id: u16, mem: array<byte>) returns (r: Result<HandleRemap>, slid: Entry)
      requires D.AllocOk(e.alloc, e.capacity) && e.generation != 0 && e.End() <= U32_MAX
      modifies mem
      ensures CompactsTo(e, Some(slid), r, id, old(mem[..]), mem[..])
      ensures r.Err? ==> slid == e
      ensures D.AllocOk(slid.alloc, e.capacity) && slid == e.(generation := slid.generation, alloc := slid.alloc) && slid.generation != 0
    {
      slid := e;
      if e.pinned { return Err(Pinned), e; }
      if e.alloc.Bump? { return Err(UnsupportedAllocator), e; }
      var blocks := SortedBlocks(e.alloc.live);
      SortedBlocksApart(e.alloc.live, 0, e.capacity);
      ApartAbove(blocks, 0, e.capacity);
      ghost var before := mem[..];
      var ok, mapping, newBlocks, done := SlideAll(blocks, e.base, e.capacity, mem);
      SlideResult(blocks, e.base, e.capacity, before, mem[..], ok, done);
      if !ok { return Err(OutOfBounds), e; }
      var next: u16 := (e.generation + 1) % 0x10000;
      if next == 0 { next := 1; }
      CompactedAlloc(e.alloc.live, e.capacity);
      slid := e.(generation := next, alloc := D.Freelist(AsMap(newBlocks)));
      r := Ok(HandleRemap(id, e.generation, next, mapping));
    }

    /** The slide itself: `memory.copy` within the pool, skipped for a block already in place. */
    static method SlideAll(blocks: seq<Block>, base: u32, capacity: u32, mem: array<byte>)
        returns (ok: bool, mapping: map<u32, u32>, newBlocks: seq<Block>, ghost done: nat)
      requires Apart(blocks, 0, capacity) && TotalSize(blocks) <= capacity && base + capacity <= U32_MAX
      modifies mem
      ensures done == FirstMisfit(blocks, 0, base, mem.Length) && (ok <==> done == |blocks|)
      ensures mem[..] == AfterSlides(blocks, done, base, old(mem[..]))
      ensures ok ==> mapping == MappingFrom(blocks, 0) && newBlocks == PackFrom(blocks, 0)
    {
      mapping, newBlocks, done := map[], [], 0;
      var cursor: u32 := 0;
      var i := 0;
      assert blocks[0..] == blocks;
      while i < |blocks|
        invariant 0 <= i <= |blocks| && cursor == Landing(blocks, i) && done == i
        invariant R.Listed(blocks, i, cursor, mapping, newBlocks, capacity)
        invariant FirstMisfit(blocks, 0, base, mem.Length) == FirstMisfit(blocks, i, base, mem.Length)
        invariant mem[..] == AfterSlides(blocks, i, base, old(mem[..]))
      {
        LandingBelow(blocks, i, capacity);
        var moved := SlideOne(blocks[i], cursor, base, mem);
        if !moved { return false, mapping, newBlocks, i; }
        mapping, newBlocks, cursor := Record(blocks, i, cursor, mapping, newBlocks, capacity);
        i := i + 1;
        done := i;
      }
      ok := true;
    }

    /** Notes where block `i` went. */
    static method Record(blocks: seq<Block>, i: nat, cursor: u32, mapping: map<u32, u32>, newBlocks: seq<Block>, capacity: u32)
        returns (m: map<u32, u32>, n: seq<Block>, next: u32)
      requires i < |blocks| && cursor == Landing(blocks, i) && R.Listed(blocks, i, cursor, mapping, newBlocks, capacity)
      ensures next == Landing(blocks, i + 1) && R.Listed(blocks, i + 1, next, m, n, capacity)
    {
      R.ListStep(blocks, i, cursor, mapping, newBlocks, capacity);
      LandingStep(blocks, i);
      return mapping[blocks[i].off := cursor], newBlocks + [Block(cursor, blocks[i].size)], cursor + blocks[i].size;
    }

    /** One block, copied only if it is not in place already. */
    static method SlideOne(b: Block, cursor: u32, base: u32, mem: array<byte>) returns (ok: bool)
      requires cursor <= b.off && base + b.End() <= U32_MAX
      modifies mem
      ensures ok <==> b.off == cursor || base + b.End() <= mem.Length
      ensures mem[..] == SlideStep(old(mem[..]), b, cursor, base)
    {
      if b.off != cursor {
        if base + b.End() > mem.Length { return false; }
        assert cursor + b.size <= b.End();
        IntraPoolCopy(mem, base + cursor, base + b.off, b.size);
      }
      ok := true;
    }

    /** `memory.copy K K`: overlapping ranges behave as if copied through a scratch buffer. */
    static method IntraPoolCopy(mem: array<byte>, dst: u32, src: u32, len: u32)
      requires dst + len <= mem.Length && src + len <= mem.Length
      modifies mem
      ensures mem[..] == Splice(old(mem[..]), dst, old(mem[..])[src..src + len])
    {
      forall k | 0 <= k < len { mem[dst + k] := mem[src + k]; }
    }
  }

  // ---------------------------------------------------------------------------------------------
  // What in-place compaction means.
  // ---------------------------------------------------------------------------------------------

  lemma {:induction false} GatherFrom(blocks: seq<Block>, a: bytes, b: bytes)
    requires Within(blocks, |a|)
    ensures Within(blocks, |a + b|) && Gather(blocks, a + b) == Gather(blocks, a)
  {
    if blocks != [] {
      assert blocks[0] in blocks;
      GatherFrom(blocks[1..], a, b);
      assert (a + b)[blocks[0].off..blocks[0].End()] == a[blocks[0].off..blocks[0].End()];
    }
  }

  /** The guest's packed bytes are the host's for the same region. */
  lemma GuestPacksAsHost(live: Live, capacity: u32, base: u32, before: bytes, after: bytes)
    requires LiveOk(live, capacity) && base + capacity <= |before| && Packs(SortedBlocks(live), base, before, after)
    ensures Within(SortedBlocks(live), capacity) && LiveBytes(live) <= capacity && |after| == |before|
    ensures var host := Compact(live, before[base..base + capacity], capacity).mem; var n := LiveBytes(live);
      n <= |host| && after[base..base + n] == host[..n]
  {
    var blocks := SortedBlocks(live);
    var region, rest := before[base..base + capacity], before[base + capacity..];
    LiveBytesBound(live, capacity);
    SortedBlocksApart(live, 0, capacity);
    ApartAbove(blocks, 0, capacity);
    assert region + rest == before[base..];
    GatherFrom(blocks, region, rest);
    GatherSize(blocks, region);
    assert Compact(live, region, capacity).mem[..TotalSize(blocks)] == Gather(blocks, region);
  }

  /** A handle migrated through a guest compaction reads its own bytes. */
  lemma GuestBlockMoves(live: Live, capacity: u32, base: u32, before: bytes, after: bytes, o: u32)
    requires LiveOk(live, capacity) && base + capacity <= |before| && o in live && Packs(SortedBlocks(live), base, before, after)
    ensures Within(SortedBlocks(live), capacity)
    ensures var at := Compact(live, before[base..base + capacity], capacity).mapping;
      && o in at && base + at[o] + live[o] <= |after| && base + o + live[o] <= |before|
      && Slice(after, base + at[o], live[o]) == Slice(before, base + o, live[o])
  {
    GuestPacksAsHost(live, capacity, base, before, after);
    HostBlockBytes(live, capacity, base, before, after, o);
  }

  lemma HostBlockBytes(live: Live, capacity: u32, base: u32, before: bytes, after: bytes, o: u32)
    requires LiveOk(live, capacity) && base + capacity <= |before| && o in live
    requires Within(SortedBlocks(live), capacity) && LiveBytes(live) <= capacity && base + LiveBytes(live) <= |after|
    requires var host := Compact(live, before[base..base + capacity], capacity).mem;
      LiveBytes(live) <= |host| && after[base..base + LiveBytes(live)] == host[..LiveBytes(live)]
    ensures var at := Compact(live, before[base..base + capacity], capacity).mapping;
      && o in at && base + at[o] + live[o] <= |after| && base + o + live[o] <= |before|
      && Slice(after, base + at[o], live[o]) == Slice(before, base + o, live[o])
  {
    var region := before[base..base + capacity];
    var c := Compact(live, region, capacity);
    HostBlock(live, region, capacity, o);
    BlockBytes(before, after, base, capacity, c.mem, LiveBytes(live), c.mapping[o], o, live[o]);
  }

  lemma HostBlock(live: Live, region: bytes, capacity: u32, o: u32)
    requires LiveOk(live, capacity) && |region| == capacity && o in live && Within(SortedBlocks(live), capacity)
    ensures var c := Compact(live, region, capacity);
      && o in c.mapping && o + live[o] <= capacity && c.mapping[o] + live[o] <= LiveBytes(live)
      && c.mapping[o] + live[o] <= |c.mem| && Slice(c.mem, c.mapping[o], live[o]) == Slice(region, o, live[o])
  {
    MigratedBlock(live, region, capacity, o);
    MigratedBelow(live, region, capacity, o);
  }

  lemma BlockBytes(before: bytes, after: bytes, base: nat, capacity: nat, host: bytes, n: nat, at: nat, o: nat, m: nat)
    requires n <= |host| && base + n <= |after| && after[base..base + n] == host[..n] && at + m <= n
    requires base + capacity <= |before| && o + m <= capacity
    requires Slice(host, at, m) == Slice(before[base..base + capacity], o, m)
    ensures Slice(after, base + at, m) == Slice(before, base + o, m)
  {
    PackedSlice(after, base, host, n, at, m);
    NestedSlice(before, base, base + capacity, o, m);
  }

  lemma NestedSlice(s: bytes, lo: nat, hi: nat, at: nat, m: nat)
    requires lo <= hi <= |s| && lo + at + m <= hi
    ensures s[lo..hi][at..at + m] == s[lo + at..lo + at + m]
  {
    var a, b := s[lo..hi][at..at + m], s[lo + at..lo + at + m];
    assert |a| == |b|;
    forall k | 0 <= k < m ensures a[k] == b[k] { assert a[k] == s[lo..hi][at + k]; }
  }

  lemma PackedSlice(after: bytes, base: nat, host: bytes, n: nat, at: nat, m: nat)
    requires n <= |host| && base + n <= |after| && after[base..base + n] == host[..n] && at + m <= n
    ensures after[base + at..base + at + m] == host[at..at + m]
  {
    NestedSlice(after, base, base + n, at, m);
    NestedSlice(host, 0, n, at, m);
  }

  lemma MigratedBelow(live: Live, mem: bytes, capacity: u32, o: u32)
    requires LiveOk(live, capacity) && Within(SortedBlocks(live), |mem|) && o in live
    ensures var c := Compact(live, mem, capacity); o in c.mapping && c.mapping[o] + live[o] <= LiveBytes(live)
  {
    var i := IndexOf(live, o);
    MigratedOffset(live, mem, capacity, i);
    LandingStep(SortedBlocks(live), i);
  }

  /** Every other region of the pool keeps its bytes. */
  lemma OthersUntouched(pools: seq<Pool>, slots: seq<Option<Entry>>, i: nat, j: nat, before: bytes, after: bytes, p: int)
    requires Placed(pools, slots) && i < |slots| && j < |slots| && i != j && slots[i].Some? && slots[j].Some?
    requires slots[i].value.pool == slots[j].value.pool && |after| == |before|
    requires forall q :: 0 <= q < |before| && !(slots[i].value.base <= q < slots[i].value.End()) ==> after[q] == before[q]
    requires slots[j].value.base <= p < slots[j].value.End() && p < |before|
    ensures after[p] == before[p]
  {
    if i < j { assert Disjoint(slots[i].value, slots[j].value); } else { assert Disjoint(slots[j].value, slots[i].value); }
  }

  // ---------------------------------------------------------------------------------------------
  // What a refused compaction leaves behind.
  // ---------------------------------------------------------------------------------------------

  /** Slides from block `k` on write only above the landing place of block `k`. */
  lemma {:induction false} LaterSlidesAbove(blocks: seq<Block>, k: nat, m: nat, base: u32, capacity: u32, before: bytes, p: nat)
    requires Apart(blocks, 0, capacity) && k <= m <= |blocks| && p < base + Landing(blocks, k) && p < |before|
    ensures AfterSlides(blocks, m, base, before)[p] == AfterSlides(blocks, k, base, before)[p]
  {
    if k < m {
      LaterSlidesAbove(blocks, k, m - 1, base, capacity, before, p);
      LandingBelow(blocks, m - 1, capacity);
      if k < m - 1 {
        ApartAbove(blocks, 0, capacity);
        LandingMonotone(blocks, k, m - 1);
      }
    }
  }

  lemma SlidByte(now: bytes, b: Block, cursor: nat, base: u32, d: nat)
    requires cursor < b.off && base + b.End() <= |now| && d < b.size
    ensures SlideStep(now, b, cursor, base)[base + cursor + d] == now[base + b.off + d]
  {
    assert now[base + b.off..base + b.End()][d] == now[base + b.off + d];
  }

  /** Where a block has moved to, its own old bytes stay to the end. */
  lemma MovedByte(blocks: seq<Block>, k: nat, m: nat, base: u32, capacity: u32, before: bytes, d: nat)
    requires Apart(blocks, 0, capacity) && k < m <= |blocks| && Moves(blocks, k) && base + blocks[k].End() <= |before|
    requires d < blocks[k].size
    ensures Landing(blocks, k) < blocks[k].off
    ensures AfterSlides(blocks, m, base, before)[base + Landing(blocks, k) + d] == before[base + blocks[k].off + d]
  {
    LandingBelow(blocks, k, capacity);
    StaysMoved(blocks, k, m, base, capacity, before, d);
    MovesByte(blocks, k, base, capacity, before, d);
  }

  /** Untouched until the move, and then moved. */
  lemma MovesByte(blocks: seq<Block>, k: nat, base: u32, capacity: u32, before: bytes, d: nat)
    requires Apart(blocks, 0, capacity) && k < |blocks| && Landing(blocks, k) < blocks[k].off && base + blocks[k].End() <= |before|
    requires d < blocks[k].size
    ensures SlideStep(AfterSlides(blocks, k, base, before), blocks[k], Landing(blocks, k), base)[base + Landing(blocks, k) + d]
      == before[base + blocks[k].off + d]
  {
    PendingByte(blocks, k, base, capacity, before, base + blocks[k].off + d);
    SlidByte(AfterSlides(blocks, k, base, before), blocks[k], Landing(blocks, k), base, d);
  }

  lemma PendingByte(blocks: seq<Block>, k: nat, base: u32, capacity: u32, before: bytes, q: nat)
    requires Apart(blocks, 0, capacity) && k < |blocks| && base + blocks[k].off <= q < |before|
    ensures AfterSlides(blocks, k, base, before)[q] == before[q]
  {
    LandingBelow(blocks, k, capacity);
    SlidesGather(blocks, k, base, capacity, before);
  }

  lemma StaysMoved(blocks: seq<Block>, k: nat, m: nat, base: u32, capacity: u32, before: bytes, d: nat)
    requires Apart(blocks, 0, capacity) && k < m <= |blocks| && d < blocks[k].size && base + Landing(blocks, k) + d < |before|
    ensures AfterSlides(blocks, m, base, before)[base + Landing(blocks, k) + d]
      == SlideStep(AfterSlides(blocks, k, base, before), blocks[k], Landing(blocks, k), base)[base + Landing(blocks, k) + d]
  {
    LandingStep(blocks, k);
    LaterSlidesAbove(blocks, k + 1, m, base, capacity, before, base + Landing(blocks, k) + d);
  }

  /** A byte that no moved block lands on is as before. */
  lemma {:induction false} UnwrittenByte(blocks: seq<Block>, m: nat, base: u32, before: bytes, p: nat)
    requires m <= |blocks| && base + p < |before|
    requires forall k :: 0 <= k < m && Moves(blocks, k) ==> !LandsOn(blocks, k, p)
    ensures AfterSlides(blocks, m, base, before)[base + p] == before[base + p]
  {
    if m > 0 {
      UnwrittenByte(blocks, m - 1, base, before, p);
      assert Moves(blocks, m - 1) ==> !LandsOn(blocks, m - 1, p);
    }
  }

  predicate LandsOn(blocks: seq<Block>, k: nat, p: int)
    requires k < |blocks|
  {
    Landing(blocks, k) <= p < Landing(blocks, k) + blocks[k].size
  }

  /** A compaction refused at some block leaves the pool as it was, whatever the pool holds, exactly when
      no block before that one had to move. */
  lemma RefusedUnchangedIff(blocks: seq<Block>, base: u32, capacity: u32, limit: nat)
    requires Apart(blocks, 0, capacity)
    ensures var m := FirstMisfit(blocks, 0, base, limit);
      (forall before: bytes :: |before| == limit ==> AfterSlides(blocks, m, base, before) == before) <==>
      (forall k :: 0 <= k < m ==> !Moves(blocks, k))
  {
    var m := FirstMisfit(blocks, 0, base, limit);
    if k :| 0 <= k < m && Moves(blocks, k) {
      LandingBelow(blocks, k, capacity);
      var p := Landing(blocks, k);
      var before := OneMark(limit, base + p);
      MovedByte(blocks, k, m, base, capacity, before, 0);
      assert AfterSlides(blocks, m, base, before) != before;
    } else {
      forall before: bytes | |before| == limit ensures AfterSlides(blocks, m, base, before) == before {
        NothingMoves(blocks, m, base, before);
      }
    }
  }

  lemma {:induction false} NothingMoves(blocks: seq<Block>, m: nat, base: u32, before: bytes)
    requires m <= |blocks| && forall k :: 0 <= k < m ==> !Moves(blocks, k)
    ensures AfterSlides(blocks, m, base, before) == before
  {
    if m > 0 {
      NothingMoves(blocks, m - 1, base, before);
      assert !Moves(blocks, m - 1);
    }
  }

  /** Zeros with a one at `p`. */
  function OneMark(n: nat, p: nat): (r: bytes)
    ensures |r| == n && forall i :: 0 <= i < n ==> r[i] == if i == p then 1 else 0
  {
    seq(n, i => if i == p then 1 else 0)
  }

  /** Every live byte of the old block table that the memory holds is where it was. */
  ghost predicate BlocksIntact(blocks: seq<Block>, base: u32, before: bytes, after: bytes) {
    && |after| == |before|
    && forall j, p :: 0 <= j < |blocks| && blocks[j].Covers(p) && base + p < |before| ==> after[base + p] == before[base + p]
  }

  /** A moved block `k` lands on old bytes of block `j`. */
  ghost predicate Overwrites(blocks: seq<Block>, k: nat, j: nat)
    requires k < |blocks| && j < |blocks|
  {
    Moves(blocks, k) && exists p :: LandsOn(blocks, k, p) && blocks[j].Covers(p)
  }

  /** No block moved before block `m` lands on an old byte of itself or of an earlier block. */
  ghost predicate NeverOverwrites(blocks: seq<Block>, m: nat)
    requires m <= |blocks|
  {
    forall k, j :: 0 <= j <= k < m ==> !Overwrites(blocks, k, j)
  }

  ghost predicate AlwaysIntact(blocks: seq<Block>, m: nat, base: u32, limit: nat)
    requires m <= |blocks|
  {
    forall before: bytes :: |before| == limit ==> BlocksIntact(blocks, base, before, AfterSlides(blocks, m, base, before))
  }

  /** A compaction refused at some block loses no live byte, whatever the pool holds, exactly when no
      block moved before it landed on an old byte of itself or of an earlier block. */
  lemma RefusedKeepsBlocksIff(blocks: seq<Block>, base: u32, capacity: u32, limit: nat)
    requires Apart(blocks, 0, capacity)
    ensures var m := FirstMisfit(blocks, 0, base, limit); AlwaysIntact(blocks, m, base, limit) <==> NeverOverwrites(blocks, m)
  {
    var m := FirstMisfit(blocks, 0, base, limit);
    if NeverOverwrites(blocks, m) {
      forall before: bytes | |before| == limit ensures BlocksIntact(blocks, base, before, AfterSlides(blocks, m, base, before)) {
        AllIntact(blocks, base, capacity, m, before);
      }
    } else {
      SomethingLost(blocks, base, capacity, limit, m);
    }
  }

  lemma SomethingLost(blocks: seq<Block>, base: u32, capacity: u32, limit: nat, m: nat)
    requires Apart(blocks, 0, capacity) && m == FirstMisfit(blocks, 0, base, limit) && !NeverOverwrites(blocks, m)
    ensures !AlwaysIntact(blocks, m, base, limit)
  {
    var k, j :| 0 <= j <= k < m && Overwrites(blocks, k, j);
    LostByte(blocks, base, capacity, limit, m, k, j);
  }

  lemma AllIntact(blocks: seq<Block>, base: u32, capacity: u32, m: nat, before: bytes)
    requires Apart(blocks, 0, capacity) && m <= |blocks|
    requires NeverOverwrites(blocks, m)
    ensures BlocksIntact(blocks, base, before, AfterSlides(blocks, m, base, before))
  {
    forall j: nat, p | j < |blocks| && blocks[j].Covers(p) && base + p < |before|
      ensures AfterSlides(blocks, m, base, before)[base + p] == before[base + p]
    {
      NoLanding(blocks, capacity, m, j, p);
      UnwrittenByte(blocks, m, base, before, p);
    }
  }

  lemma LostByte(blocks: seq<Block>, base: u32, capacity: u32, limit: nat, m: nat, k: nat, j: nat)
    requires Apart(blocks, 0, capacity) && m == FirstMisfit(blocks, 0, base, limit) && j <= k < m && Overwrites(blocks, k, j)
    ensures exists before: bytes :: |before| == limit && !BlocksIntact(blocks, base, before, AfterSlides(blocks, m, base, before))
  {
    var p :| LandsOn(blocks, k, p) && blocks[j].Covers(p);
    var before := OneMark(limit, base + p);
    MovedByte(blocks, k, m, base, capacity, before, p - Landing(blocks, k));
    assert !BlocksIntact(blocks, base, before, AfterSlides(blocks, m, base, before));
  }

  /** No move overwrites a block that comes later. */
  lemma NoLanding(blocks: seq<Block>, capacity: u32, m: nat, j: nat, p: int)
    requires Apart(blocks, 0, capacity) && m <= |blocks| && j < |blocks| && blocks[j].Covers(p)
    requires NeverOverwrites(blocks, m)
    ensures forall k :: 0 <= k < m && Moves(blocks, k) ==> !LandsOn(blocks, k, p)
  {
    forall k | 0 <= k < m && Moves(blocks, k) ensures !LandsOn(blocks, k, p) {
      if k < j { PendingUntouched(blocks, k, j, capacity); } else { assert !Overwrites(blocks, k, j); }
    }
  }
}
