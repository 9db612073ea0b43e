/**
 * The guest facade: reads and writes through a single-entry resolve cache in front of the guest
 * directory. Accesses are checked against the pool's memory only, not against the region.
 */
module GuestFacade {
  import opened Core
  import opened Guest
  import opened Compaction
  import D = Directory

  /** Where the last region resolved sits; region 0 means empty. */
  datatype ResolveCache = ResolveCache(regionId: u16, generation: u16, pool: nat, base: u32)

  const EMPTY := ResolveCache(0, 0, 0, 0)

  type Slots = seq<Option<Entry>>

  ghost predicate CacheAgrees(c: ResolveCache, slots: Slots) {
    c.regionId != 0 ==>
      && c.regionId < |slots| && slots[c.regionId].Some?
      && var e := slots[c.regionId].value; c == ResolveCache(c.regionId, e.generation, e.pool, e.base)
  }

  predicate Hits(c: ResolveCache, h: Handle) { h.regionId != 0 && h.regionId == c.regionId && h.generation == c.generation }

  /** A hit adds the handle's offset to the cached base; a miss asks the directory. */
  function CachedIn(c: ResolveCache, slots: Slots, h: Handle): Result<(nat, u32)> {
    if Hits(c, h) then (if c.base + h.offset > U32_MAX then Err(OutOfBounds) else Ok((c.pool, c.base + h.offset)))
    else ResolveIn(slots, h)
  }

  /** The cache is right about every handle exactly when its entry is the directory's. */
  lemma CachedIsResolveIff(c: ResolveCache, slots: Slots)
    ensures (forall h: Handle :: CachedIn(c, slots, h) == ResolveIn(slots, h)) <==> CacheAgrees(c, slots)
  {
    if !CacheAgrees(c, slots) {
      var h := Handle(c.regionId, c.generation, 0);
      assert CachedIn(c, slots, h) != ResolveIn(slots, h);
    }
  }

  /** One pool access after resolving; `mems` is what the pools hold. */
  function GuestRead(slots: Slots, mems: seq<bytes>, h: Handle, len: u32): Result<bytes> {
    var at := ResolveIn(slots, h);
    if at.Err? then Err(at.error)
    else if at.value.1 + len > U32_MAX || at.value.0 >= |mems| || at.value.1 + len > |mems[at.value.0]| then Err(OutOfBounds)
    else Ok(mems[at.value.0][at.value.1..at.value.1 + len])
  }

  function GuestWrite(slots: Slots, mems: seq<bytes>, h: Handle, data: bytes): (seq<bytes>, Result<()>) {
    var at := ResolveIn(slots, h);
    if at.Err? then (mems, Err(at.error))
    else if at.value.1 + |data| > U32_MAX || at.value.0 >= |mems| || at.value.1 + |data| > |mems[at.value.0]| then (mems, Err(OutOfBounds))
    else (mems[at.value.0 := Splice(mems[at.value.0], at.value.1, data)], Ok(()))
  }

  // ---------------------------------------------------------------------------------------------
  // Accesses and region bounds.
  // ---------------------------------------------------------------------------------------------

  /** Every region's range lies in its pool's memory and below 2^32. */
  ghost predicate Covered(slots: Slots, mems: seq<bytes>) {
    forall i :: 0 <= i < |slots| && slots[i].Some? ==>
      var e := slots[i].value; e.pool < |mems| && e.End() <= U32_MAX && e.End() <= |mems[e.pool]|
  }

  /** The regions as the host would hold them: each with its own bytes, cut out of its pool. */
  ghost function HostView(slots: Slots, mems: seq<bytes>): D.Sys
    requires Covered(slots, mems)
  {
    D.Sys(seq(|slots|, i requires 0 <= i < |slots| =>
            if slots[i].None? then None
            else
              var e := slots[i].value;
              Some(D.Region(e.generation, e.capacity, D.Hot, e.pinned, e.pinnable, false,
                            Some(D.Mem(i + 1, mems[e.pool][e.base..e.base + e.capacity])), e.alloc))),
          [], |slots| + 1, map[])
  }

  /** A guest read answers what the host's strict read answers on the regions taken apart, except that a
      read past its region's end which still lies in the pool succeeds. */
  lemma GuestReadAgrees(slots: Slots, mems: seq<bytes>, h: Handle, len: u32)
    requires Covered(slots, mems)
    ensures var guest := GuestRead(slots, mems, h, len); var host := D.Read(HostView(slots, mems), h, len);
      && (host.Ok? ==> guest == Ok(host.value.data))
      && (host.Err? && guest.Ok? <==>
          && h.regionId < |slots| && slots[h.regionId].Some?
          && var e := slots[h.regionId].value;
          && h.generation == e.generation && h.offset + len > e.capacity
          && e.base + h.offset + len <= |mems[e.pool]| && e.base + h.offset + len <= U32_MAX)
  {
    if h.regionId < |slots| && slots[h.regionId].Some? {
      var e := slots[h.regionId].value;
      if h.offset + len <= e.capacity { NestedSlice(mems[e.pool], e.base, e.base + e.capacity, h.offset, len); }
    }
  }

  /** The pool differs nowhere outside the region. */
  ghost predicate OutsideKept(e: Entry, before: bytes, after: bytes) {
    |after| == |before| && forall p :: 0 <= p < |before| && !(e.base <= p < e.End()) ==> after[p] == before[p]
  }

  /** Writes of `n` bytes leave the rest of the pool alone, whatever they write, exactly when they end
      inside the region. */
  lemma WriteStaysInsideIff(e: Entry, mem: bytes, offset: u32, n: nat)
    requires e.base + offset + n <= |mem|
    ensures (forall data: bytes :: |data| == n ==> OutsideKept(e, mem, Splice(mem, e.base + offset, data))) <==>
            n == 0 || offset + n <= e.capacity
  {
    var at := e.base + offset;
    if n > 0 && offset + n > e.capacity {
      var p := at + n - 1;
      var data: bytes := seq(n, i => !mem[p]);
      var after := Splice(mem, at, data);
      assert after[p] == data[n - 1] && after[p] != mem[p];
      assert !OutsideKept(e, mem, after);
    }
  }

  /** So a write that ends inside its region changes no other region of the pool. */
  lemma WriteKeepsOthers(pools: seq<Pool>, slots: Slots, mems: seq<bytes>, h: Handle, data: bytes, j: nat, p: int)
    requires Placed(pools, slots) && h.regionId < |slots| && slots[h.regionId].Some? && h.offset + |data| <= slots[h.regionId].value.capacity
    requires j < |slots| && j != h.regionId && slots[j].Some? && slots[j].value.pool < |mems|
    requires slots[j].value.base <= p < slots[j].value.End() && p < |mems[slots[j].value.pool]|
    ensures var after := GuestWrite(slots, mems, h, data).0;
      && |after| == |mems| && p < |after[slots[j].value.pool]|
      && after[slots[j].value.pool][p] == mems[slots[j].value.pool][p]
  {
    var e := slots[h.regionId].value;
    assert Disjoint(e, slots[j].value) by {
      assert h.regionId < j || j < h.regionId;
    }
  }

  /** A compaction leaves the region in its place under a new generation. */
  lemma Renewed(e: Entry, e': Option<Entry>, remap: HandleRemap, id: u16, before: bytes, after: bytes)
    requires D.AllocOk(e.alloc, e.capacity) && e.alloc.Freelist? && Slid(e, e', remap, id, before, after)
    ensures e'.Some? && e'.value.generation != e.generation && remap.oldGeneration == e.generation
  {
  }

  lemma OthersResolve(before: Slots, after: Slots, id: nat)
    requires |after| == |before| && forall i :: 0 <= i < |before| && i != id ==> after[i] == before[i]
    ensures forall h: Handle :: h.regionId != id ==> ResolveIn(after, h) == ResolveIn(before, h)
  {
  }

  lemma RenewedRefuses(slots: Slots, id: nat, generation: u16)
    requires id < |slots| && slots[id].Some? && slots[id].value.generation != generation
    ensures forall h: Handle :: h.regionId == id && h.generation == generation ==> ResolveIn(slots, h) == Err(StaleHandle)
  {
  }

  /** The directory's compaction of region `id`, run on the pool the region lives in. */
  ghost predicate AsDirectory(id: u16, r: Result<HandleRemap>, before: Slots, after: Slots, was: seq<bytes>, now: seq<bytes>) {
    if id >= |before| || before[id].None? then r == Err(RegionNotFound(id)) && now == was
    else
      var e := before[id].value;
      && e.pool < |was| == |now| && (forall i :: 0 <= i < |was| && i != e.pool ==> now[i] == was[i])
      && D.AllocOk(e.alloc, e.capacity) && id < |after| && CompactsTo(e, after[id], r, id, was[e.pool], now[e.pool])
  }

  // ---------------------------------------------------------------------------------------------
  // The facade.
  // ---------------------------------------------------------------------------------------------

  class GuestTvm {
    const directory: GuestDirectory
    const mems: seq<array<byte>>
    var cache: ResolveCache

    ghost predicate Valid()
      reads this, directory
    {
      && directory.Valid() && |mems| == |directory.pools| && CacheAgrees(cache, directory.slots)
      && forall i, j :: 0 <= i < j < |mems| ==> mems[i] != mems[j]
    }

    ghost function Contents(): (r: seq<bytes>)
      reads this, mems
      ensures |r| == |mems| && forall i :: 0 <= i < |mems| ==> r[i] == mems[i][..]
    {
      seq(|mems|, i requires 0 <= i < |mems| reads mems => mems[i][..])
    }

    constructor (directory: GuestDirectory, mems: seq<array<byte>>)
      requires directory.Valid() && |mems| == |directory.pools| && forall i, j :: 0 <= i < j < |mems| ==> mems[i] != mems[j]
      ensures Valid() && this.directory == directory && this.mems == mems && cache == EMPTY
    {
      this.directory, this.mems := directory, mems;
      cache := EMPTY;
    }

    /** Whatever the cache holds, the answer is the directory's. */
    method CachedResolve(h: Handle) returns (r: Result<(nat, u32)>)
      requires Valid()
      modifies this`cache
      ensures Valid() && r == ResolveIn(directory.slots, h)
      ensures r.Ok? ==> r.value.0 < |mems| && cache.regionId == h.regionId
    {
      if h.regionId != 0 && h.regionId == cache.regionId && h.generation == cache.generation {
        var abs := cache.base + h.offset;
        if abs > U32_MAX { return Err(OutOfBounds); }
        return Ok((cache.pool, abs));
      }
      r := directory.Resolve(h);
      if r.Ok? { cache := ResolveCache(h.regionId, h.generation, r.value.0, r.value.1 - h.offset); }
    }

    method CreateRegion(kind: D.RegionKind, capacity: u32, ak: D.AllocatorKind) returns (r: Result<u16>)
      requires Valid()
      modifies directory
      ensures Valid()
      ensures forall h: Handle :: h.regionId < old(|directory.slots|) ==> ResolveIn(directory.slots, h) == old(ResolveIn(directory.slots, h))
    {
      r := directory.CreateRegion(kind, capacity, ak);
    }

    method Read(h: Handle, len: u32) returns (r: Result<bytes>)
      requires Valid()
      modifies this`cache
      ensures Valid() && r == GuestRead(directory.slots, Contents(), h, len)
    {
      var at := CachedResolve(h);
      if at.Err? { return Err(at.error); }
      var (pool, off) := at.value;
      if off + len > U32_MAX { return Err(OutOfBounds); }
      if off + len > mems[pool].Length { return Err(OutOfBounds); }
      return Ok(mems[pool][off..off + len]);
    }

    method Write(h: Handle, data: bytes) returns (r: Result<()>)
      requires Valid()
      modifies this`cache, mems
      ensures Valid() && (Contents(), r) == GuestWrite(directory.slots, old(Contents()), h, data)
    {
      ghost var before := Contents();
      var at := CachedResolve(h);
      assert Contents() == before;
      if at.Err? { return Err(at.error); }
      var (pool, off) := at.value;
      if off + |data| > U32_MAX { return Err(OutOfBounds); }
      if off + |data| > mems[pool].Length { return Err(OutOfBounds); }
      forall i | 0 <= i < |data| { mems[pool][off + i] := data[i]; }
      assert mems[pool][..] == Splice(before[pool], off, data);
      forall i | 0 <= i < |mems| ensures Contents()[i] == before[pool := Splice(before[pool], off, data)][i] {
        if i != pool { assert mems[i] != mems[pool]; }
      }
      assert Contents() == before[pool := Splice(before[pool], off, data)];
      return Ok(());
    }

    /** The directory's compaction: only this region's entry changes, and a success renews it. */
    method CompactInDirectory(id: u16) returns (r: Result<HandleRemap>)
      requires directory.Valid() && |mems| == |directory.pools| && forall i, j :: 0 <= i < j < |mems| ==> mems[i] != mems[j]
      modifies directory`slots, mems
      ensures directory.Valid() && directory.pools == old(directory.pools) && |directory.slots| == old(|directory.slots|)
      ensures forall i :: 0 <= i < |directory.slots| && i != id ==> directory.slots[i] == old(directory.slots[i])
      ensures r.Err? ==> directory.slots == old(directory.slots)
      ensures r.Ok? ==> id < |directory.slots| && directory.slots[id].Some? && directory.slots[id].value.generation != r.value.oldGeneration
      ensures AsDirectory(id, r, old(directory.slots), directory.slots, old(Contents()), Contents())
    {
      var e := directory.Lookup(id);
      if e.None? {
        assert Contents() == old(Contents());
        return Err(RegionNotFound(id));
      }
      assert EntryOk(directory.pools, e.value);
      ghost var before := mems[e.value.pool][..];
      r := directory.CompactRegion(id, mems[e.value.pool]);
      forall i | 0 <= i < |mems| && i != e.value.pool ensures Contents()[i] == old(Contents())[i] {
        assert mems[i] != mems[e.value.pool];
      }
      if r.Ok? { Renewed(e.value, directory.Lookup(id), r.value, id, before, mems[e.value.pool][..]); }
    }

    /** The cache entry goes before the directory moves anything, so old handles are refused at once. */
    method CompactRegion(id: u16) returns (r: Result<HandleRemap>)
      requires Valid()
      modifies this`cache, directory`slots, mems
      ensures Valid()
      ensures forall h: Handle :: h.regionId != id ==> ResolveIn(directory.slots, h) == old(ResolveIn(directory.slots, h))
      ensures AsDirectory(id, r, old(directory.slots), directory.slots, old(Contents()), Contents())
      ensures r.Ok? ==> forall h: Handle :: h.regionId == id && h.generation == r.value.oldGeneration ==> ResolveIn(directory.slots, h) == Err(StaleHandle)
    {
      if cache.regionId == id { cache := EMPTY; }
      r := CompactInDirectory(id);
      OthersResolve(old(directory.slots), directory.slots, id);
      if r.Ok? { RenewedRefuses(directory.slots, id, r.value.oldGeneration); }
    }

    method Pin(id: u16) returns (r: Result<()>)
      requires Valid()
      modifies directory`slots
      ensures Valid() && |directory.slots| == old(|directory.slots|)
      ensures forall h: Handle :: ResolveIn(directory.slots, h) == old(ResolveIn(directory.slots, h))
      ensures r.Ok? <==> old(directory.Lookup(id)).Some? && old(directory.Lookup(id)).value.pinnable
      ensures r.Ok? ==> directory.slots == old(directory.slots)[id := Some(old(directory.Lookup(id)).value.(pinned := true))]
      ensures r.Err? ==> directory.slots == old(directory.slots)
    {
      r := directory.Pin(id);
    }

    /** There is nothing behind it: it answers success and changes nothing, so a pinned region stays so. */
    method Unpin(id: u16) returns (r: Result<()>)
      ensures r == Ok(())
    {
      return Ok(());
    }
  }
}
