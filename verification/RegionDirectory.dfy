/**
 * The region directory as the object whose methods update `regions` and `warmLru` in place. Each
 * method is proved to do to its state what the step functions of `Directory` do to a value.
 */
module RegionDirectory {
  import opened Core
  import opened Allocator
  import opened Compaction
  import opened Directory

  /** The backing store: blobs under (region id, generation). A call it refuses changes nothing. */
  class BackingStore {
    var blobs: Store

    constructor ()
      ensures blobs == map[]
    {
      blobs := map[];
    }

    method Spill(id: u16, generation: u16, data: bytes, accepts: bool) returns (ok: bool)
      modifies this
      ensures ok == accepts && blobs == if accepts then old(blobs)[(id, generation) := data] else old(blobs)
    {
      if accepts { blobs := blobs[(id, generation) := data]; }
      return accepts;
    }

    method Load(id: u16, generation: u16, answers: bool) returns (r: Option<bytes>)
      ensures r == if answers && (id, generation) in blobs then Some(blobs[(id, generation)]) else None
    {
      return if answers && (id, generation) in blobs then Some(blobs[(id, generation)]) else None;
    }
  }

  class RegionDirectory {
    var regions: seq<Option<Region>>
    var warmLru: seq<u16>
    var nextStamp: nat

    function State(store: BackingStore): Sys
      reads this, store
    {
      Sys(regions, warmLru, nextStamp, store.blobs)
    }

    constructor (store: BackingStore)
      ensures State(store) == Sys([], [], 1, store.blobs)
    {
      regions, warmLru, nextStamp := [], [], 1;
    }

    function Entry(id: u16): Option<Region>
      reads this
    {
      if id < |regions| then regions[id] else None
    }

    // ----- the warm list -----

    method LruRemove(id: u16)
      modifies this`warmLru
      ensures warmLru == Without(old(warmLru), id)
    {
      ghost var lru := warmLru;
      var pos := 0;
      assert lru[0..] == lru && lru[..0] == [];
      while pos < |warmLru| && warmLru[pos] != id
        invariant 0 <= pos <= |warmLru| && warmLru == lru
        invariant Without(lru, id) == lru[..pos] + Without(lru[pos..], id)
      {
        KeepsPrefix(lru, pos, id);
        pos := pos + 1;
      }
      if pos < |warmLru| {
        DropsFound(lru, pos, id);
        warmLru := warmLru[..pos] + warmLru[pos + 1..];
      } else {
        assert lru[..pos] == lru && lru[pos..] == [];
      }
    }

    method LruPushFront(id: u16)
      modifies this`warmLru
      ensures warmLru == [id] + Without(old(warmLru), id)
      ensures NoRepeats(old(warmLru)) ==> NoRepeats(warmLru)
    {
      if NoRepeats(warmLru) { WithoutRepeats(warmLru, id); }
      LruRemove(id);
      warmLru := [id] + warmLru;
    }

    // ----- lifetime -----

    method CreateRegion(kind: RegionKind, capacity: u32, ak: AllocatorKind, data: bytes, store: BackingStore) returns (r: Outcome)
      modifies this
      ensures (State(store), r) == Directory.CreateRegion(old(State(store)), PolicyFor(kind), capacity, ak, data)
    {
      r := CreateRegionWithPolicy(capacity, ak, PolicyFor(kind), data, store);
    }

    method CreateRegionWithPolicy(capacity: u32, ak: AllocatorKind, policy: Policy, data: bytes, store: BackingStore) returns (r: Outcome)
      modifies this
      ensures (State(store), r) == Directory.CreateRegion(old(State(store)), policy, capacity, ak, data)
    {
      if |regions| > U16_MAX { return Err(AllocationFailed); }
      var id: u16 := |regions|;
      var alloc := if ak == BumpKind then Bump(0) else Freelist(map[]);
      var memory := Mem(nextStamp, data);
      nextStamp := nextStamp + 1;
      regions := regions + [Some(Region(1, capacity, policy.initial, false, policy.pinnable, policy.spillable, Some(memory), alloc))];
      if policy.initial == Warm {
        warmLru := [id] + warmLru;
      }
      return Ok(Created(id));
    }

    method DestroyRegion(id: u16, store: BackingStore) returns (r: Outcome)
      modifies this
      ensures (State(store), r) == Directory.DestroyRegion(old(State(store)), id)
    {
      if id >= |regions| { return Err(RegionNotFound(id)); }
      if regions[id].None? { return Err(RegionNotFound(id)); }
      regions := regions[id := None];
      LruRemove(id);
      return Ok(Done);
    }

    // ----- tiers -----

    method SpillRegion(id: u16, store: BackingStore, accepts: bool) returns (r: Outcome)
      modifies this, store
      ensures (State(store), r) == Directory.SpillRegion(old(State(store)), id, accepts)
    {
      var entry := Entry(id);
      if entry.None? { return Err(RegionNotFound(id)); }
      var e := entry.value;
      if e.pinned { return Err(Pinned); }
      if !e.spillable { return Err(PolicyViolation); }
      if e.residency == Cold { return Ok(Done); }
      if e.memory.None? { return Err(NotResident); }
      var memory := e.memory.value;
      e := e.(memory := None);
      regions := regions[id := Some(e)];
      var ok := store.Spill(id, e.generation, memory.data, accepts);
      if !ok { return Err(TvmError.BackingStore); }
      regions := regions[id := Some(e.(residency := Cold))];
      assert regions == old(regions)[id := Some(e.(residency := Cold))];
      LruRemove(id);
      return Ok(Done);
    }

    method LoadRegion(id: u16, store: BackingStore, answers: bool) returns (r: Outcome)
      modifies this
      ensures (State(store), r) == Directory.LoadRegion(old(State(store)), id, answers)
    {
      var entry := Entry(id);
      if entry.None? { return Err(RegionNotFound(id)); }
      var e := entry.value;
      if e.residency == Hot && e.memory.Some? { return Ok(Done); }
      var blob := store.Load(id, e.generation, answers);
      if blob.None? { return Err(TvmError.BackingStore); }
      regions := regions[id := Some(e.(memory := Some(Mem(nextStamp, blob.value)), residency := Hot))];
      nextStamp := nextStamp + 1;
      return Ok(Done);
    }

    method PromoteRegion(id: u16, store: BackingStore, answers: bool) returns (r: Outcome)
      modifies this
      ensures (State(store), r) == Directory.PromoteRegion(old(State(store)), id, answers)
    {
      var entry := Entry(id);
      if entry.None? { return Err(RegionNotFound(id)); }
      match entry.value.residency
      case Hot => return Ok(Done);
      case Warm =>
        regions := regions[id := Some(entry.value.(residency := Hot))];
        LruRemove(id);
        return Ok(Done);
      case Cold => r := LoadRegion(id, store, answers);
    }

    method DemoteRegion(id: u16, store: BackingStore, accepts: bool) returns (r: Outcome)
      modifies this, store
      ensures (State(store), r) == Directory.DemoteRegion(old(State(store)), id, accepts)
    {
      var entry := Entry(id);
      if entry.None? { return Err(RegionNotFound(id)); }
      if entry.value.pinned { return Err(Pinned); }
      if !entry.value.spillable { return Err(PolicyViolation); }
      match entry.value.residency
      case Hot =>
        regions := regions[id := Some(entry.value.(residency := Warm))];
        LruPushFront(id);
        return Ok(Done);
      case Warm => r := SpillRegion(id, store, accepts);
      case Cold => return Ok(Done);
    }

    /** Oldest first over a snapshot of the list, dropping entries that are not Warm. */
    method EvictWarmRegion(store: BackingStore, accepts: bool) returns (r: Outcome)
      modifies this, store
      ensures (State(store), r) == Directory.EvictWarmRegion(old(State(store)), accepts)
    {
      var snapshot := Reversed(warmLru);
      var i := 0;
      while i < |snapshot|
        invariant 0 <= i <= |snapshot|
        invariant EvictScan(State(store), snapshot[i..], accepts) == old(Directory.EvictWarmRegion(State(store), accepts))
      {
        var id := snapshot[i];
        var entry := Entry(id);
        assert snapshot[i..][1..] == snapshot[i + 1..];
        i := i + 1;
        if entry.None? {
          LruRemove(id);
          continue;
        }
        if entry.value.pinned || entry.value.residency != Warm {
          LruRemove(id);
          continue;
        }
        r := SpillRegion(id, store, accepts);
        if r.Err? { return; }
        return Ok(Evicted(Some(id)));
      }
      return Ok(Evicted(None));
    }

    method Pin(id: u16, store: BackingStore) returns (r: Outcome)
      modifies this
      ensures (State(store), r) == Directory.Pin(old(State(store)), id)
    {
      var entry := Entry(id);
      if entry.None? { return Err(RegionNotFound(id)); }
      if !entry.value.pinnable { return Err(PolicyViolation); }
      regions := regions[id := Some(entry.value.(pinned := true))];
      return Ok(Done);
    }

    method Unpin(id: u16, store: BackingStore) returns (r: Outcome)
      modifies this
      ensures (State(store), r) == Directory.Unpin(old(State(store)), id)
    {
      var entry := Entry(id);
      if entry.None? { return Err(RegionNotFound(id)); }
      regions := regions[id := Some(entry.value.(pinned := false))];
      return Ok(Done);
    }

    // ----- blocks and bytes -----

    method AllocAligned(id: u16, size: u32, align: u32, store: BackingStore) returns (r: Outcome)
      modifies this
      ensures (State(store), r) == Directory.AllocAligned(old(State(store)), id, size, align)
    {
      var entry := Entry(id);
      if entry.None? { return Err(RegionNotFound(id)); }
      var e := entry.value;
      var (alloc, offset) := AllocIn(e.alloc, e.capacity, size, align);
      if offset.Err? { return Err(offset.error); }
      regions := regions[id := Some(e.(alloc := alloc))];
      return Ok(Allocated(Handle(id, e.generation, offset.value)));
    }

    method Dealloc(h: Handle, store: BackingStore) returns (r: Outcome)
      modifies this
      ensures (State(store), r) == Directory.Dealloc(old(State(store)), h)
    {
      var entry := Entry(h.regionId);
      if entry.None? { return Err(RegionNotFound(h.regionId)); }
      var e := entry.value;
      if e.generation != h.generation { return Err(StaleHandle); }
      var (alloc, freed) := DeallocIn(e.alloc, h.offset);
      if freed.Err? { return Err(freed.error); }
      regions := regions[h.regionId := Some(e.(alloc := alloc))];
      return Ok(Done);
    }

    method Read(h: Handle, len: u32, store: BackingStore) returns (r: Outcome)
      ensures r == Directory.Read(State(store), h, len)
    {
      var entry := Entry(h.regionId);
      if entry.None? { return Err(RegionNotFound(h.regionId)); }
      var e := entry.value;
      if e.generation != h.generation { return Err(StaleHandle); }
      if e.memory.None? { return Err(NotResident); }
      var end := h.offset + len;
      if end > U32_MAX || end > e.capacity { return Err(OutOfBounds); }
      if end > |e.memory.value.data| { return Err(OutOfBounds); }
      return Ok(Data(e.memory.value.data[h.offset..end]));
    }

    method Write(h: Handle, data: bytes, store: BackingStore) returns (r: Outcome)
      modifies this
      ensures (State(store), r) == Directory.Write(old(State(store)), h, data)
    {
      var entry := Entry(h.regionId);
      if entry.None? { return Err(RegionNotFound(h.regionId)); }
      var e := entry.value;
      if e.generation != h.generation { return Err(StaleHandle); }
      if e.memory.None? { return Err(NotResident); }
      var m := e.memory.value;
      var end := h.offset + |data|;
      if end > U32_MAX || end > e.capacity { return Err(OutOfBounds); }
      if end > |m.data| { return Err(OutOfBounds); }
      regions := regions[h.regionId := Some(e.(memory := Some(m.(data := m.data[..h.offset] + data + m.data[end..]))))];
      return Ok(Done);
    }

    method CrossRegionCopy(src: u16, srcOff: u32, dst: u16, dstOff: u32, len: u32, store: BackingStore) returns (r: Outcome)
      modifies this
      ensures (State(store), r) == Directory.CrossRegionCopy(old(State(store)), src, srcOff, dst, dstOff, len)
    {
      var source := Entry(src);
      if source.None? { return Err(RegionNotFound(src)); }
      if source.value.memory.None? { return Err(NotResident); }
      var end := srcOff + len;
      if end > U32_MAX || end > source.value.capacity { return Err(OutOfBounds); }
      if end > |source.value.memory.value.data| { return Err(OutOfBounds); }
      var buf := source.value.memory.value.data[srcOff..end];
      var target := Entry(dst);
      if target.None? { return Err(RegionNotFound(dst)); }
      var e := target.value;
      if e.memory.None? { return Err(NotResident); }
      end := dstOff + len;
      if end > U32_MAX || end > e.capacity { return Err(OutOfBounds); }
      var m := e.memory.value;
      if end > |m.data| { return Err(OutOfBounds); }
      regions := regions[dst := Some(e.(memory := Some(m.(data := m.data[..dstOff] + buf + m.data[end..]))))];
      return Ok(Done);
    }

    method ReadInto(src: Handle, dst: u16, dstOff: u32, len: u32, store: BackingStore) returns (r: Outcome)
      modifies this
      ensures (State(store), r) == Directory.ReadInto(old(State(store)), src, dst, dstOff, len)
    {
      var entry := Entry(src.regionId);
      if entry.None? { return Err(RegionNotFound(src.regionId)); }
      if entry.value.generation != src.generation { return Err(StaleHandle); }
      r := CrossRegionCopy(src.regionId, src.offset, dst, dstOff, len, store);
    }

    method WriteFrom(src: u16, srcOff: u32, dst: Handle, len: u32, store: BackingStore) returns (r: Outcome)
      modifies this
      ensures (State(store), r) == Directory.WriteFrom(old(State(store)), src, srcOff, dst, len)
    {
      var entry := Entry(dst.regionId);
      if entry.None? { return Err(RegionNotFound(dst.regionId)); }
      if entry.value.generation != dst.generation { return Err(StaleHandle); }
      r := CrossRegionCopy(src, srcOff, dst.regionId, dst.offset, len, store);
    }

    method ReadOrFault(h: Handle, len: u32, store: BackingStore, answers: bool) returns (r: Outcome)
      modifies this
      ensures (State(store), r) == Directory.ReadOrFault(old(State(store)), h, len, answers)
    {
      var entry := Entry(h.regionId);
      if entry.None? { return Err(RegionNotFound(h.regionId)); }
      if entry.value.residency == Cold {
        r := LoadRegion(h.regionId, store, answers);
        if r.Err? { return; }
      }
      r := Read(h, len, store);
    }

    method WriteOrFault(h: Handle, data: bytes, store: BackingStore, answers: bool) returns (r: Outcome)
      modifies this
      ensures (State(store), r) == Directory.WriteOrFault(old(State(store)), h, data, answers)
    {
      var entry := Entry(h.regionId);
      if entry.None? { return Err(RegionNotFound(h.regionId)); }
      if entry.value.residency == Cold {
        r := LoadRegion(h.regionId, store, answers);
        if r.Err? { return; }
      }
      r := Write(h, data, store);
    }

    // ----- compaction -----

    method CompactRegion(id: u16, store: BackingStore) returns (r: Outcome)
      requires AllocsOk(State(store))
      modifies this
      ensures (State(store), r) == Directory.CompactRegion(old(State(store)), id)
    {
      var entry := Entry(id);
      if entry.None? { return Err(RegionNotFound(id)); }
      var e := entry.value;
      if e.pinned { return Err(Pinned); }
      if e.alloc.Bump? { return Err(UnsupportedAllocator); }
      var blocks := SortedBlocks(e.alloc.live);
      if e.memory.None? { return Err(NotResident); }
      assert AllocOk(e.alloc, e.capacity);
      SortedBlocksApart(e.alloc.live, 0, e.capacity);
      ApartAbove(blocks, 0, e.capacity);
      var fits, newData, mapping, newBlocks := Pack(blocks, e.memory.value.data, e.capacity);
      if !fits { return Err(OutOfBounds); }
      var oldGeneration := e.generation;
      var next: u16 := (e.generation + 1) % 0x10000;
      if next == 0 { next := 1; }
      regions := regions[id := Some(e.(generation := next, memory := Some(Mem(nextStamp, newData[..])), alloc := Freelist(AsMap(newBlocks))))];
      nextStamp := nextStamp + 1;
      return Ok(Remapped(HandleRemap(id, oldGeneration, next, mapping)));
    }

    static method CopySlice(dst: array<byte>, at: nat, data: bytes)
      requires at + |data| <= dst.Length
      modifies dst
      ensures dst[..] == Splice(old(dst[..]), at, data)
    {
      ghost var before := dst[..];
      forall k | 0 <= k < |data| { dst[at + k] := data[k]; }
      assert dst[..] == Splice(before, at, data);
    }

    /** Copies the blocks end to end into a zeroed buffer and records where each one went. */
    static method Pack(blocks: seq<Block>, mem: bytes, capacity: u32)
        returns (fits: bool, newData: array<byte>, mapping: map<u32, u32>, newBlocks: seq<Block>)
      requires Apart(blocks, 0, capacity) && TotalSize(blocks) <= capacity
      ensures fresh(newData)
      ensures fits == Within(blocks, |mem|)
      ensures fits ==>
        && newData[..] == Gather(blocks, mem) + Zeros(capacity - TotalSize(blocks))
        && mapping == MappingFrom(blocks, 0) && newBlocks == PackFrom(blocks, 0)
    {
      newData := new byte[capacity](_ => 0);
      mapping, newBlocks := map[], [];
      var cursor: u32 := 0;
      var i := 0;
      assert blocks[0..] == blocks;
      while i < |blocks|
        invariant 0 <= i <= |blocks| && newData.Length == capacity && fresh(newData)
        invariant Listed(blocks, i, cursor, mapping, newBlocks, capacity)
        invariant Filled(blocks, mem, i, cursor, newData[..])
      {
        var b := blocks[i];
        if b.End() > |mem| {
          assert b in blocks;
          return false, newData, mapping, newBlocks;
        }
        ListStep(blocks, i, cursor, mapping, newBlocks, capacity);
        ghost var before := newData[..];
        CopySlice(newData, cursor, mem[b.off..b.End()]);
        FillStep(blocks, mem, i, cursor, before);
        mapping := mapping[b.off := cursor];
        newBlocks := newBlocks + [Block(cursor, b.size)];
        cursor := cursor + b.size;
        i := i + 1;
      }
      assert blocks[..i] == blocks;
      assert newData[..] == newData[..][..cursor] + newData[..][cursor..];
      fits := true;
    }

    method BumpGeneration(id: u16, store: BackingStore) returns (r: Outcome)
      modifies this
      ensures (State(store), r) == Directory.BumpGeneration(old(State(store)), id)
    {
      var entry := Entry(id);
      if entry.None? { return Err(RegionNotFound(id)); }
      var generation: u16 := (entry.value.generation + 1) % 0x10000;
      if generation == 0 { generation := 1; }
      regions := regions[id := Some(entry.value.(generation := generation))];
      return Ok(Bumped(generation));
    }
  }

  /** No id is on the list twice. */
  ghost predicate NoRepeats(lru: seq<u16>) { lru != [] ==> lru[0] !in lru[1..] && NoRepeats(lru[1..]) }

  /** Without its one occurrence an id is on the list no more. */
  lemma {:induction false} WithoutRepeats(lru: seq<u16>, id: u16)
    requires NoRepeats(lru)
    ensures NoRepeats([id] + Without(lru, id)) && forall x :: x in Without(lru, id) <==> x in lru && x != id
  {
    var rest := Without(lru, id);
    if lru != [] && lru[0] != id {
      WithoutRepeats(lru[1..], id);
      var tail := Without(lru[1..], id);
      assert ([id] + tail)[1..] == tail && ([lru[0]] + tail)[1..] == tail;
      assert forall x :: x in lru <==> x == lru[0] || x in lru[1..];
    } else if lru != [] {
      assert forall x :: x in lru <==> x == lru[0] || x in lru[1..];
    }
    assert ([id] + rest)[1..] == rest;
  }

  lemma {:induction false} GatherAppend(a: seq<Block>, b: seq<Block>, mem: bytes)
    requires Within(a, |mem|) && Within(b, |mem|)
    ensures Within(a + b, |mem|) && Gather(a + b, mem) == Gather(a, mem) + Gather(b, mem)
  {
    if a == [] {
      assert a + b == b;
    } else {
      assert (a + b)[1..] == a[1..] + b;
      GatherAppend(a[1..], b, mem);
    }
  }

  lemma DropsFound(lru: seq<u16>, pos: nat, id: u16)
    requires pos < |lru| && lru[pos] == id
    ensures Without(lru[pos..], id) == lru[pos + 1..]
  {
    assert lru[pos..][1..] == lru[pos + 1..];
  }

  lemma KeepsPrefix(lru: seq<u16>, pos: nat, id: u16)
    requires pos < |lru| && lru[pos] != id
    ensures lru[..pos] + Without(lru[pos..], id) == lru[..pos + 1] + Without(lru[pos + 1..], id)
  {
    assert lru[pos..][1..] == lru[pos + 1..];
    assert lru[..pos + 1] == lru[..pos] + [lru[pos]];
  }

  lemma GatherStep(blocks: seq<Block>, mem: bytes, i: nat)
    requires i < |blocks| && Within(blocks[..i], |mem|) && blocks[i].End() <= |mem|
    ensures Within(blocks[..i + 1], |mem|)
    ensures Gather(blocks[..i + 1], mem) == Gather(blocks[..i], mem) + mem[blocks[i].off..blocks[i].End()]
  {
    var before, b := blocks[..i], blocks[i];
    assert blocks[..i + 1] == before + [b];
    GatherOneMore(before, b, mem);
  }

  lemma GatherOneMore(before: seq<Block>, b: Block, mem: bytes)
    requires Within(before, |mem|) && b.End() <= |mem|
    ensures Within(before + [b], |mem|) && Gather(before + [b], mem) == Gather(before, mem) + mem[b.off..b.End()]
  {
    GatherSingle(b, mem);
    GatherAppend(before, [b], mem);
  }

  lemma GatherSingle(b: Block, mem: bytes)
    requires b.End() <= |mem|
    ensures Within([b], |mem|) && Gather([b], mem) == mem[b.off..b.End()]
  {
    assert [b][1..] == [];
  }

  /** The buffer after `i` blocks: their bytes up to the cursor, zeros beyond. */
  ghost predicate Filled(blocks: seq<Block>, mem: bytes, i: nat, cursor: nat, data: bytes) {
    && i <= |blocks| && cursor <= |data| && Within(blocks[..i], |mem|)
    && data[..cursor] == Gather(blocks[..i], mem) && data[cursor..] == Zeros(|data| - cursor)
  }

  lemma FillStep(blocks: seq<Block>, mem: bytes, i: nat, cursor: nat, data: bytes)
    requires i < |blocks| && Filled(blocks, mem, i, cursor, data)
    requires blocks[i].End() <= |mem| && cursor + blocks[i].size <= |data|
    ensures Filled(blocks, mem, i + 1, cursor + blocks[i].size, Splice(data, cursor, mem[blocks[i].off..blocks[i].End()]))
  {
    var b := blocks[i];
    var chunk := mem[b.off..b.End()];
    var after := Splice(data, cursor, chunk);
    GatherStep(blocks, mem, i);
    assert after[..cursor + b.size] == data[..cursor] + chunk;
    forall k | cursor + b.size <= k < |data| ensures after[k] == 0 { assert data[k] == data[cursor..][k - cursor]; }
  }

  /** The records after `i` blocks, completed by what is still to come, are the whole records. */
  ghost predicate Listed(blocks: seq<Block>, i: nat, cursor: nat, mapping: map<u32, u32>, packed: seq<Block>, capacity: u32) {
    && i <= |blocks| && cursor + TotalSize(blocks[i..]) == TotalSize(blocks) <= capacity
    && (exists lo :: Apart(blocks[i..], lo, capacity) && forall o :: o in mapping ==> o < lo)
    && MappingFrom(blocks[i..], cursor) + mapping == MappingFrom(blocks, 0)
    && packed + PackFrom(blocks[i..], cursor) == PackFrom(blocks, 0)
  }

  lemma ListStep(blocks: seq<Block>, i: nat, cursor: u32, mapping: map<u32, u32>, packed: seq<Block>, capacity: u32)
    requires i < |blocks| && Listed(blocks, i, cursor, mapping, packed, capacity)
    ensures var b := blocks[i];
      && cursor + b.size <= capacity
      && Listed(blocks, i + 1, cursor + b.size, mapping[b.off := cursor], packed + [Block(cursor, b.size)], capacity)
  {
    var b := blocks[i];
    assert blocks[i..][1..] == blocks[i + 1..];
    assert Apart(blocks[i + 1..], b.End(), capacity);
    SuffixStep(blocks, i, cursor, mapping, packed);
  }

  /** Moving block `i` from the pending suffix to what is already recorded. */
  lemma SuffixStep(blocks: seq<Block>, i: nat, cursor: u32, mapping: map<u32, u32>, packed: seq<Block>)
    requires i < |blocks| && cursor + TotalSize(blocks[i..]) <= U32_MAX && blocks[i].off !in mapping
    ensures var b := blocks[i]; var c := cursor + b.size;
      && blocks[i..][1..] == blocks[i + 1..] && c + TotalSize(blocks[i + 1..]) <= U32_MAX
      && MappingFrom(blocks[i..], cursor) + mapping == MappingFrom(blocks[i + 1..], c) + mapping[b.off := cursor]
      && packed + PackFrom(blocks[i..], cursor) == packed + [Block(cursor, b.size)] + PackFrom(blocks[i + 1..], c)
  {
    assert blocks[i..][1..] == blocks[i + 1..];
  }
}
