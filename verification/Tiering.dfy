/**
 * Tiering is invisible: the directory refines a flat machine that keeps every region's bytes in
 * one place and has no tiers, no warm list and no backing store.
 */
module Tiering {
  import opened Core
  import opened Allocator
  import opened Compaction
  import opened Directory

  datatype FlatRegion = FlatRegion(generation: u16, capacity: u32, alloc: Alloc, data: Option<bytes>)

  type Flat = seq<Option<FlatRegion>>

  /** A region's bytes wherever they are: in memory, or in the store under (id, generation). */
  function Bytes(r: Region, id: u16, store: Store): Option<bytes> {
    if r.memory.Some? then Some(r.memory.value.data)
    else if (id, r.generation) in store then Some(store[(id, r.generation)])
    else None
  }

  function View(r: Region, id: u16, store: Store): FlatRegion {
    FlatRegion(r.generation, r.capacity, r.alloc, Bytes(r, id, store))
  }

  function Abs(s: Sys): (f: Flat)
    requires |s.regions| <= U16_MAX + 1
    ensures |f| == |s.regions|
  {
    seq(|s.regions|, i requires 0 <= i < |s.regions| =>
      if s.regions[i].Some? then Some(View(s.regions[i].value, i, s.store)) else None)
  }

  // ---------------------------------------------------------------------------------------------
  // The flat machine.
  // ---------------------------------------------------------------------------------------------

  function At(f: Flat, id: u16): Option<FlatRegion> { if id < |f| then f[id] else None }

  function FlatRead(f: Flat, h: Handle, len: u32): Outcome {
    match At(f, h.regionId)
    case None => Err(RegionNotFound(h.regionId))
    case Some(r) =>
      if r.generation != h.generation then Err(StaleHandle)
      else if r.data.None? then Err(NotResident)
      else if h.offset + len > r.capacity || h.offset + len > |r.data.value| then Err(OutOfBounds)
      else Ok(Data(Slice(r.data.value, h.offset, len)))
  }

  function FlatWrite(f: Flat, h: Handle, data: bytes): (Flat, Outcome) {
    match At(f, h.regionId)
    case None => (f, Err(RegionNotFound(h.regionId)))
    case Some(r) =>
      if r.generation != h.generation then (f, Err(StaleHandle))
      else if r.data.None? then (f, Err(NotResident))
      else if h.offset + |data| > r.capacity || h.offset + |data| > |r.data.value| then (f, Err(OutOfBounds))
      else (f[h.regionId := Some(r.(data := Some(Splice(r.data.value, h.offset, data))))], Ok(Done))
  }

  function FlatCreate(f: Flat, capacity: u32, ak: AllocatorKind, init: bytes): (Flat, Outcome) {
    if |f| > U16_MAX then (f, Err(AllocationFailed))
    else (f + [Some(FlatRegion(1, capacity, if ak == BumpKind then Bump(0) else Freelist(map[]), Some(init)))], Ok(Created(|f|)))
  }

  function FlatDestroy(f: Flat, id: u16): (Flat, Outcome) {
    if At(f, id).None? then (f, Err(RegionNotFound(id))) else (f[id := None], Ok(Done))
  }

  function FlatAlloc(f: Flat, id: u16, size: u32, align: u32): (Flat, Outcome) {
    match At(f, id)
    case None => (f, Err(RegionNotFound(id)))
    case Some(r) =>
      var (a, o) := AllocIn(r.alloc, r.capacity, size, align);
      if o.Err? then (f, Err(o.error)) else (f[id := Some(r.(alloc := a))], Ok(Allocated(Handle(id, r.generation, o.value))))
  }

  function FlatDealloc(f: Flat, h: Handle): (Flat, Outcome) {
    match At(f, h.regionId)
    case None => (f, Err(RegionNotFound(h.regionId)))
    case Some(r) =>
      if r.generation != h.generation then (f, Err(StaleHandle))
      else
        var (a, o) := DeallocIn(r.alloc, h.offset);
        if o.Err? then (f, Err(o.error)) else (f[h.regionId := Some(r.(alloc := a))], Ok(Done))
  }

  predicate CanCompact(r: FlatRegion) {
    r.alloc.Freelist? && r.data.Some? && Within(SortedBlocks(r.alloc.live), |r.data.value|)
  }

  ghost predicate FlatOk(f: Flat) {
    forall i :: 0 <= i < |f| && f[i].Some? ==> AllocOk(f[i].value.alloc, f[i].value.capacity)
  }

  function FlatCompact(f: Flat, id: u16): (Flat, Outcome)
    requires FlatOk(f) && At(f, id).Some? && CanCompact(f[id].value)
  {
    var r := f[id].value;
    assert AllocOk(r.alloc, r.capacity);
    var c := Compact(r.alloc.live, r.data.value, r.capacity);
    var next := NextGeneration(r.generation);
    (f[id := Some(FlatRegion(next, r.capacity, Freelist(c.live), Some(c.mem)))],
     Ok(Remapped(HandleRemap(id, r.generation, next, c.mapping))))
  }

  function FlatBump(f: Flat, id: u16): (Flat, Outcome) {
    match At(f, id)
    case None => (f, Err(RegionNotFound(id)))
    case Some(r) =>
      var next := NextGeneration(r.generation);
      (f[id := Some(r.(generation := next))], Ok(Bumped(next)))
  }

  /** What the flat machine does for a call, given whether the directory admitted it. Tier and pin
      calls do nothing here, so their outcomes are not predicted; nor is a refused compaction. */
  function FlatStep(f: Flat, op: Op, outcome: Outcome): (Flat, Outcome)
    requires FlatOk(f)
  {
    match op
    case DoCreate(_, capacity, ak, init) => FlatCreate(f, capacity, ak, init)
    case DoDestroy(id) => FlatDestroy(f, id)
    case DoAlloc(id, size, align) => FlatAlloc(f, id, size, align)
    case DoDealloc(h) => FlatDealloc(f, h)
    case DoRead(h, len) => (f, FlatRead(f, h, len))
    case DoWrite(h, data) => FlatWrite(f, h, data)
    case DoBump(id) => FlatBump(f, id)
    case DoCompact(id) =>
      if outcome.Ok? && At(f, id).Some? && CanCompact(f[id].value) then FlatCompact(f, id) else (f, Err(NotResident))
    case _ => (f, outcome)
  }

  /** Calls whose outcome the flat machine fixes. */
  predicate Observed(op: Op, outcome: Outcome) {
    match op
    case DoCreate(_, _, _, _) => true
    case DoDestroy(_) => true
    case DoAlloc(_, _, _) => true
    case DoDealloc(_) => true
    case DoRead(_, _) => true
    case DoWrite(_, _) => true
    case DoBump(_) => true
    case DoCompact(_) => outcome.Ok?
    case _ => false
  }

  /** `load_region` is harmless unless it would read the store over live Warm bytes,
      `bump_generation` unless it would rename the key of a Cold region, and a create unless its
      policy calls the new region Cold although nothing was stored for it. */
  predicate Harmless(s: Sys, op: Op) {
    match op
    case DoCreate(policy, _, _, _) => policy.initial != Cold
    case DoLoad(id) => s.Lookup(id).None? || s.Lookup(id).value.residency != Warm
    case DoBump(id) => s.Lookup(id).None? || s.Lookup(id).value.residency != Cold
    case _ => true
  }

  // ---------------------------------------------------------------------------------------------
  // Step refinement.
  // ---------------------------------------------------------------------------------------------

  lemma AbsAt(s: Sys, id: u16)
    requires |s.regions| <= U16_MAX + 1
    ensures At(Abs(s), id) == if s.Lookup(id).Some? then Some(View(s.Lookup(id).value, id, s.store)) else None
  {
  }

  lemma AbsOk(s: Sys)
    requires Inv(s)
    ensures FlatOk(Abs(s))
  {
  }

  /** `t` differs from `s` in region `id`, and in the store only under that region's keys. */
  ghost predicate OnlyRegion(s: Sys, t: Sys, id: u16) {
    && id < |s.regions| && |t.regions| == |s.regions|
    && t.regions[id].Some?
    && (forall i :: 0 <= i < |s.regions| && i != id ==> t.regions[i] == s.regions[i])
    && (forall k: (u16, u16) :: k.0 != id ==> (k in s.store <==> k in t.store) && (k in s.store ==> s.store[k] == t.store[k]))
  }

  /** Keeping the invariant and the view of the others, with region `id` seen as `v`. */
  lemma OneRegion(s: Sys, t: Sys, id: u16)
    requires Inv(s) && OnlyRegion(s, t, id) && RegionOk(t.regions[id].value, id, t.store)
    ensures Inv(t)
    ensures Abs(t) == Abs(s)[id := Some(View(t.regions[id].value, id, t.store))]
  {
    forall i | 0 <= i < |t.regions| && t.regions[i].Some? ensures RegionOk(t.regions[i].value, i, t.store) {
      if i != id {
        assert RegionOk(s.regions[i].value, i, s.store);
        assert (i, s.regions[i].value.generation).0 != id;
      }
    }
    forall i | 0 <= i < |t.regions| && i != id ensures Abs(t)[i] == Abs(s)[i] {
      if s.regions[i].Some? { assert (i, s.regions[i].value.generation).0 != id; }
    }
  }

  /** When the view of region `id` does not change, nothing observable does. */
  lemma SameView(s: Sys, t: Sys, id: u16)
    requires Inv(s) && OnlyRegion(s, t, id) && s.regions[id].Some? && RegionOk(t.regions[id].value, id, t.store)
    requires View(t.regions[id].value, id, t.store) == View(s.regions[id].value, id, s.store)
    ensures Inv(t) && Abs(t) == Abs(s)
  {
    OneRegion(s, t, id);
    AbsAt(s, id);
  }

  lemma SpillInvisible(s: Sys, id: u16)
    requires Inv(s)
    ensures var t := SpillRegion(s, id, true).0; Inv(t) && Abs(t) == Abs(s)
  {
    var t := SpillRegion(s, id, true).0;
    if t != s {
      assert RegionOk(s.regions[id].value, id, s.store);
      SameView(s, t, id);
    }
  }

  lemma LoadInvisible(s: Sys, id: u16)
    requires Inv(s) && Harmless(s, DoLoad(id))
    ensures var t := LoadRegion(s, id, true).0; Inv(t) && Abs(t) == Abs(s)
    ensures s.Lookup(id).Some? ==>
      var (t, o) := LoadRegion(s, id, true);
      o == Ok(Done) && t.Lookup(id).Some? && t.Lookup(id).value.memory.Some?
  {
    var t := LoadRegion(s, id, true).0;
    if s.Lookup(id).Some? {
      assert RegionOk(s.regions[id].value, id, s.store);
      if t != s { SameView(s, t, id); }
    }
  }

  lemma PromoteInvisible(s: Sys, id: u16)
    requires Inv(s)
    ensures var t := PromoteRegion(s, id, true).0; Inv(t) && Abs(t) == Abs(s)
  {
    var t := PromoteRegion(s, id, true).0;
    if s.Lookup(id).Some? {
      assert RegionOk(s.regions[id].value, id, s.store);
      if s.Lookup(id).value.residency == Cold { LoadInvisible(s, id); }
      else if s.Lookup(id).value.residency == Warm { SameView(s, t, id); }
    }
  }

  lemma DemoteInvisible(s: Sys, id: u16)
    requires Inv(s)
    ensures var t := DemoteRegion(s, id, true).0; Inv(t) && Abs(t) == Abs(s)
  {
    SpillInvisible(s, id);
    var t := DemoteRegion(s, id, true).0;
    if s.Lookup(id).Some? {
      var r := s.Lookup(id).value;
      assert RegionOk(r, id, s.store);
      if r.residency == Hot && !r.pinned && r.spillable { SameView(s, t, id); }
    }
  }

  lemma LruOnly(s: Sys, lru: seq<u16>)
    requires Inv(s)
    ensures Inv(s.(lru := lru)) && Abs(s.(lru := lru)) == Abs(s)
  {
  }

  lemma {:induction false} EvictInvisible(s: Sys, ids: seq<u16>)
    requires Inv(s)
    ensures var t := EvictScan(s, ids, true).0; Inv(t) && Abs(t) == Abs(s)
    decreases ids
  {
    if ids != [] {
      var id := ids[0];
      LruOnly(s, Without(s.lru, id));
      EvictInvisible(s.(lru := Without(s.lru, id)), ids[1..]);
      SpillInvisible(s, id);
    }
  }

  lemma PinInvisible(s: Sys, id: u16)
    requires Inv(s)
    ensures var t := Pin(s, id).0; Inv(t) && Abs(t) == Abs(s)
    ensures var t := Unpin(s, id).0; Inv(t) && Abs(t) == Abs(s)
  {
    if s.Lookup(id).Some? {
      assert RegionOk(s.regions[id].value, id, s.store);
      SameView(s, Unpin(s, id).0, id);
      if s.Lookup(id).value.pinnable { SameView(s, Pin(s, id).0, id); }
    }
  }

  lemma FaultInvisible(s: Sys, id: u16)
    requires Inv(s)
    ensures var (t, o) := Fault(s, id, true);
      && Inv(t) && Abs(t) == Abs(s)
      && (s.Lookup(id).None? ==> t == s && o == Err(RegionNotFound(id)))
      && (s.Lookup(id).Some? ==> o == Ok(Done) && t.Lookup(id).Some? && t.Lookup(id).value.memory.Some?)
  {
    if s.Lookup(id).Some? {
      assert RegionOk(s.regions[id].value, id, s.store);
      if s.Lookup(id).value.residency == Cold { LoadInvisible(s, id); }
    }
  }

  lemma ReadRefines(s: Sys, h: Handle, len: u32)
    requires Inv(s)
    ensures var (t, o) := ReadOrFault(s, h, len, true);
      Inv(t) && Abs(t) == Abs(s) && o == FlatRead(Abs(s), h, len)
  {
    FaultInvisible(s, h.regionId);
    AbsAt(s, h.regionId);
    AbsAt(Fault(s, h.regionId, true).0, h.regionId);
  }

  lemma WriteRefines(s: Sys, h: Handle, data: bytes)
    requires Inv(s)
    ensures var (t, o) := WriteOrFault(s, h, data, true);
      Inv(t) && (Abs(t), o) == FlatWrite(Abs(s), h, data)
  {
    FaultInvisible(s, h.regionId);
    AbsAt(s, h.regionId);
    var u := Fault(s, h.regionId, true).0;
    AbsAt(u, h.regionId);
    var t := Write(u, h, data).0;
    if u.Lookup(h.regionId).Some? {
      assert RegionOk(u.regions[h.regionId].value, h.regionId, u.store);
      if Write(u, h, data).1.Ok? { OneRegion(u, t, h.regionId); }
    }
  }

  lemma AllocRefines(s: Sys, id: u16, size: u32, align: u32)
    requires Inv(s)
    ensures var (t, o) := AllocAligned(s, id, size, align);
      Inv(t) && (Abs(t), o) == FlatAlloc(Abs(s), id, size, align)
  {
    AbsAt(s, id);
    var t := AllocAligned(s, id, size, align).0;
    if s.Lookup(id).Some? {
      var r := s.regions[id].value;
      assert RegionOk(r, id, s.store);
      AllocInOk(r.alloc, r.capacity, size, align);
      if AllocAligned(s, id, size, align).1.Ok? { OneRegion(s, t, id); }
    }
  }

  lemma DeallocRefines(s: Sys, h: Handle)
    requires Inv(s)
    ensures var (t, o) := Dealloc(s, h); Inv(t) && (Abs(t), o) == FlatDealloc(Abs(s), h)
  {
    AbsAt(s, h.regionId);
    if s.Lookup(h.regionId).Some? {
      var r := s.regions[h.regionId].value;
      assert RegionOk(r, h.regionId, s.store);
      assert AllocOk(DeallocIn(r.alloc, h.offset).0, r.capacity);
      if Dealloc(s, h).1.Ok? { OneRegion(s, Dealloc(s, h).0, h.regionId); }
    }
  }

  lemma CreateRefines(s: Sys, policy: Policy, capacity: u32, ak: AllocatorKind, init: bytes)
    requires Inv(s) && policy.initial != Cold
    ensures var (t, o) := CreateRegion(s, policy, capacity, ak, init);
      Inv(t) && (Abs(t), o) == FlatCreate(Abs(s), capacity, ak, init)
  {
    var t := CreateRegion(s, policy, capacity, ak, init).0;
    if |s.regions| <= U16_MAX {
      forall i | 0 <= i < |t.regions| && t.regions[i].Some? ensures RegionOk(t.regions[i].value, i, t.store) {
        if i < |s.regions| { assert RegionOk(s.regions[i].value, i, s.store); }
      }
      assert Abs(t) == FlatCreate(Abs(s), capacity, ak, init).0;
    }
  }

  lemma DestroyRefines(s: Sys, id: u16)
    requires Inv(s)
    ensures var (t, o) := DestroyRegion(s, id); Inv(t) && (Abs(t), o) == FlatDestroy(Abs(s), id)
  {
    AbsAt(s, id);
    var t := DestroyRegion(s, id).0;
    forall i | 0 <= i < |t.regions| && t.regions[i].Some? ensures RegionOk(t.regions[i].value, i, t.store) {
      assert RegionOk(s.regions[i].value, i, s.store);
    }
    assert Abs(t) == FlatDestroy(Abs(s), id).0;
  }

  lemma CompactRefines(s: Sys, id: u16)
    requires Inv(s)
    ensures var (t, o) := CompactRegion(s, id);
      && Inv(t) && FlatOk(Abs(s))
      && (Abs(t), if o.Ok? then o else Err(NotResident)) == FlatStep(Abs(s), DoCompact(id), o)
  {
    AbsOk(s);
    AbsAt(s, id);
    var (t, o) := CompactRegion(s, id);
    if o.Ok? {
      var r := s.regions[id].value;
      assert RegionOk(r, id, s.store);
      CompactShape(r.alloc.live, r.memory.value.data, r.capacity);
      OneRegion(s, t, id);
    }
  }

  lemma BumpRefines(s: Sys, id: u16)
    requires Inv(s) && Harmless(s, DoBump(id))
    ensures var (t, o) := BumpGeneration(s, id); Inv(t) && (Abs(t), o) == FlatBump(Abs(s), id)
  {
    AbsAt(s, id);
    if s.Lookup(id).Some? {
      assert RegionOk(s.regions[id].value, id, s.store);
      OneRegion(s, BumpGeneration(s, id).0, id);
    }
  }

  /** One call, with a store that accepts it. */
  lemma StepRefines(s: Sys, op: Op)
    requires Inv(s) && Harmless(s, op)
    ensures var (t, o) := Step(s, op, true);
      && Inv(t) && FlatOk(Abs(s))
      && Abs(t) == FlatStep(Abs(s), op, o).0
      && (Observed(op, o) ==> o == FlatStep(Abs(s), op, o).1)
  {
    AbsOk(s);
    match op
    case DoCreate(policy, capacity, ak, init) => CreateRefines(s, policy, capacity, ak, init);
    case DoDestroy(id) => DestroyRefines(s, id);
    case DoAlloc(id, size, align) => AllocRefines(s, id, size, align);
    case DoDealloc(h) => DeallocRefines(s, h);
    case DoRead(h, len) => ReadRefines(s, h, len);
    case DoWrite(h, data) => WriteRefines(s, h, data);
    case DoSpill(id) => SpillInvisible(s, id);
    case DoLoad(id) => LoadInvisible(s, id);
    case DoPromote(id) => PromoteInvisible(s, id);
    case DoDemote(id) => DemoteInvisible(s, id);
    case DoEvict => EvictInvisible(s, Reversed(s.lru));
    case DoPin(id) => PinInvisible(s, id);
    case DoUnpin(id) => PinInvisible(s, id);
    case DoCompact(id) => CompactRefines(s, id);
    case DoBump(id) => BumpRefines(s, id);
  }

  // ---------------------------------------------------------------------------------------------
  // Runs.
  // ---------------------------------------------------------------------------------------------

  ghost predicate HarmlessRun(s: Sys, ops: seq<Op>)
    requires Inv(s)
    decreases ops
  {
    ops != [] ==> Harmless(s, ops[0]) && (Inv(Step(s, ops[0], true).0) ==> HarmlessRun(Step(s, ops[0], true).0, ops[1..]))
  }

  /** Every observed outcome of the tiered run is the one the flat run gives, and every Cold region
      met on the way has its bytes in the store under its current id and generation. */
  ghost predicate Indistinguishable(s: Sys, f: Flat, ops: seq<Op>)
    decreases ops
  {
    && Inv(s) && FlatOk(f) && Abs(s) == f
    && (ops != [] ==>
      var (t, o) := Step(s, ops[0], true);
      var (g, p) := FlatStep(f, ops[0], o);
      (Observed(ops[0], o) ==> o == p) && Indistinguishable(t, g, ops[1..]))
  }

  /** Along every run with a faithful store the tiered directory answers as the flat machine does. */
  lemma {:induction false} TieringIsInvisible(s: Sys, ops: seq<Op>)
    requires Inv(s) && HarmlessRun(s, ops)
    ensures Indistinguishable(s, Abs(s), ops)
    decreases ops
  {
    AbsOk(s);
    if ops != [] {
      StepRefines(s, ops[0]);
      TieringIsInvisible(Step(s, ops[0], true).0, ops[1..]);
    }
  }

  // ---------------------------------------------------------------------------------------------
  // Exactly when the exceptions bite.
  // ---------------------------------------------------------------------------------------------

  /** `load_region` changes what a reader sees exactly when a region that is not Hot has its memory and the
      store holds different bytes under its key. */
  lemma LoadVisibleIff(s: Sys, id: u16)
    requires |s.regions| <= U16_MAX + 1
    ensures var t := LoadRegion(s, id, true).0;
      && |t.regions| <= U16_MAX + 1
      && (Abs(t) != Abs(s) <==>
          && s.Lookup(id).Some?
          && var r := s.Lookup(id).value; var key := (id, r.generation);
          && r.residency != Hot && r.memory.Some? && key in s.store && s.store[key] != r.memory.value.data)
  {
    AbsAt(s, id);
    var t := LoadRegion(s, id, true).0;
    AbsAt(t, id);
    if t != s { assert Abs(t) == Abs(s)[id := Some(View(t.regions[id].value, id, t.store))]; }
  }

  /** What of `data` a region of this capacity lets a reader see. */
  function Visible(data: bytes, capacity: u32): bytes { if |data| <= capacity then data else data[..capacity] }

  /** A region created Cold has its bytes in memory but is read from the store: every faulting read
      of the new region answers as the flat machine exactly when its policy does not say Cold, or
      the store happens to hold the same bytes under the new key. */
  lemma CreateVisibleIff(s: Sys, policy: Policy, capacity: u32, ak: AllocatorKind, init: bytes)
    requires |s.regions| <= U16_MAX
    ensures var t := CreateRegion(s, policy, capacity, ak, init).0; var key := (|s.regions| as u16, 1 as u16);
      && |t.regions| <= U16_MAX + 1
      && ((forall h: Handle, len: u32 :: h.regionId == |s.regions| ==> ReadOrFault(t, h, len, true).1 == FlatRead(Abs(t), h, len)) <==>
          policy.initial != Cold || (key in s.store && Visible(s.store[key], capacity) == Visible(init, capacity)))
  {
    var t := CreateRegion(s, policy, capacity, ak, init).0;
    var id: u16, key := |s.regions|, (|s.regions| as u16, 1 as u16);
    AbsAt(t, id);
    if policy.initial == Cold {
      var stored := if key in s.store then Visible(s.store[key], capacity) else [];
      var own := Visible(init, capacity);
      var h := Handle(id, 1, 0);
      if key !in s.store {
        assert ReadOrFault(t, h, 0, true).1 != FlatRead(Abs(t), h, 0);
      } else if stored != own {
        var n: u32 := if |stored| < |own| then |own| else |stored|;
        if |stored| == |own| { assert Slice(s.store[key], 0, n) == stored && Slice(init, 0, n) == own; }
        assert ReadOrFault(t, h, n, true).1 != FlatRead(Abs(t), h, n);
      } else {
        forall h: Handle, len: u32 | h.regionId == id ensures ReadOrFault(t, h, len, true).1 == FlatRead(Abs(t), h, len) {
          if h.offset + len <= capacity && h.offset + len <= |init| {
            assert Slice(own, h.offset, len) == Slice(init, h.offset, len);
            assert Slice(stored, h.offset, len) == Slice(s.store[key], h.offset, len);
          }
        }
      }
    }
  }

  /** What the store holds under a key. */
  function Stored(store: Store, key: (u16, u16)): Option<bytes> { if key in store then Some(store[key]) else None }

  /** `bump_generation` changes the bytes of a region exactly when it has no memory and the store does not
      hold the same under its next key. */
  lemma BumpVisibleIff(s: Sys, id: u16)
    requires |s.regions| <= U16_MAX + 1 && s.Lookup(id).Some?
    ensures var t := BumpGeneration(s, id).0; var r := s.Lookup(id).value;
      && |t.regions| <= U16_MAX + 1
      && (Abs(t) != FlatBump(Abs(s), id).0 <==>
          r.memory.None? && Stored(s.store, (id, NextGeneration(r.generation))) != Stored(s.store, (id, r.generation)))
  {
    var t := BumpGeneration(s, id).0;
    AbsAt(s, id);
    AbsAt(t, id);
    forall i | 0 <= i < |s.regions| && i != id ensures Abs(t)[i] == Abs(s)[i] {}
    assert Abs(t) == Abs(s)[id := Some(View(t.regions[id].value, id, t.store))];
  }

  /** When the store refuses the spill, the bytes are gone unless the store already held them:
      memory was taken before the call. */
  lemma FailedSpillVisibleIff(s: Sys, id: u16)
    requires |s.regions| <= U16_MAX + 1
    ensures var (t, o) := SpillRegion(s, id, false);
      && |t.regions| <= U16_MAX + 1
      && (Abs(t) != Abs(s) <==>
          && s.Lookup(id).Some?
          && var r := s.Lookup(id).value;
          && !r.pinned && r.spillable && r.residency != Cold && r.memory.Some?
          && !((id, r.generation) in s.store && s.store[(id, r.generation)] == r.memory.value.data))
  {
    var t := SpillRegion(s, id, false).0;
    AbsAt(s, id);
    AbsAt(t, id);
    if t != s { assert Abs(t) == Abs(s)[id := Some(View(t.regions[id].value, id, t.store))]; }
  }

  /** A run on which `load_region` overwrites live bytes: create a Warm region, spill it, load it,
      demote it to Warm, write, and load it once more. */
  lemma LoadOverWarmLosesWrites()
    ensures
      var h := Handle(0, 1, 0);
      var s1 := CreateRegion(Sys([], [], 1, map[]), PolicyFor(PageStore), 1, BumpKind, [0]).0;
      var s2 := LoadRegion(SpillRegion(s1, 0, true).0, 0, true).0;
      var s3 := WriteOrFault(DemoteRegion(s2, 0, true).0, h, [7], true).0;
      && ReadOrFault(s3, h, 1, true).1 == Ok(Data([7]))
      && ReadOrFault(LoadRegion(s3, 0, true).0, h, 1, true).1 == Ok(Data([0]))
  {
    assert Slice([7], 0, 1) == [7] && Slice([0], 0, 1) == [0] && Splice([0], 0, [7]) == [7];
  }

  const NO_REGIONS := Sys([], [], 1, map[])

  /** The spilled bytes are out of reach once a bump has renamed their key. */
  lemma BumpLosesColdBytes()
    ensures
      var s := SpillRegion(CreateRegion(NO_REGIONS, PolicyFor(PageStore), 1, BumpKind, [5]).0, 0, true).0;
      && ReadOrFault(s, Handle(0, 1, 0), 1, true).1 == Ok(Data([5]))
      && BumpGeneration(s, 0).1 == Ok(Bumped(2))
      && ReadOrFault(BumpGeneration(s, 0).0, Handle(0, 2, 0), 1, true).1 == Err(BackingStore)
  {
    assert Slice([5], 0, 1) == [5];
  }

  /** A refused spill of a fresh region leaves nothing to read. */
  lemma RefusedSpillLosesBytes()
    ensures
      var s := CreateRegion(NO_REGIONS, PolicyFor(PageStore), 1, BumpKind, [5]).0; var h := Handle(0, 1, 0);
      && ReadOrFault(s, h, 1, true).1 == Ok(Data([5]))
      && ReadOrFault(SpillRegion(s, 0, false).0, h, 1, true).1 == Err(NotResident)
  {
    assert Slice([5], 0, 1) == [5];
  }

  /** A region created Cold cannot be read, whatever it was created with. */
  lemma CreatedColdUnreadable()
    ensures ReadOrFault(CreateRegion(NO_REGIONS, Policy(Cold, false, true), 1, BumpKind, [5]).0, Handle(0, 1, 0), 1, true).1 == Err(BackingStore)
  {
  }
}
