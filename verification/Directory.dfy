/**
 * The tiered region directory as a step function over values: regions, the warm list and the
 * backing store. `RegionDirectory` refines these functions in place.
 */
module Directory {
  import opened Core
  import opened Bits
  import opened Allocator
  import opened Compaction

  datatype Residency = Hot | Warm | Cold

  datatype RegionKind = HotHeap | ObjectArena | BlobArena | PageStore | Scratch | DeviceState | CodeCache

  datatype Policy = Policy(initial: Residency, pinnable: bool, spillable: bool)

  function PolicyFor(kind: RegionKind): Policy {
    match kind
    case HotHeap | CodeCache | DeviceState => Policy(Hot, true, false)
    case ObjectArena | BlobArena => Policy(Hot, false, true)
    case PageStore => Policy(Warm, false, true)
    case Scratch => Policy(Hot, false, false)
  }

  datatype AllocatorKind = BumpKind | FreelistKind

  /** What a region allocator remembers: the bump pointer, or the live blocks. */
  datatype Alloc = Bump(top: u32) | Freelist(live: Live)

  /** A memory object: its identity and its bytes. */
  datatype Mem = Mem(stamp: nat, data: bytes)

  datatype Region = Region(
    generation: u16, capacity: u32, residency: Residency,
    pinned: bool, pinnable: bool, spillable: bool,
    memory: Option<Mem>, alloc: Alloc)

  type Store = map<(u16, u16), bytes>

  datatype Sys = Sys(regions: seq<Option<Region>>, lru: seq<u16>, nextStamp: nat, store: Store) {
    function Lookup(id: u16): Option<Region> {
      if id < |regions| then regions[id] else None
    }

    function Set(id: u16, r: Region): Sys
      requires id < |regions|
    {
      this.(regions := regions[id := Some(r)])
    }
  }

  datatype Reply =
    | Done
    | Created(id: u16)
    | Allocated(handle: Handle)
    | Data(data: bytes)
    | Evicted(victim: Option<u16>)
    | Remapped(remap: HandleRemap)
    | Bumped(generation: u16)

  type Outcome = Result<Reply>

  // ---------------------------------------------------------------------------------------------
  // The warm list.
  // ---------------------------------------------------------------------------------------------

  /** `lru` without its first occurrence of `id`. */
  function Without(lru: seq<u16>, id: u16): seq<u16> {
    if lru == [] then []
    else if lru[0] == id then lru[1..]
    else [lru[0]] + Without(lru[1..], id)
  }

  // ---------------------------------------------------------------------------------------------
  // Operations.
  // ---------------------------------------------------------------------------------------------

  /** `create_region_with_policy`: any policy, whatever the kind's default. */
  function CreateRegion(s: Sys, p: Policy, capacity: u32, ak: AllocatorKind, data: bytes): (Sys, Outcome) {
    if |s.regions| > U16_MAX then (s, Err(AllocationFailed))
    else
      var id := |s.regions|;
      var alloc := if ak == BumpKind then Bump(0) else Freelist(map[]);
      var r := Region(1, capacity, p.initial, false, p.pinnable, p.spillable, Some(Mem(s.nextStamp, data)), alloc);
      (Sys(s.regions + [Some(r)], if p.initial == Warm then [id] + s.lru else s.lru, s.nextStamp + 1, s.store),
       Ok(Created(id)))
  }

  function DestroyRegion(s: Sys, id: u16): (Sys, Outcome) {
    if s.Lookup(id).None? then (s, Err(RegionNotFound(id)))
    else (s.(regions := s.regions[id := None], lru := Without(s.lru, id)), Ok(Done))
  }

  /** `ok` is the backing store's answer: a store call that fails loses the bytes already taken. */
  function SpillRegion(s: Sys, id: u16, ok: bool): (Sys, Outcome) {
    match s.Lookup(id)
    case None => (s, Err(RegionNotFound(id)))
    case Some(r) =>
      if r.pinned then (s, Err(Pinned))
      else if !r.spillable then (s, Err(PolicyViolation))
      else if r.residency == Cold then (s, Ok(Done))
      else if r.memory.None? then (s, Err(NotResident))
      else if !ok then (s.Set(id, r.(memory := None)), Err(BackingStore))
      else
        (s.Set(id, r.(memory := None, residency := Cold))
          .(store := s.store[(id, r.generation) := r.memory.value.data], lru := Without(s.lru, id)),
         Ok(Done))
  }

  function LoadRegion(s: Sys, id: u16, ok: bool): (Sys, Outcome) {
    match s.Lookup(id)
    case None => (s, Err(RegionNotFound(id)))
    case Some(r) =>
      if r.residency == Hot && r.memory.Some? then (s, Ok(Done))
      else if !ok || (id, r.generation) !in s.store then (s, Err(BackingStore))
      else
        (s.Set(id, r.(memory := Some(Mem(s.nextStamp, s.store[(id, r.generation)])), residency := Hot)).(nextStamp := s.nextStamp + 1),
         Ok(Done))
  }

  function PromoteRegion(s: Sys, id: u16, ok: bool): (Sys, Outcome) {
    match s.Lookup(id)
    case None => (s, Err(RegionNotFound(id)))
    case Some(r) =>
      match r.residency
      case Hot => (s, Ok(Done))
      case Warm => (s.Set(id, r.(residency := Hot)).(lru := Without(s.lru, id)), Ok(Done))
      case Cold => LoadRegion(s, id, ok)
  }

  function DemoteRegion(s: Sys, id: u16, ok: bool): (Sys, Outcome) {
    match s.Lookup(id)
    case None => (s, Err(RegionNotFound(id)))
    case Some(r) =>
      if r.pinned then (s, Err(Pinned))
      else if !r.spillable then (s, Err(PolicyViolation))
      else
        match r.residency
        case Hot => (s.Set(id, r.(residency := Warm)).(lru := [id] + Without(s.lru, id)), Ok(Done))
        case Warm => SpillRegion(s, id, ok)
        case Cold => (s, Ok(Done))
  }

  /** Walks candidates oldest first, dropping stale entries, and spills the first one that is Warm. */
  function EvictScan(s: Sys, ids: seq<u16>, ok: bool): (Sys, Outcome)
    decreases ids
  {
    if ids == [] then (s, Ok(Evicted(None)))
    else
      var id := ids[0];
      match s.Lookup(id)
      case None => EvictScan(s.(lru := Without(s.lru, id)), ids[1..], ok)
      case Some(r) =>
        if r.pinned || r.residency != Warm then EvictScan(s.(lru := Without(s.lru, id)), ids[1..], ok)
        else
          var (t, o) := SpillRegion(s, id, ok);
          (t, if o.Err? then o else Ok(Evicted(Some(id))))
  }

  function Reversed(ids: seq<u16>): (r: seq<u16>)
    ensures |r| == |ids| && forall i :: 0 <= i < |ids| ==> r[i] == ids[|ids| - 1 - i]
  {
    if ids == [] then [] else Reversed(ids[1..]) + [ids[0]]
  }

  function EvictWarmRegion(s: Sys, ok: bool): (Sys, Outcome) { EvictScan(s, Reversed(s.lru), ok) }

  function Pin(s: Sys, id: u16): (Sys, Outcome) {
    match s.Lookup(id)
    case None => (s, Err(RegionNotFound(id)))
    case Some(r) => if !r.pinnable then (s, Err(PolicyViolation)) else (s.Set(id, r.(pinned := true)), Ok(Done))
  }

  function Unpin(s: Sys, id: u16): (Sys, Outcome) {
    match s.Lookup(id)
    case None => (s, Err(RegionNotFound(id)))
    case Some(r) => (s.Set(id, r.(pinned := false)), Ok(Done))
  }

  function AllocIn(a: Alloc, capacity: u32, size: u32, align: u32): (Alloc, Result<u32>) {
    match a
    case Bump(top) =>
      var up := AlignUp(top, align);
      if up.None? || up.value + size > capacity then (a, Err(AllocationFailed))
      else (Bump(up.value + size), Ok(up.value))
    case Freelist(live) =>
      var fit := FirstFit(live, capacity, size, align);
      (if fit.Ok? then Freelist(live[fit.value := size]) else a, fit)
  }

  function DeallocIn(a: Alloc, offset: u32): (Alloc, Result<u32>) {
    match a
    case Bump(_) => (a, Ok(0))
    case Freelist(live) =>
      if offset in live then (Freelist(live - {offset}), Ok(live[offset])) else (a, Err(OutOfBounds))
  }

  function AllocAligned(s: Sys, id: u16, size: u32, align: u32): (Sys, Outcome) {
    match s.Lookup(id)
    case None => (s, Err(RegionNotFound(id)))
    case Some(r) =>
      var (a, o) := AllocIn(r.alloc, r.capacity, size, align);
      if o.Err? then (s, Err(o.error))
      else (s.Set(id, r.(alloc := a)), Ok(Allocated(Handle(id, r.generation, o.value))))
  }

  function Dealloc(s: Sys, h: Handle): (Sys, Outcome) {
    match s.Lookup(h.regionId)
    case None => (s, Err(RegionNotFound(h.regionId)))
    case Some(r) =>
      if r.generation != h.generation then (s, Err(StaleHandle))
      else
        var (a, o) := DeallocIn(r.alloc, h.offset);
        if o.Err? then (s, Err(o.error)) else (s.Set(h.regionId, r.(alloc := a)), Ok(Done))
  }

  /** The strict read: no fault, so a Cold region is `NotResident`. */
  function Read(s: Sys, h: Handle, len: u32): Outcome {
    match s.Lookup(h.regionId)
    case None => Err(RegionNotFound(h.regionId))
    case Some(r) =>
      if r.generation != h.generation then Err(StaleHandle)
      else if r.memory.None? then Err(NotResident)
      else if h.offset + len > r.capacity || h.offset + len > |r.memory.value.data| then Err(OutOfBounds)
      else Ok(Data(Slice(r.memory.value.data, h.offset, len)))
  }

  function Write(s: Sys, h: Handle, data: bytes): (Sys, Outcome) {
    match s.Lookup(h.regionId)
    case None => (s, Err(RegionNotFound(h.regionId)))
    case Some(r) =>
      if r.generation != h.generation then (s, Err(StaleHandle))
      else if r.memory.None? then (s, Err(NotResident))
      else
        var m := r.memory.value;
        if h.offset + |data| > r.capacity || h.offset + |data| > |m.data| then (s, Err(OutOfBounds))
        else (s.Set(h.regionId, r.(memory := Some(m.(data := Splice(m.data, h.offset, data))))), Ok(Done))
  }

  /** Region-to-region copy in host memory, without generation checks. */
  function CrossRegionCopy(s: Sys, src: u16, srcOff: u32, dst: u16, dstOff: u32, len: u32): (Sys, Outcome) {
    match s.Lookup(src)
    case None => (s, Err(RegionNotFound(src)))
    case Some(a) =>
      var got := Read(s, Handle(src, a.generation, srcOff), len);
      if got.Err? then (s, got)
      else
        match s.Lookup(dst)
        case None => (s, Err(RegionNotFound(dst)))
        case Some(b) => Write(s, Handle(dst, b.generation, dstOff), got.value.data)
  }

  /** A copy whose source is named by a handle. */
  function ReadInto(s: Sys, src: Handle, dst: u16, dstOff: u32, len: u32): (Sys, Outcome) {
    match s.Lookup(src.regionId)
    case None => (s, Err(RegionNotFound(src.regionId)))
    case Some(r) =>
      if r.generation != src.generation then (s, Err(StaleHandle))
      else CrossRegionCopy(s, src.regionId, src.offset, dst, dstOff, len)
  }

  /** A copy whose destination is named by a handle. */
  function WriteFrom(s: Sys, src: u16, srcOff: u32, dst: Handle, len: u32): (Sys, Outcome) {
    match s.Lookup(dst.regionId)
    case None => (s, Err(RegionNotFound(dst.regionId)))
    case Some(r) =>
      if r.generation != dst.generation then (s, Err(StaleHandle))
      else CrossRegionCopy(s, src, srcOff, dst.regionId, dst.offset, len)
  }

  /** Loads a Cold region before an access. */
  function Fault(s: Sys, id: u16, ok: bool): (Sys, Outcome) {
    match s.Lookup(id)
    case None => (s, Err(RegionNotFound(id)))
    case Some(r) => if r.residency == Cold then LoadRegion(s, id, ok) else (s, Ok(Done))
  }

  function ReadOrFault(s: Sys, h: Handle, len: u32, ok: bool): (Sys, Outcome) {
    var (t, o) := Fault(s, h.regionId, ok);
    (t, if o.Err? then o else Read(t, h, len))
  }

  function WriteOrFault(s: Sys, h: Handle, data: bytes, ok: bool): (Sys, Outcome) {
    var (t, o) := Fault(s, h.regionId, ok);
    if o.Err? then (t, o) else Write(t, h, data)
  }

  function CompactRegion(s: Sys, id: u16): (Sys, Outcome)
    requires AllocsOk(s)
  {
    match s.Lookup(id)
    case None => (s, Err(RegionNotFound(id)))
    case Some(r) =>
      if r.pinned then (s, Err(Pinned))
      else if r.alloc.Bump? then (s, Err(UnsupportedAllocator))
      else if r.memory.None? then (s, Err(NotResident))
      else if !Within(SortedBlocks(r.alloc.live), |r.memory.value.data|) then (s, Err(OutOfBounds))
      else
        assert AllocOk(r.alloc, r.capacity);
        var c := Compact(r.alloc.live, r.memory.value.data, r.capacity);
        var next := NextGeneration(r.generation);
        (s.Set(id, r.(generation := next, memory := Some(Mem(s.nextStamp, c.mem)), alloc := Freelist(c.live))).(nextStamp := s.nextStamp + 1),
         Ok(Remapped(HandleRemap(id, r.generation, next, c.mapping))))
  }

  function BumpGeneration(s: Sys, id: u16): (Sys, Outcome) {
    match s.Lookup(id)
    case None => (s, Err(RegionNotFound(id)))
    case Some(r) =>
      var next := NextGeneration(r.generation);
      (s.Set(id, r.(generation := next)), Ok(Bumped(next)))
  }

  datatype Op =
    | DoCreate(policy: Policy, capacity: u32, ak: AllocatorKind, init: bytes)
    | DoDestroy(id: u16)
    | DoAlloc(id: u16, size: u32, align: u32)
    | DoDealloc(h: Handle)
    | DoRead(h: Handle, len: u32)
    | DoWrite(h: Handle, data: bytes)
    | DoSpill(id: u16)
    | DoLoad(id: u16)
    | DoPromote(id: u16)
    | DoDemote(id: u16)
    | DoEvict
    | DoPin(id: u16)
    | DoUnpin(id: u16)
    | DoCompact(id: u16)
    | DoBump(id: u16)

  /** One call on the directory; `ok` says whether the backing store accepts the calls it receives. */
  function Step(s: Sys, op: Op, ok: bool): (Sys, Outcome)
    requires AllocsOk(s)
  {
    match op
    case DoCreate(policy, capacity, ak, init) => CreateRegion(s, policy, capacity, ak, init)
    case DoDestroy(id) => DestroyRegion(s, id)
    case DoAlloc(id, size, align) => AllocAligned(s, id, size, align)
    case DoDealloc(h) => Dealloc(s, h)
    case DoRead(h, len) => ReadOrFault(s, h, len, ok)
    case DoWrite(h, data) => WriteOrFault(s, h, data, ok)
    case DoSpill(id) => SpillRegion(s, id, ok)
    case DoLoad(id) => LoadRegion(s, id, ok)
    case DoPromote(id) => PromoteRegion(s, id, ok)
    case DoDemote(id) => DemoteRegion(s, id, ok)
    case DoEvict => EvictWarmRegion(s, ok)
    case DoPin(id) => Pin(s, id)
    case DoUnpin(id) => Unpin(s, id)
    case DoCompact(id) => CompactRegion(s, id)
    case DoBump(id) => BumpGeneration(s, id)
  }

  /** A call and the store's answer to it. */
  datatype Request = Request(op: Op, ok: bool)

  // ---------------------------------------------------------------------------------------------
  // Invariant.
  // ---------------------------------------------------------------------------------------------

  ghost predicate AllocOk(a: Alloc, capacity: u32) {
    match a
    case Bump(top) => top <= capacity
    case Freelist(live) => LiveOk(live, capacity)
  }

  /** With every store call accepted: a Cold region's bytes sit in the store under its current
      identity and generation, every other region has its memory. */
  ghost predicate RegionOk(r: Region, id: int, store: Store) {
    && 0 <= id <= U16_MAX
    && r.generation != 0
    && AllocOk(r.alloc, r.capacity)
    && (r.residency == Cold <==> r.memory.None?)
    && (r.residency == Cold ==> (id, r.generation) in store)
  }

  /** The part of the invariant that survives a failing store: every allocator is well formed. */
  ghost predicate AllocsOk(s: Sys) {
    forall id :: 0 <= id < |s.regions| && s.regions[id].Some? ==> AllocOk(s.regions[id].value.alloc, s.regions[id].value.capacity)
  }

  ghost predicate Inv(s: Sys)
    ensures Inv(s) ==> AllocsOk(s)
  {
    && |s.regions| <= U16_MAX + 1
    && forall id :: 0 <= id < |s.regions| && s.regions[id].Some? ==> RegionOk(s.regions[id].value, id, s.store)
  }

  lemma AllocInOk(a: Alloc, capacity: u32, size: u32, align: u32)
    requires AllocOk(a, capacity)
    ensures AllocOk(AllocIn(a, capacity, size, align).0, capacity)
  {
    if a.Freelist? && FirstFit(a.live, capacity, size, align).Ok? { FirstFitKeepsLiveOk(a.live, capacity, size, align); }
  }

  // ---------------------------------------------------------------------------------------------
  // What every call keeps, whatever the store answers.
  // ---------------------------------------------------------------------------------------------

  ghost predicate Sound(s: Sys)
    ensures Sound(s) ==> AllocsOk(s)
  {
    |s.regions| <= U16_MAX + 1 && AllocsOk(s)
  }

  /** `t` differs from `s` in slot `id` at most, and in the store only under that region's keys. */
  ghost predicate OnlySlot(s: Sys, t: Sys, id: u16) {
    && |t.regions| == |s.regions|
    && (forall i :: 0 <= i < |s.regions| && i != id ==> t.regions[i] == s.regions[i])
    && (forall k: (u16, u16) :: k.0 != id ==> (k in s.store <==> k in t.store) && (k in s.store ==> s.store[k] == t.store[k]))
  }

  lemma OneAlloc(s: Sys, t: Sys, id: u16)
    requires Sound(s) && OnlySlot(s, t, id)
    requires t.Lookup(id).Some? ==> AllocOk(t.Lookup(id).value.alloc, t.Lookup(id).value.capacity)
    ensures Sound(t)
  {
  }

  /** The region an eviction attempts: the first of `ids` that is Warm and not pinned. */
  function Victim(s: Sys, ids: seq<u16>): (r: Option<u16>)
    ensures r.Some? ==>
      r.value in ids && s.Lookup(r.value).Some? && s.Lookup(r.value).value.residency == Warm && !s.Lookup(r.value).value.pinned
  {
    if ids == [] then None
    else if s.Lookup(ids[0]).Some? && s.Lookup(ids[0]).value.residency == Warm && !s.Lookup(ids[0]).value.pinned then Some(ids[0])
    else Victim(s, ids[1..])
  }

  /** The scan is one attempt to spill that region, and otherwise only shortens the list. */
  lemma {:induction false} ScanIsSpill(s: Sys, ids: seq<u16>, ok: bool)
    ensures var (t, o) := EvictScan(s, ids, ok);
      match Victim(s, ids)
      case None => t == s.(lru := t.lru) && o == Ok(Evicted(None))
      case Some(v) =>
        var (u, p) := SpillRegion(s, v, ok);
        t == u.(lru := t.lru) && o == if p.Err? then p else Ok(Evicted(Some(v)))
    decreases ids
  {
    if ids != [] && Victim(s, ids) != Some(ids[0]) {
      var u := s.(lru := Without(s.lru, ids[0]));
      SameVictim(s, u, ids[1..]);
      ScanIsSpill(u, ids[1..], ok);
    }
  }

  lemma {:induction false} SameVictim(s: Sys, u: Sys, ids: seq<u16>)
    requires u.regions == s.regions
    ensures Victim(u, ids) == Victim(s, ids)
  {
    if ids != [] { SameVictim(s, u, ids[1..]); }
  }

  /** The region a call names, if it is about one; for an eviction the region it attempts. */
  function Subject(s: Sys, op: Op): Option<u16> {
    match op
    case DoCreate(_, _, _, _) => None
    case DoDestroy(id) => Some(id)
    case DoAlloc(id, _, _) => Some(id)
    case DoDealloc(h) => Some(h.regionId)
    case DoRead(h, _) => Some(h.regionId)
    case DoWrite(h, _) => Some(h.regionId)
    case DoSpill(id) => Some(id)
    case DoLoad(id) => Some(id)
    case DoPromote(id) => Some(id)
    case DoDemote(id) => Some(id)
    case DoEvict => Victim(s, Reversed(s.lru))
    case DoPin(id) => Some(id)
    case DoUnpin(id) => Some(id)
    case DoCompact(id) => Some(id)
    case DoBump(id) => Some(id)
  }

  /** Nothing but slot `id` and its keys changes, and the allocator of the region does not. */
  ghost predicate TierOnly(s: Sys, t: Sys, id: u16) {
    && OnlySlot(s, t, id)
    && (id < |s.regions| ==> (t.regions[id].Some? <==> s.regions[id].Some?))
    && (s.Lookup(id).Some? ==>
        var r, r' := s.regions[id].value, t.regions[id].value; r'.alloc == r.alloc && r'.capacity == r.capacity && r'.generation == r.generation)
  }

  lemma SpillIsLocal(s: Sys, id: u16, ok: bool)
    ensures TierOnly(s, SpillRegion(s, id, ok).0, id)
  {
  }

  lemma LoadIsLocal(s: Sys, id: u16, ok: bool)
    ensures TierOnly(s, LoadRegion(s, id, ok).0, id)
  {
  }

  lemma TiersAreLocal(s: Sys, id: u16, ok: bool)
    ensures TierOnly(s, PromoteRegion(s, id, ok).0, id) && TierOnly(s, DemoteRegion(s, id, ok).0, id)
  {
    SpillIsLocal(s, id, ok);
    LoadIsLocal(s, id, ok);
  }

  lemma AccessesAreLocal(s: Sys, h: Handle, len: u32, data: bytes, ok: bool)
    ensures TierOnly(s, ReadOrFault(s, h, len, ok).0, h.regionId) && TierOnly(s, WriteOrFault(s, h, data, ok).0, h.regionId)
  {
    LoadIsLocal(s, h.regionId, ok);
  }

  lemma PinsAreLocal(s: Sys, id: u16)
    ensures TierOnly(s, Pin(s, id).0, id) && TierOnly(s, Unpin(s, id).0, id)
  {
  }

  lemma EvictionIsLocal(s: Sys, ok: bool, id: u16)
    requires Victim(s, Reversed(s.lru)).Some? ==> id == Victim(s, Reversed(s.lru)).value
    ensures TierOnly(s, EvictWarmRegion(s, ok).0, id)
    ensures Victim(s, Reversed(s.lru)).None? ==> EvictWarmRegion(s, ok).0.regions == s.regions && EvictWarmRegion(s, ok).0.store == s.store
  {
    ScanIsSpill(s, Reversed(s.lru), ok);
    SpillIsLocal(s, id, ok);
  }

  /** Calls that keep generations and allocators. */
  predicate Tiers(op: Op) {
    op.DoRead? || op.DoWrite? || op.DoSpill? || op.DoLoad? || op.DoPromote? || op.DoDemote? || op.DoEvict? || op.DoPin? || op.DoUnpin?
  }

  lemma TierStepIsLocal(s: Sys, op: Op, ok: bool, id: u16)
    requires AllocsOk(s) && Tiers(op) && (Subject(s, op).Some? ==> id == Subject(s, op).value)
    ensures TierOnly(s, Step(s, op, ok).0, id)
    ensures Subject(s, op).None? ==> Step(s, op, ok).0.regions == s.regions && Step(s, op, ok).0.store == s.store
  {
    match op
    case DoRead(h, len) => AccessesAreLocal(s, h, len, [], ok);
    case DoWrite(h, data) => AccessesAreLocal(s, h, 0, data, ok);
    case DoEvict => EvictionIsLocal(s, ok, id);
    case DoSpill(_) => SpillIsLocal(s, id, ok);
    case DoLoad(_) => LoadIsLocal(s, id, ok);
    case DoPin(_) => PinsAreLocal(s, id);
    case DoUnpin(_) => PinsAreLocal(s, id);
    case _ => TiersAreLocal(s, id, ok);
  }

  /** A call leaves every region but its subject alone. */
  lemma StepIsLocal(s: Sys, op: Op, ok: bool, id: u16)
    requires AllocsOk(s) && !op.DoCreate? && (Subject(s, op).Some? ==> id == Subject(s, op).value)
    ensures OnlySlot(s, Step(s, op, ok).0, id)
    ensures Subject(s, op).None? ==> Step(s, op, ok).0.regions == s.regions && Step(s, op, ok).0.store == s.store
  {
    if Tiers(op) { TierStepIsLocal(s, op, ok, id); }
  }

  lemma StepKeepsSound(s: Sys, op: Op, ok: bool)
    requires Sound(s)
    ensures Sound(Step(s, op, ok).0)
  {
    var t := Step(s, op, ok).0;
    if !op.DoCreate? {
      var id := if Subject(s, op).Some? then Subject(s, op).value else 0;
      StepIsLocal(s, op, ok, id);
      if Subject(s, op).Some? { SubjectKeepsAlloc(s, op, ok, id); OneAlloc(s, t, id); }
    }
  }

  lemma SubjectKeepsAlloc(s: Sys, op: Op, ok: bool, id: u16)
    requires Sound(s) && !op.DoCreate? && Subject(s, op) == Some(id)
    ensures var t := Step(s, op, ok).0; t.Lookup(id).Some? ==> AllocOk(t.Lookup(id).value.alloc, t.Lookup(id).value.capacity)
  {
    if Tiers(op) {
      TierStepIsLocal(s, op, ok, id);
    } else if s.Lookup(id).Some? {
      var r := s.Lookup(id).value;
      assert AllocOk(r.alloc, r.capacity);
      match op
      case DoAlloc(_, size, align) => AllocInOk(r.alloc, r.capacity, size, align);
      case DoCompact(_) => if CompactRegion(s, id).1.Ok? { CompactShape(r.alloc.live, r.memory.value.data, r.capacity); }
      case _ =>
    }
  }
}
