/**
 * The host in front of the directory: manager and byte calls with their invalidation discipline,
 * and the raw fast path that reads and writes through cached pointers. A pointer is the stamp of a
 * memory object; using it finds whichever live object carries the stamp, or nothing.
 */
module Host {
  import opened Core
  import opened Allocator
  import opened Compaction
  import opened Directory
  import opened Cache

  datatype Host = Host(sys: Sys, slots: Slots, backed: bool)

  /** The answer of a raw access; `Wild` is an access through a pointer to no live object, or past
      the end of the object it points to. */
  datatype Access = Answer(outcome: Outcome) | Wild

  // ---------------------------------------------------------------------------------------------
  // The raw path.
  // ---------------------------------------------------------------------------------------------

  /** Which region holds the object a pointer points to. */
  function Pointee(regions: seq<Option<Region>>, ptr: nat): (r: Option<nat>)
    ensures r.Some? ==> r.value < |regions| && Points(regions[r.value], ptr)
  {
    if regions == [] then None
    else if Points(regions[|regions| - 1], ptr) then Some(|regions| - 1)
    else Pointee(regions[..|regions| - 1], ptr)
  }

  predicate Points(slot: Option<Region>, ptr: nat) {
    slot.Some? && slot.value.memory.Some? && slot.value.memory.value.stamp == ptr
  }

  /** `lookup_fast`, then `refresh_cache` on a miss. */
  function FastSlot(x: Host, id: u16): (Host, Result<CacheSlot>) {
    if HoldsPointer(x.slots, id) then (x, Ok(x.slots[Index(id)]))
    else
      match x.sys.Lookup(id)
      case None => (x, Err(RegionNotFound(id)))
      case Some(r) =>
        if r.memory.None? then (x, Err(NotResident))
        else
          var ptr := r.memory.value.stamp;
          (x.(slots := Installed(x.slots, id, r, ptr)), Ok(SlotFor(id, r, ptr)))
  }

  function Admit(hit: CacheSlot, h: Handle, len: nat): Option<TvmError> {
    if hit.generation != h.generation then Some(StaleHandle)
    else if !hit.resident then Some(NotResident)
    else if h.offset + len > U32_MAX || h.offset + len > hit.capacity then Some(OutOfBounds)
    else None
  }

  function FastRead(x: Host, h: Handle, len: u32): (Host, Access) {
    var (y, hit) := FastSlot(x, h.regionId);
    if hit.Err? then (y, Answer(Err(hit.error)))
    else
      var refusal := Admit(hit.value, h, len);
      if refusal.Some? then (y, Answer(Err(refusal.value)))
      else
        var at := Pointee(y.sys.regions, hit.value.ptr);
        if at.None? || h.offset + len > |y.sys.regions[at.value].value.memory.value.data| then (y, Wild)
        else (y, Answer(Ok(Data(Slice(y.sys.regions[at.value].value.memory.value.data, h.offset, len)))))
  }

  function FastWrite(x: Host, h: Handle, data: bytes): (Host, Access) {
    var (y, hit) := FastSlot(x, h.regionId);
    if hit.Err? then (y, Answer(Err(hit.error)))
    else
      var refusal := Admit(hit.value, h, |data|);
      if refusal.Some? then (y, Answer(Err(refusal.value)))
      else
        var at := Pointee(y.sys.regions, hit.value.ptr);
        if at.None? || h.offset + |data| > |y.sys.regions[at.value].value.memory.value.data| then (y, Wild)
        else
          var r := y.sys.regions[at.value].value;
          var m := r.memory.value;
          var r' := r.(memory := Some(m.(data := Splice(m.data, h.offset, data))));
          (y.(sys := y.sys.(regions := y.sys.regions[at.value := Some(r')])), Answer(Ok(Done)))
  }

  /** Metadata through the cache. */
  function Resolve(x: Host, id: u16): (Host, Result<CacheSlot>) {
    if Holds(x.slots, id) then (x, Ok(x.slots[Index(id)]))
    else
      match x.sys.Lookup(id)
      case None => (x, Err(RegionNotFound(id)))
      case Some(r) => (x.(slots := Installed(x.slots, id, r, 0)), Ok(SlotFor(id, r, 0)))
  }

  // ---------------------------------------------------------------------------------------------
  // Manager and byte calls.
  // ---------------------------------------------------------------------------------------------

  datatype Call =
    | Manage(op: Op)
    | Copy(src: Handle, dst: Handle, len: u32)
    | CopyRegion(srcRegion: u16, srcOff: u32, dstRegion: u16, dstOff: u32, len: u32)
    | ReadInto(src: Handle, dstRegion: u16, dstOff: u32, len: u32)
    | WriteFrom(srcRegion: u16, srcOff: u32, dst: Handle, len: u32)
    | RawRead(h: Handle, len: u32)
    | RawWrite(h: Handle, data: bytes)
    | Metadata(id: u16)
    | Describe(id: u16)

  predicate ForSomeKind(policy: Policy) { exists kind: RegionKind :: policy == PolicyFor(kind) }

  /** Directory operations the host offers: fresh memory is zeroed and as long as the capacity, and
      placement follows the kind. */
  predicate Offered(c: Call) {
    c.Manage? ==>
      match c.op
      case DoCreate(policy, capacity, _, init) => init == Zeros(capacity) && ForSomeKind(policy)
      case DoEvict => false
      case DoBump(_) => false
      case _ => true
  }

  /** The slot a call invalidates before it touches the directory. */
  function Invalidates(op: Op): Option<u16> {
    match op
    case DoDestroy(id) => Some(id)
    case DoPromote(id) => Some(id)
    case DoDemote(id) => Some(id)
    case DoSpill(id) => Some(id)
    case DoLoad(id) => Some(id)
    case DoCompact(id) => Some(id)
    case _ => None
  }

  /** A directory call made by a host, with or without a backing store. */
  function Perform(s: Sys, op: Op, backed: bool, ok: bool): (Sys, Outcome)
    requires AllocsOk(s)
  {
    if backed then Step(s, op, ok)
    else
      match op
      case DoRead(h, len) => (s, Read(s, h, len))
      case DoWrite(h, data) => Write(s, h, data)
      case DoPromote(_) => (s, Err(BackingStore))
      case DoDemote(_) => (s, Err(BackingStore))
      case DoSpill(_) => (s, Err(BackingStore))
      case DoLoad(_) => (s, Err(BackingStore))
      case _ => Step(s, op, ok)
  }

  function HostStep(x: Host, c: Call, ok: bool): (Host, Access)
    requires AllocsOk(x.sys) && Offered(c)
  {
    match c
    case Manage(op) =>
      var slots := if Invalidates(op).Some? then Dropped(x.slots, Invalidates(op).value) else x.slots;
      var (t, o) := Perform(x.sys, op, x.backed, ok);
      (Host(t, slots, x.backed), Answer(o))
    case Copy(src, dst, len) =>
      var got := Read(x.sys, src, len);
      if got.Err? then (x, Answer(got))
      else
        var (t, o) := Write(x.sys, dst, got.value.data);
        (x.(sys := t), Answer(o))
    case CopyRegion(src, srcOff, dst, dstOff, len) =>
      var (t, o) := CrossRegionCopy(x.sys, src, srcOff, dst, dstOff, len);
      (x.(sys := t), Answer(o))
    case ReadInto(src, dst, dstOff, len) =>
      var (t, o) := Directory.ReadInto(x.sys, src, dst, dstOff, len);
      (x.(sys := t), Answer(o))
    case WriteFrom(src, srcOff, dst, len) =>
      var (t, o) := Directory.WriteFrom(x.sys, src, srcOff, dst, len);
      (x.(sys := t), Answer(o))
    case RawRead(h, len) => FastRead(x, h, len)
    case RawWrite(h, data) => FastWrite(x, h, data)
    case Metadata(id) =>
      var (y, r) := Resolve(x, id);
      (y, Answer(if r.Err? then Err(r.error) else Ok(Done)))
    case Describe(id) => (x, Answer(if x.sys.Lookup(id).None? then Err(RegionNotFound(id)) else Ok(Done)))
  }

  // ---------------------------------------------------------------------------------------------
  // Invariant.
  // ---------------------------------------------------------------------------------------------

  ghost predicate ObjectOk(r: Region, nextStamp: nat) {
    && AllocOk(r.alloc, r.capacity)
    && (r.memory.Some? ==>
      && r.residency != Cold
      && 0 < r.memory.value.stamp < nextStamp
      && |r.memory.value.data| == r.capacity)
  }

  /** Every resident object has its region's size, and no two share a stamp. */
  ghost predicate Objects(s: Sys)
    ensures Objects(s) ==> AllocsOk(s)
  {
    && |s.regions| <= U16_MAX + 1
    && 0 < s.nextStamp
    && (forall i :: 0 <= i < |s.regions| && s.regions[i].Some? ==> ObjectOk(s.regions[i].value, s.nextStamp))
    && (forall i, j :: 0 <= i < |s.regions| && 0 <= j < |s.regions| && i != j && Stamped(s, i) && Stamped(s, j) ==> StampAt(s, i) != StampAt(s, j))
  }

  predicate Stamped(s: Sys, i: nat) { i < |s.regions| && s.regions[i].Some? && s.regions[i].value.memory.Some? }

  function StampAt(s: Sys, i: nat): nat
    requires Stamped(s, i)
  {
    s.regions[i].value.memory.value.stamp
  }

  /** Every stored blob has the size of the region it belongs to. */
  ghost predicate Blobs(s: Sys) {
    forall k :: k in s.store ==> k.0 < |s.regions| && (s.regions[k.0].Some? ==> |s.store[k]| == s.regions[k.0].value.capacity)
  }

  /** A valid slot agrees with the directory; with a pointer, also on the memory object. */
  ghost predicate SlotOk(slot: CacheSlot, i: nat, s: Sys) {
    slot.valid ==>
      && Index(slot.regionId) == i
      && s.Lookup(slot.regionId).Some?
      && var r := s.Lookup(slot.regionId).value;
      && slot.generation == r.generation && slot.capacity == r.capacity
      && (slot.resident ==> r.residency != Cold)
      && (slot.ptr != 0 ==> slot.resident && r.memory.Some? && r.memory.value.stamp == slot.ptr)
  }

  ghost predicate Coherent(s: Sys, slots: Slots) { forall i :: 0 <= i < 8 ==> SlotOk(slots[i], i, s) }

  ghost predicate HostInv(x: Host)
    ensures HostInv(x) ==> AllocsOk(x.sys)
  {
    Objects(x.sys) && Blobs(x.sys) && Coherent(x.sys, x.slots)
  }

  // ---------------------------------------------------------------------------------------------
  // The fast path agrees with the directory.
  // ---------------------------------------------------------------------------------------------

  lemma {:induction false} PointeeIsOwner(regions: seq<Option<Region>>, id: nat, ptr: nat)
    requires id < |regions| && Points(regions[id], ptr)
    requires forall i :: 0 <= i < |regions| && i != id ==> !Points(regions[i], ptr)
    ensures Pointee(regions, ptr) == Some(id)
  {
    if id != |regions| - 1 { PointeeIsOwner(regions[..|regions| - 1], id, ptr); }
  }

  lemma OwnPointer(s: Sys, id: u16)
    requires Objects(s) && Stamped(s, id)
    ensures Pointee(s.regions, StampAt(s, id)) == Some(id)
  {
    forall i | 0 <= i < |s.regions| && i != id ensures !Points(s.regions[i], StampAt(s, id)) {
      if Stamped(s, i) { assert StampAt(s, i) != StampAt(s, id); }
    }
    PointeeIsOwner(s.regions, id, StampAt(s, id));
  }

  /** A hit or a refresh yields the directory's own metadata and the region's own object. */
  lemma FastSlotAgrees(x: Host, id: u16)
    requires HostInv(x)
    ensures var (y, hit) := FastSlot(x, id);
      && y.sys == x.sys && y.backed == x.backed && HostInv(y)
      && (hit.Err? <==> !Stamped(x.sys, id))
      && (hit.Ok? ==> hit.value == SlotFor(id, x.sys.regions[id].value, StampAt(x.sys, id)) && hit.value.resident)
      && (hit.Err? ==> hit.error == if x.sys.Lookup(id).None? then RegionNotFound(id) else NotResident)
  {
    if HoldsPointer(x.slots, id) {
      assert SlotOk(x.slots[Index(id)], Index(id), x.sys);
    } else if Stamped(x.sys, id) {
      assert ObjectOk(x.sys.regions[id].value, x.sys.nextStamp);
      forall i | 0 <= i < 8 ensures SlotOk(FastSlot(x, id).0.slots[i], i, x.sys) { assert SlotOk(x.slots[i], i, x.sys); }
    }
  }

  /** Errors agree except that a stale handle to a region with no memory is `NotResident` here. */
  predicate SameAnswer(strict: Outcome, raw: Outcome) {
    raw == strict || (strict == Err(StaleHandle) && raw == Err(NotResident))
  }

  /** `fast_read` never follows a wild pointer and answers as the strict read does. */
  lemma FastReadAgrees(x: Host, h: Handle, len: u32)
    requires HostInv(x)
    ensures var (y, a) := FastRead(x, h, len);
      && y.sys == x.sys && HostInv(y)
      && a.Answer? && SameAnswer(Read(x.sys, h, len), a.outcome)
  {
    FastSlotAgrees(x, h.regionId);
    if Stamped(x.sys, h.regionId) {
      OwnPointer(x.sys, h.regionId);
      assert ObjectOk(x.sys.regions[h.regionId].value, x.sys.nextStamp);
    }
  }

  /** `fast_write` leaves the directory exactly as the strict write does. */
  lemma FastWriteAgrees(x: Host, h: Handle, data: bytes)
    requires HostInv(x)
    ensures var (y, a) := FastWrite(x, h, data); var (t, o) := Write(x.sys, h, data);
      a.Answer? && SameAnswer(o, a.outcome) && y.sys == t
  {
    FastSlotAgrees(x, h.regionId);
    if Stamped(x.sys, h.regionId) {
      OwnPointer(x.sys, h.regionId);
      assert ObjectOk(x.sys.regions[h.regionId].value, x.sys.nextStamp);
    }
  }

  // ---------------------------------------------------------------------------------------------
  // Every call keeps the cache coherent.
  // ---------------------------------------------------------------------------------------------

  /** `t` is `s` with region `id` replaced by `r`, and newer stamps perhaps handed out. */
  ghost predicate Replaced(s: Sys, t: Sys, id: u16, r: Region) {
    id < |s.regions| && t.regions == s.regions[id := Some(r)] && t.nextStamp >= s.nextStamp
  }

  /** The region's object is the old one or a new one. */
  ghost predicate SameOrNewObject(s: Sys, id: u16, r: Region) {
    r.memory.Some? ==> (Stamped(s, id) && r.memory.value.stamp == StampAt(s, id)) || r.memory.value.stamp >= s.nextStamp
  }

  lemma ReplacedObjects(s: Sys, t: Sys, id: u16, r: Region)
    requires Objects(s) && Replaced(s, t, id, r) && ObjectOk(r, t.nextStamp) && SameOrNewObject(s, id, r)
    ensures Objects(t)
  {
    forall i | 0 <= i < |t.regions| && t.regions[i].Some? ensures ObjectOk(t.regions[i].value, t.nextStamp) {
      if i != id { assert ObjectOk(s.regions[i].value, s.nextStamp); }
    }
    forall i, j | 0 <= i < |t.regions| && 0 <= j < |t.regions| && i != j && Stamped(t, i) && Stamped(t, j)
      ensures StampAt(t, i) != StampAt(t, j)
    {
      if i != id { StampBound(s, i); assert StampAt(t, i) == StampAt(s, i); }
      if j != id { StampBound(s, j); assert StampAt(t, j) == StampAt(s, j); }
    }
  }

  lemma StampBound(s: Sys, i: nat)
    requires Objects(s) && Stamped(s, i)
    ensures 0 < StampAt(s, i) < s.nextStamp
  {
    assert ObjectOk(s.regions[i].value, s.nextStamp);
  }

  /** A slot that agreed with the old region agrees with the new one. */
  ghost predicate StillAgrees(was: Region, r: Region) {
    && r.generation == was.generation && r.capacity == was.capacity
    && (was.residency != Cold ==> r.residency != Cold)
    && (was.memory.Some? ==> r.memory.Some? && r.memory.value.stamp == was.memory.value.stamp)
  }

  lemma ReplacedSlots(s: Sys, t: Sys, id: u16, r: Region, slots: Slots)
    requires Coherent(s, slots) && Replaced(s, t, id, r) && s.regions[id].Some? && StillAgrees(s.regions[id].value, r)
    ensures Coherent(t, slots)
  {
    forall i | 0 <= i < 8 ensures SlotOk(slots[i], i, t) { assert SlotOk(slots[i], i, s); }
  }

  /** Once its slot is dropped, a region may change in any way. */
  lemma DroppedSlots(s: Sys, t: Sys, id: u16, slots: Slots)
    requires Coherent(s, slots) && |t.regions| == |s.regions|
    requires forall i :: 0 <= i < |s.regions| && i != id ==> t.regions[i] == s.regions[i]
    ensures Coherent(t, Dropped(slots, id))
  {
    forall i | 0 <= i < 8 ensures SlotOk(Dropped(slots, id)[i], i, t) { assert SlotOk(slots[i], i, s); }
  }

  /** A call that replaces region `id` in place: its slot either still agrees or was dropped. */
  lemma ReplacedKeeps(x: Host, t: Sys, id: u16, r: Region, slots: Slots)
    requires HostInv(x) && Replaced(x.sys, t, id, r) && t.store == x.sys.store && x.sys.regions[id].Some?
    requires ObjectOk(r, t.nextStamp) && SameOrNewObject(x.sys, id, r) && r.capacity == x.sys.regions[id].value.capacity
    requires slots == Dropped(x.slots, id) || (slots == x.slots && StillAgrees(x.sys.regions[id].value, r))
    ensures HostInv(x.(sys := t, slots := slots))
  {
    ReplacedObjects(x.sys, t, id, r);
    if slots == Dropped(x.slots, id) { DroppedSlots(x.sys, t, id, x.slots); } else { ReplacedSlots(x.sys, t, id, r, x.slots); }
  }

  lemma DropKeeps(x: Host, id: u16)
    requires HostInv(x)
    ensures HostInv(x.(slots := Dropped(x.slots, id)))
  {
    DroppedSlots(x.sys, x.sys, id, x.slots);
  }

  /** Changes outside regions and store do not matter. */
  lemma LruIrrelevant(x: Host, lru: seq<u16>)
    requires HostInv(x)
    ensures HostInv(x.(sys := x.sys.(lru := lru)))
  {
    forall i | 0 <= i < 8 ensures SlotOk(x.slots[i], i, x.sys.(lru := lru)) { assert SlotOk(x.slots[i], i, x.sys); }
    assert forall i :: Stamped(x.sys.(lru := lru), i) ==> Stamped(x.sys, i) && StampAt(x.sys.(lru := lru), i) == StampAt(x.sys, i);
  }

  lemma StoredKeeps(x: Host, id: u16, g: u16, data: bytes)
    requires HostInv(x) && x.sys.Lookup(id).Some? && |data| == x.sys.regions[id].value.capacity
    ensures HostInv(x.(sys := x.sys.(store := x.sys.store[(id, g) := data])))
  {
    var t := x.sys.(store := x.sys.store[(id, g) := data]);
    forall i | 0 <= i < 8 ensures SlotOk(x.slots[i], i, t) { assert SlotOk(x.slots[i], i, x.sys); }
    assert forall i :: Stamped(t, i) ==> Stamped(x.sys, i) && StampAt(t, i) == StampAt(x.sys, i);
  }

  lemma SpillKeeps(x: Host, id: u16, ok: bool)
    requires HostInv(x)
    ensures HostInv(x.(sys := SpillRegion(x.sys, id, ok).0, slots := Dropped(x.slots, id)))
  {
    DropKeeps(x, id);
    var y := x.(slots := Dropped(x.slots, id));
    var t := SpillRegion(x.sys, id, ok).0;
    if t != x.sys {
      var r := x.sys.regions[id].value;
      assert ObjectOk(r, x.sys.nextStamp);
      if ok {
        StoredKeeps(y, id, r.generation, r.memory.value.data);
        var z := y.(sys := y.sys.(store := t.store));
        LruIrrelevant(z, t.lru);
        DroppedTwice(x.slots, id);
        ReplacedKeeps(z.(sys := z.sys.(lru := t.lru)), t, id, r.(memory := None, residency := Cold), y.slots);
      } else {
        DroppedTwice(x.slots, id);
        ReplacedKeeps(y, t, id, r.(memory := None), y.slots);
      }
    }
  }

  lemma DroppedTwice(slots: Slots, id: u16)
    ensures Dropped(Dropped(slots, id), id) == Dropped(slots, id)
  {
  }

  /** A load that did not find the region already Hot installs a new object. A caller that drops no
      slot may load only a Cold region. */
  lemma LoadKeeps(x: Host, id: u16, ok: bool, slots: Slots)
    requires HostInv(x)
    requires slots == Dropped(x.slots, id) || (slots == x.slots && (x.sys.Lookup(id).Some? ==> x.sys.Lookup(id).value.residency == Cold))
    ensures HostInv(x.(sys := LoadRegion(x.sys, id, ok).0, slots := slots))
  {
    DropKeeps(x, id);
    var t := LoadRegion(x.sys, id, ok).0;
    if t != x.sys {
      var r := x.sys.regions[id].value;
      assert ObjectOk(r, x.sys.nextStamp);
      ReplacedKeeps(x, t, id, t.regions[id].value, slots);
    }
  }

  lemma PromoteKeeps(x: Host, id: u16, ok: bool)
    requires HostInv(x)
    ensures HostInv(x.(sys := PromoteRegion(x.sys, id, ok).0, slots := Dropped(x.slots, id)))
  {
    DropKeeps(x, id);
    LoadKeeps(x, id, ok, Dropped(x.slots, id));
    var t := PromoteRegion(x.sys, id, ok).0;
    if x.sys.Lookup(id).Some? && x.sys.Lookup(id).value.residency == Warm {
      assert ObjectOk(x.sys.regions[id].value, x.sys.nextStamp);
      ReplacedKeeps(x, t, id, t.regions[id].value, Dropped(x.slots, id));
    }
  }

  lemma DemoteKeeps(x: Host, id: u16, ok: bool)
    requires HostInv(x)
    ensures HostInv(x.(sys := DemoteRegion(x.sys, id, ok).0, slots := Dropped(x.slots, id)))
  {
    DropKeeps(x, id);
    SpillKeeps(x, id, ok);
    var t := DemoteRegion(x.sys, id, ok).0;
    if x.sys.Lookup(id).Some? {
      var r := x.sys.Lookup(id).value;
      if r.residency == Hot && !r.pinned && r.spillable {
        assert ObjectOk(r, x.sys.nextStamp);
        ReplacedKeeps(x, t, id, t.regions[id].value, Dropped(x.slots, id));
      }
    }
  }

  lemma DestroyKeeps(x: Host, id: u16)
    requires HostInv(x)
    ensures HostInv(x.(sys := DestroyRegion(x.sys, id).0, slots := Dropped(x.slots, id)))
  {
    var t := DestroyRegion(x.sys, id).0;
    DroppedSlots(x.sys, t, id, x.slots);
    forall i | 0 <= i < |t.regions| && t.regions[i].Some? ensures ObjectOk(t.regions[i].value, t.nextStamp) {
      assert ObjectOk(x.sys.regions[i].value, x.sys.nextStamp);
    }
    assert forall i :: Stamped(t, i) ==> Stamped(x.sys, i) && StampAt(t, i) == StampAt(x.sys, i);
  }

  lemma CompactKeeps(x: Host, id: u16)
    requires HostInv(x)
    ensures HostInv(x.(sys := CompactRegion(x.sys, id).0, slots := Dropped(x.slots, id)))
  {
    DropKeeps(x, id);
    var (t, o) := CompactRegion(x.sys, id);
    if o.Ok? {
      var r := x.sys.regions[id].value;
      assert ObjectOk(r, x.sys.nextStamp);
      CompactShape(r.alloc.live, r.memory.value.data, r.capacity);
      ReplacedKeeps(x, t, id, t.regions[id].value, Dropped(x.slots, id));
    }
  }

  lemma CreateKeeps(x: Host, policy: Policy, capacity: u32, ak: AllocatorKind)
    requires HostInv(x) && policy.initial != Cold
    ensures HostInv(x.(sys := CreateRegion(x.sys, policy, capacity, ak, Zeros(capacity)).0))
  {
    var t := CreateRegion(x.sys, policy, capacity, ak, Zeros(capacity)).0;
    if |x.sys.regions| <= U16_MAX {
      forall i | 0 <= i < |t.regions| && t.regions[i].Some? ensures ObjectOk(t.regions[i].value, t.nextStamp) {
        if i < |x.sys.regions| { assert ObjectOk(x.sys.regions[i].value, x.sys.nextStamp); }
      }
      forall i | 0 <= i < |x.sys.regions| && Stamped(t, i) ensures Stamped(x.sys, i) && StampAt(t, i) == StampAt(x.sys, i) < x.sys.nextStamp {
        StampBound(x.sys, i);
      }
      assert forall i: nat :: Stamped(t, i) && i >= |x.sys.regions| ==> StampAt(t, i) == x.sys.nextStamp && i == |x.sys.regions|;
      forall i | 0 <= i < 8 ensures SlotOk(x.slots[i], i, t) { assert SlotOk(x.slots[i], i, x.sys); }
      CreatedBlobs(x.sys, t);
    }
  }

  lemma CreatedBlobs(s: Sys, t: Sys)
    requires Blobs(s) && t.store == s.store && |t.regions| == |s.regions| + 1 && t.regions[..|s.regions|] == s.regions
    ensures Blobs(t)
  {
    forall k | k in t.store
      ensures k.0 < |t.regions| && (t.regions[k.0].Some? ==> |t.store[k]| == t.regions[k.0].value.capacity)
    {
      assert t.regions[..|s.regions|][k.0] == t.regions[k.0];
    }
  }

  /** Writing bytes keeps every object where it is. */
  lemma WriteKeeps(x: Host, h: Handle, data: bytes)
    requires HostInv(x)
    ensures HostInv(x.(sys := Write(x.sys, h, data).0))
  {
    var t := Write(x.sys, h, data).0;
    if t != x.sys {
      assert ObjectOk(x.sys.regions[h.regionId].value, x.sys.nextStamp);
      ReplacedKeeps(x, t, h.regionId, t.regions[h.regionId].value, x.slots);
    }
  }

  lemma CopyKeeps(x: Host, src: u16, srcOff: u32, dst: u16, dstOff: u32, len: u32)
    requires HostInv(x)
    ensures HostInv(x.(sys := CrossRegionCopy(x.sys, src, srcOff, dst, dstOff, len).0))
  {
    var a := x.sys.Lookup(src);
    var b := x.sys.Lookup(dst);
    if a.Some? && b.Some? {
      var got := Read(x.sys, Handle(src, a.value.generation, srcOff), len);
      if got.Ok? { WriteKeeps(x, Handle(dst, b.value.generation, dstOff), got.value.data); }
    }
  }

  /** An auto-fault installs a new object with no invalidation: no slot can point to a Cold region. */
  lemma FaultKeeps(x: Host, id: u16, ok: bool)
    requires HostInv(x)
    ensures HostInv(x.(sys := Fault(x.sys, id, ok).0))
  {
    if x.sys.Lookup(id).Some? && x.sys.Lookup(id).value.residency == Cold { LoadKeeps(x, id, ok, x.slots); }
  }

  lemma AllocKeeps(x: Host, id: u16, size: u32, align: u32)
    requires HostInv(x)
    ensures HostInv(x.(sys := AllocAligned(x.sys, id, size, align).0))
  {
    var (t, o) := AllocAligned(x.sys, id, size, align);
    if o.Ok? {
      var r := x.sys.regions[id].value;
      assert ObjectOk(r, x.sys.nextStamp);
      AllocInOk(r.alloc, r.capacity, size, align);
      ReplacedKeeps(x, t, id, t.regions[id].value, x.slots);
    }
  }

  lemma DeallocKeeps(x: Host, h: Handle)
    requires HostInv(x)
    ensures HostInv(x.(sys := Dealloc(x.sys, h).0))
  {
    var (t, o) := Dealloc(x.sys, h);
    if o.Ok? {
      assert ObjectOk(x.sys.regions[h.regionId].value, x.sys.nextStamp);
      ReplacedKeeps(x, t, h.regionId, t.regions[h.regionId].value, x.slots);
    }
  }

  lemma PinKeeps(x: Host, id: u16)
    requires HostInv(x)
    ensures HostInv(x.(sys := Pin(x.sys, id).0)) && HostInv(x.(sys := Unpin(x.sys, id).0))
  {
    if x.sys.Lookup(id).Some? {
      var r := x.sys.regions[id].value;
      assert ObjectOk(r, x.sys.nextStamp);
      ReplacedKeeps(x, Unpin(x.sys, id).0, id, r.(pinned := false), x.slots);
      if r.pinnable { ReplacedKeeps(x, Pin(x.sys, id).0, id, r.(pinned := true), x.slots); }
    }
  }

  /** Installing metadata without a pointer. */
  lemma ResolveKeeps(x: Host, id: u16)
    requires HostInv(x)
    ensures var (y, r) := Resolve(x, id); HostInv(y) && y.sys == x.sys
  {
    forall i | 0 <= i < 8 ensures SlotOk(Resolve(x, id).0.slots[i], i, x.sys) { assert SlotOk(x.slots[i], i, x.sys); }
  }

  lemma ManageKeeps(x: Host, op: Op, ok: bool)
    requires HostInv(x) && Offered(Manage(op))
    ensures HostInv(HostStep(x, Manage(op), ok).0)
  {
    if Invalidates(op).Some? { DropKeeps(x, Invalidates(op).value); }
    match op
    case DoCreate(policy, capacity, ak, init) => CreateKeeps(x, policy, capacity, ak);
    case DoDestroy(id) => DestroyKeeps(x, id);
    case DoAlloc(id, size, align) => AllocKeeps(x, id, size, align);
    case DoDealloc(h) => DeallocKeeps(x, h);
    case DoRead(h, len) => FaultKeeps(x, h.regionId, ok);
    case DoWrite(h, data) =>
      FaultKeeps(x, h.regionId, ok);
      WriteKeeps(x, h, data);
      WriteKeeps(x.(sys := Fault(x.sys, h.regionId, ok).0), h, data);
    case DoSpill(id) => SpillKeeps(x, id, ok);
    case DoLoad(id) => LoadKeeps(x, id, ok, Dropped(x.slots, id));
    case DoPromote(id) => PromoteKeeps(x, id, ok);
    case DoDemote(id) => DemoteKeeps(x, id, ok);
    case DoPin(id) => PinKeeps(x, id);
    case DoUnpin(id) => PinKeeps(x, id);
    case DoCompact(id) => CompactKeeps(x, id);
  }

  lemma HostStepKeeps(x: Host, c: Call, ok: bool)
    requires HostInv(x) && Offered(c)
    ensures HostInv(HostStep(x, c, ok).0)
  {
    match c
    case Manage(op) => ManageKeeps(x, op, ok);
    case Copy(src, dst, len) =>
      if Read(x.sys, src, len).Ok? { WriteKeeps(x, dst, Read(x.sys, src, len).value.data); }
    case CopyRegion(src, srcOff, dst, dstOff, len) => CopyKeeps(x, src, srcOff, dst, dstOff, len);
    case ReadInto(src, dst, dstOff, len) => CopyKeeps(x, src.regionId, src.offset, dst, dstOff, len);
    case WriteFrom(src, srcOff, dst, len) => CopyKeeps(x, src, srcOff, dst.regionId, dst.offset, len);
    case RawRead(h, len) => FastReadAgrees(x, h, len);
    case RawWrite(h, data) =>
      FastWriteAgrees(x, h, data);
      FastSlotAgrees(x, h.regionId);
      WriteKeeps(FastSlot(x, h.regionId).0, h, data);
    case Metadata(id) => ResolveKeeps(x, id);
    case Describe(_) =>
  }

  // ---------------------------------------------------------------------------------------------
  // Runs.
  // ---------------------------------------------------------------------------------------------

  /** A call and whether the store accepts what it asks of it. */
  datatype Event = Event(call: Call, ok: bool)

  /** At every point of the run the raw path answers every read and write as the directory does. */
  ghost predicate AlwaysAgrees(x: Host, events: seq<Event>)
    requires AllocsOk(x.sys) && forall e :: e in events ==> Offered(e.call)
    decreases events
  {
    && (forall h, len :: FastRead(x, h, len).1.Answer? && SameAnswer(Read(x.sys, h, len), FastRead(x, h, len).1.outcome))
    && (forall h, data ::
          && FastWrite(x, h, data).1.Answer? && SameAnswer(Write(x.sys, h, data).1, FastWrite(x, h, data).1.outcome)
          && FastWrite(x, h, data).0.sys == Write(x.sys, h, data).0)
    && (events != [] ==>
          assert events[0] in events;
          var y := HostStep(x, events[0].call, events[0].ok).0;
          AllocsOk(y.sys) && AlwaysAgrees(y, events[1..]))
  }

  /** Along every run of host calls, with auto-faults and with a store that may fail, the cache
      never serves a stale entry. */
  lemma {:induction false} CacheNeverDisagrees(x: Host, events: seq<Event>)
    requires HostInv(x) && forall e :: e in events ==> Offered(e.call)
    ensures AlwaysAgrees(x, events)
    decreases events
  {
    forall h, len ensures FastRead(x, h, len).1.Answer? && SameAnswer(Read(x.sys, h, len), FastRead(x, h, len).1.outcome) {
      FastReadAgrees(x, h, len);
    }
    forall h, data ensures
        && FastWrite(x, h, data).1.Answer? && SameAnswer(Write(x.sys, h, data).1, FastWrite(x, h, data).1.outcome)
        && FastWrite(x, h, data).0.sys == Write(x.sys, h, data).0
    {
      FastWriteAgrees(x, h, data);
    }
    if events != [] {
      assert events[0] in events;
      HostStepKeeps(x, events[0].call, events[0].ok);
      CacheNeverDisagrees(HostStep(x, events[0].call, events[0].ok).0, events[1..]);
    }
  }

  const NEW_HOST_SLOTS: Slots := seq(8, _ => EMPTY_SLOT)

  lemma NewHostInv(backed: bool)
    ensures HostInv(Host(Sys([], [], 1, map[]), NEW_HOST_SLOTS, backed))
  {
  }

  // ---------------------------------------------------------------------------------------------
  // Where coherence stops.
  // ---------------------------------------------------------------------------------------------

  /** `TvmSpill::spill` and `TvmSpill::load`: the directory call without the invalidation. */
  function RawSpill(x: Host, id: u16, ok: bool): Host { if x.backed then x.(sys := SpillRegion(x.sys, id, ok).0) else x }

  function RawLoad(x: Host, id: u16, ok: bool): Host { if x.backed then x.(sys := LoadRegion(x.sys, id, ok).0) else x }

  /** The object a region's memory is, if any. */
  function ObjectOf(s: Sys, id: u16): Option<nat> { if Stamped(s, id) then Some(StampAt(s, id)) else None }

  /** Before the call: will it drop or replace the memory object? A load does when the region is not
      Hot and the store has its bytes, a spill when it is admitted, even if the store then refuses. */
  predicate Replaces(x: Host, id: u16, ok: bool, load: bool) {
    x.backed && x.sys.Lookup(id).Some?
    && var r := x.sys.Lookup(id).value;
    if load then ok && r.residency != Hot && (id, r.generation) in x.sys.store else !r.pinned && r.spillable
  }

  lemma ReplacesObject(x: Host, id: u16, ok: bool, load: bool)
    requires HostInv(x) && HoldsPointer(x.slots, id)
    ensures var y := if load then RawLoad(x, id, ok) else RawSpill(x, id, ok);
      ObjectOf(y.sys, id) != ObjectOf(x.sys, id) <==> Replaces(x, id, ok, load)
  {
    assert SlotOk(x.slots[Index(id)], Index(id), x.sys);
    assert ObjectOk(x.sys.regions[id].value, x.sys.nextStamp);
  }

  /** Skipping the invalidation leaves a wild pointer exactly when the slot holds a pointer and the
      call is one that drops or replaces the object. */
  lemma BypassBreaksIff(x: Host, id: u16, ok: bool, load: bool)
    requires HostInv(x)
    ensures var y := if load then RawLoad(x, id, ok) else RawSpill(x, id, ok);
      (exists h: Handle, len: u32 :: h.regionId == id && FastRead(y, h, len).1.Wild?) <==>
      HoldsPointer(x.slots, id) && Replaces(x, id, ok, load)
  {
    var y := if load then RawLoad(x, id, ok) else RawSpill(x, id, ok);
    BypassShape(x, id, ok, load);
    if HoldsPointer(x.slots, id) {
      ReplacesObject(x, id, ok, load);
      assert SlotOk(x.slots[Index(id)], Index(id), x.sys);
      if ObjectOf(y.sys, id) != ObjectOf(x.sys, id) {
        LostPointer(x, y, id);
        var h := Handle(id, x.sys.regions[id].value.generation, 0);
        assert FastRead(y, h, 0).1.Wild?;
      } else {
        forall h: Handle, len: u32 | h.regionId == id ensures !FastRead(y, h, len).1.Wild? { HeldPointer(x, y, h, len); }
      }
    } else {
      forall h: Handle, len: u32 | h.regionId == id ensures !FastRead(y, h, len).1.Wild? { RefreshedPointer(y, h, len); }
    }
  }

  /** A run that leaves a wild pointer: create a Warm region, read it raw, spill it through the bypass,
      read it raw again. */
  lemma BypassLeavesWildPointer()
    ensures
      var x := Host(CreateRegion(Sys([], [], 1, map[]), PolicyFor(PageStore), 1, BumpKind, [5]).0, NEW_HOST_SLOTS, true);
      var h := Handle(0, 1, 0);
      var (y, a) := FastRead(x, h, 1);
      && a == Answer(Ok(Data([5])))
      && FastRead(RawSpill(y, 0, true), h, 1).1.Wild?
  {
    var x := Host(CreateRegion(Sys([], [], 1, map[]), PolicyFor(PageStore), 1, BumpKind, [5]).0, NEW_HOST_SLOTS, true);
    assert x.sys.regions[..0] == [];
    assert Slice([5], 0, 1) == [5];
    var (y, _) := FastRead(x, Handle(0, 1, 0), 1);
    assert HoldsPointer(y.slots, 0) && y.slots[0].ptr == 1;
    var z := RawSpill(y, 0, true);
    assert z.sys.regions[..0] == [];
  }

  lemma BypassShape(x: Host, id: u16, ok: bool, load: bool)
    requires HostInv(x)
    ensures var y := if load then RawLoad(x, id, ok) else RawSpill(x, id, ok);
      && y.slots == x.slots && Objects(y.sys) && |y.sys.regions| == |x.sys.regions|
      && (forall i :: 0 <= i < |x.sys.regions| && i != id ==> y.sys.regions[i] == x.sys.regions[i])
      && (Stamped(y.sys, id) ==> ObjectOf(y.sys, id) == ObjectOf(x.sys, id) || StampAt(y.sys, id) >= x.sys.nextStamp)
      && (Stamped(x.sys, id) ==> y.sys.Lookup(id).Some? && y.sys.regions[id].value.capacity == x.sys.regions[id].value.capacity)
  {
    if load { LoadKeeps(x, id, ok, Dropped(x.slots, id)); } else { SpillKeeps(x, id, ok); }
  }

  lemma LostPointer(x: Host, y: Host, id: u16)
    requires Objects(x.sys) && Objects(y.sys) && Stamped(x.sys, id) && |y.sys.regions| == |x.sys.regions|
    requires forall i :: 0 <= i < |x.sys.regions| && i != id ==> y.sys.regions[i] == x.sys.regions[i]
    requires !Stamped(y.sys, id) || StampAt(y.sys, id) >= x.sys.nextStamp
    ensures Pointee(y.sys.regions, StampAt(x.sys, id)).None?
  {
    StampBound(x.sys, id);
    forall i: nat | i < |y.sys.regions| ensures !Points(y.sys.regions[i], StampAt(x.sys, id)) {
      if i != id && Stamped(x.sys, i) { assert StampAt(x.sys, i) != StampAt(x.sys, id); }
    }
  }

  lemma HeldPointer(x: Host, y: Host, h: Handle, len: u32)
    requires HostInv(x) && Objects(y.sys) && y.slots == x.slots && HoldsPointer(x.slots, h.regionId)
    requires ObjectOf(y.sys, h.regionId) == ObjectOf(x.sys, h.regionId)
    requires y.sys.Lookup(h.regionId).Some? && x.sys.Lookup(h.regionId).Some?
    requires y.sys.regions[h.regionId].value.capacity == x.sys.regions[h.regionId].value.capacity
    ensures !FastRead(y, h, len).1.Wild?
  {
    assert SlotOk(x.slots[Index(h.regionId)], Index(h.regionId), x.sys);
    OwnPointer(y.sys, h.regionId);
    assert ObjectOk(y.sys.regions[h.regionId].value, y.sys.nextStamp);
  }

  lemma RefreshedPointer(y: Host, h: Handle, len: u32)
    requires Objects(y.sys) && !HoldsPointer(y.slots, h.regionId)
    ensures !FastRead(y, h, len).1.Wild?
  {
    if Stamped(y.sys, h.regionId) {
      OwnPointer(y.sys, h.regionId);
      assert ObjectOk(y.sys.regions[h.regionId].value, y.sys.nextStamp);
    }
  }

  /** `resolve` always gives the current generation and capacity; its residency flag errs on one
      side only, when a region installed while Cold has since been faulted in. */
  lemma ResolveSound(x: Host, id: u16)
    requires HostInv(x)
    ensures var (y, r) := Resolve(x, id);
      && (r.Err? <==> x.sys.Lookup(id).None?)
      && (r.Ok? ==>
        && r.value.generation == x.sys.Lookup(id).value.generation && r.value.capacity == x.sys.Lookup(id).value.capacity
        && (r.value.resident ==> x.sys.Lookup(id).value.residency != Cold))
  {
    if Holds(x.slots, id) { assert SlotOk(x.slots[Index(id)], Index(id), x.sys); }
  }
}
