/** The direct-mapped resolve cache: eight slots, one per residue of the region id. */
module Cache {
  import opened Bits
  import opened Core
  import opened Directory

  const CACHE_SLOTS := 8

  /** `ptr` is the stamp of the cached memory object; 0 is the null pointer. */
  datatype CacheSlot = CacheSlot(valid: bool, regionId: u16, generation: u16, capacity: u32, resident: bool, ptr: nat)

  const EMPTY_SLOT := CacheSlot(false, 0, 0, 0, false, 0)

  type Slots = s: seq<CacheSlot> | |s| == 8 witness seq(8, _ => EMPTY_SLOT)

  function Index(id: u16): (i: nat)
    ensures i < 8
  {
    id % 8
  }

  predicate Holds(slots: Slots, id: u16) { slots[Index(id)].valid && slots[Index(id)].regionId == id }

  predicate HoldsPointer(slots: Slots, id: u16) { Holds(slots, id) && slots[Index(id)].ptr != 0 }

  /** The slots once `id` is invalidated. */
  function Dropped(slots: Slots, id: u16): Slots {
    if Holds(slots, id) then slots[Index(id) := slots[Index(id)].(valid := false)] else slots
  }

  function SlotFor(id: u16, r: Region, ptr: nat): CacheSlot {
    CacheSlot(true, id, r.generation, r.capacity, r.residency != Cold, ptr)
  }

  function Installed(slots: Slots, id: u16, r: Region, ptr: nat): Slots {
    slots[Index(id) := SlotFor(id, r, ptr)]
  }

  class ResolveCache {
    const slots: array<CacheSlot>
    var hits: nat
    var misses: nat
    var invalidations: nat

    ghost predicate Valid() { slots.Length == CACHE_SLOTS }

    constructor ()
      ensures Valid() && fresh(slots) && slots[..] == seq(8, _ => EMPTY_SLOT)
      ensures hits == 0 && misses == 0 && invalidations == 0
    {
      slots := new CacheSlot[8](_ => EMPTY_SLOT);
      hits, misses, invalidations := 0, 0, 0;
    }

    /** Only a slot that holds this id is a hit; the slots are not touched. */
    method Lookup(id: u16) returns (r: Option<CacheSlot>)
      requires Valid()
      modifies this
      ensures r == if Holds(slots[..], id) then Some(slots[Index(id)]) else None
      ensures hits == old(hits) + (if r.Some? then 1 else 0) && misses == old(misses) + (if r.None? then 1 else 0)
      ensures invalidations == old(invalidations)
    {
      var slot := slots[id % 8];
      if slot.valid && slot.regionId == id {
        hits := hits + 1;
        return Some(slot);
      } else {
        misses := misses + 1;
        return None;
      }
    }

    /** Only a slot that holds this id and a pointer is a hit. */
    method LookupFast(id: u16) returns (r: Option<CacheSlot>)
      requires Valid()
      modifies this
      ensures r == if HoldsPointer(slots[..], id) then Some(slots[Index(id)]) else None
      ensures hits == old(hits) + (if r.Some? then 1 else 0) && misses == old(misses) + (if r.None? then 1 else 0)
      ensures invalidations == old(invalidations)
    {
      var slot := slots[id % 8];
      if slot.valid && slot.regionId == id && slot.ptr != 0 {
        hits := hits + 1;
        return Some(slot);
      } else {
        misses := misses + 1;
        return None;
      }
    }

    method Install(id: u16, r: Region, ptr: nat) returns (slot: CacheSlot)
      requires Valid()
      modifies slots
      ensures slots[..] == Installed(old(slots[..]), id, r, ptr) && slot == SlotFor(id, r, ptr)
    {
      slot := CacheSlot(true, id, r.generation, r.capacity, r.residency != Cold, ptr);
      slots[id % 8] := slot;
    }

    method Invalidate(id: u16)
      requires Valid()
      modifies this, slots
      ensures slots[..] == Dropped(old(slots[..]), id)
      ensures invalidations == old(invalidations) + (if old(Holds(slots[..], id)) then 1 else 0)
      ensures hits == old(hits) && misses == old(misses)
    {
      var idx := id % 8;
      if slots[idx].valid && slots[idx].regionId == id {
        slots[idx] := slots[idx].(valid := false);
        invalidations := invalidations + 1;
      }
    }

    method InvalidateAll()
      requires Valid()
      modifies this, slots
      ensures forall id :: !Holds(slots[..], id)
      ensures hits == old(hits) && misses == old(misses)
    {
      var i := 0;
      while i < slots.Length
        invariant 0 <= i <= slots.Length
        invariant forall k :: 0 <= k < i ==> !slots[k].valid
        invariant hits == old(hits) && misses == old(misses)
      {
        if slots[i].valid {
          invalidations := invalidations + 1;
          slots[i] := slots[i].(valid := false);
        }
        i := i + 1;
      }
    }
  }

  /** The slot index is the id masked with `CACHE_MASK`. */
  lemma IndexIsMask(id: u16)
    ensures BitAnd(id, CACHE_SLOTS - 1) == Index(id)
  {
    assert BitAnd(id / 8, 0) == 0;
    assert BitAnd(id / 4, 1) == id / 4 % 2;
    assert BitAnd(id / 2, 3) == 2 * BitAnd(id / 4, 1) + id / 2 % 2;
    assert BitAnd(id, 7) == 2 * BitAnd(id / 2, 3) + id % 2;
  }

  /** Two ids compete for a slot exactly when they agree in the low three bits; installing one
      evicts the other and leaves every other id alone. */
  lemma InstallEvicts(slots: Slots, id: u16, r: Region, ptr: nat, other: u16)
    ensures Holds(Installed(slots, id, r, ptr), other) <==>
      other == id || (Holds(slots, other) && other % 8 != id % 8)
  {
  }

  /** Invalidating an id makes exactly that id a miss. */
  lemma DroppedMisses(slots: Slots, id: u16, other: u16)
    ensures Holds(Dropped(slots, id), other) <==> Holds(slots, other) && other != id
  {
  }
}
