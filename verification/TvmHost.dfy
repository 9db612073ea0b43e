/** The host as the object whose calls change the cache and the directory in place. */
module TvmHost {
  import opened Core
  import opened Directory
  import opened Cache
  import opened H = Host
  import D = RegionDirectory

  class TvmHost {
    const directory: D.RegionDirectory
    const cache: ResolveCache
    const store: D.BackingStore
    const backed: bool

    ghost predicate Valid()
      reads this
    {
      cache.Valid()
    }

    ghost function View(): H.Host
      requires Valid()
      reads this, directory, store, cache.slots
    {
      H.Host.Host(directory.State(store), cache.slots[..], backed)
    }

    constructor (backed: bool)
      ensures Valid() && View() == H.Host.Host(Sys([], [], 1, map[]), NEW_HOST_SLOTS, backed)
      ensures fresh(directory) && fresh(cache) && fresh(store) && fresh(cache.slots)
    {
      var empty := new D.BackingStore();
      store := empty;
      directory := new D.RegionDirectory(empty);
      cache := new ResolveCache();
      this.backed := backed;
    }

    // ----- the raw path -----

    method RefreshCache(id: u16) returns (r: Result<CacheSlot>)
      requires Valid() && !HoldsPointer(cache.slots[..], id)
      modifies cache.slots
      ensures (View(), r) == FastSlot(old(View()), id)
    {
      var info := directory.Entry(id);
      if info.None? { return Err(RegionNotFound(id)); }
      if info.value.memory.None? { return Err(NotResident); }
      var slot := cache.Install(id, info.value, info.value.memory.value.stamp);
      return Ok(slot);
    }

    method HitOrRefresh(id: u16) returns (r: Result<CacheSlot>)
      requires Valid()
      modifies cache, cache.slots
      ensures (View(), r) == FastSlot(old(View()), id)
    {
      var hit := cache.LookupFast(id);
      if hit.Some? { return Ok(hit.value); }
      r := RefreshCache(id);
    }

    method FastRead(h: Handle, len: u32) returns (a: Access)
      requires Valid()
      modifies cache, cache.slots
      ensures (View(), a) == H.FastRead(old(View()), h, len)
    {
      var hit := HitOrRefresh(h.regionId);
      if hit.Err? { return Answer(Err(hit.error)); }
      if hit.value.generation != h.generation { return Answer(Err(StaleHandle)); }
      if !hit.value.resident { return Answer(Err(NotResident)); }
      var end := h.offset + len;
      if end > U32_MAX || end > hit.value.capacity { return Answer(Err(OutOfBounds)); }
      var at := Pointee(directory.regions, hit.value.ptr);
      if at.None? { return Wild; }
      var target := directory.regions[at.value].value.memory.value.data;
      if end > |target| { return Wild; }
      return Answer(Ok(Data(target[h.offset..end])));
    }

    method FastWrite(h: Handle, data: bytes) returns (a: Access)
      requires Valid()
      modifies cache, cache.slots, directory
      ensures (View(), a) == H.FastWrite(old(View()), h, data)
    {
      var hit := HitOrRefresh(h.regionId);
      if hit.Err? { return Answer(Err(hit.error)); }
      if hit.value.generation != h.generation { return Answer(Err(StaleHandle)); }
      if !hit.value.resident { return Answer(Err(NotResident)); }
      var end := h.offset + |data|;
      if end > U32_MAX || end > hit.value.capacity { return Answer(Err(OutOfBounds)); }
      var at := Pointee(directory.regions, hit.value.ptr);
      if at.None? { return Wild; }
      var r := directory.regions[at.value].value;
      var target := r.memory.value;
      if end > |target.data| { return Wild; }
      var updated := target.data[..h.offset] + data + target.data[end..];
      directory.regions := directory.regions[at.value := Some(r.(memory := Some(target.(data := updated))))];
      return Answer(Ok(Done));
    }

    method Resolve(id: u16) returns (r: Result<CacheSlot>)
      requires Valid()
      modifies cache, cache.slots
      ensures (View(), r) == H.Resolve(old(View()), id)
    {
      var hit := cache.Lookup(id);
      if hit.Some? { return Ok(hit.value); }
      var info := directory.Entry(id);
      if info.None? { return Err(RegionNotFound(id)); }
      var slot := cache.Install(id, info.value, 0);
      return Ok(slot);
    }

    // ----- manager calls: invalidate, then change -----

    method DestroyRegion(id: u16) returns (r: Outcome)
      requires Valid() && AllocsOk(directory.State(store))
      modifies cache, cache.slots, directory
      ensures (View(), Answer(r)) == HostStep(old(View()), Manage(DoDestroy(id)), true)
    {
      cache.Invalidate(id);
      r := directory.DestroyRegion(id, store);
    }

    method PromoteRegion(id: u16, answers: bool) returns (r: Outcome)
      requires Valid() && AllocsOk(directory.State(store))
      modifies cache, cache.slots, directory
      ensures (View(), Answer(r)) == HostStep(old(View()), Manage(DoPromote(id)), answers)
    {
      cache.Invalidate(id);
      if !backed { return Err(BackingStore); }
      r := directory.PromoteRegion(id, store, answers);
    }

    method DemoteRegion(id: u16, accepts: bool) returns (r: Outcome)
      requires Valid() && AllocsOk(directory.State(store))
      modifies cache, cache.slots, directory, store
      ensures (View(), Answer(r)) == HostStep(old(View()), Manage(DoDemote(id)), accepts)
    {
      cache.Invalidate(id);
      if !backed { return Err(BackingStore); }
      r := directory.DemoteRegion(id, store, accepts);
    }

    method SpillRegion(id: u16, accepts: bool) returns (r: Outcome)
      requires Valid() && AllocsOk(directory.State(store))
      modifies cache, cache.slots, directory, store
      ensures (View(), Answer(r)) == HostStep(old(View()), Manage(DoSpill(id)), accepts)
    {
      cache.Invalidate(id);
      if !backed { return Err(BackingStore); }
      r := directory.SpillRegion(id, store, accepts);
    }

    method LoadRegion(id: u16, answers: bool) returns (r: Outcome)
      requires Valid() && AllocsOk(directory.State(store))
      modifies cache, cache.slots, directory
      ensures (View(), Answer(r)) == HostStep(old(View()), Manage(DoLoad(id)), answers)
    {
      cache.Invalidate(id);
      if !backed { return Err(BackingStore); }
      r := directory.LoadRegion(id, store, answers);
    }

    method CompactRegion(id: u16) returns (r: Outcome)
      requires Valid() && AllocsOk(directory.State(store))
      modifies cache, cache.slots, directory
      ensures (View(), Answer(r)) == HostStep(old(View()), Manage(DoCompact(id)), true)
    {
      cache.Invalidate(id);
      r := directory.CompactRegion(id, store);
    }

    // ----- byte calls: no invalidation, even when they fault a region in -----

    method ReadBytes(h: Handle, len: u32, answers: bool) returns (r: Outcome)
      requires Valid() && AllocsOk(directory.State(store))
      modifies directory
      ensures (View(), Answer(r)) == HostStep(old(View()), Manage(DoRead(h, len)), answers)
    {
      if backed { r := directory.ReadOrFault(h, len, store, answers); } else { r := directory.Read(h, len, store); }
    }

    method WriteBytes(h: Handle, data: bytes, answers: bool) returns (r: Outcome)
      requires Valid() && AllocsOk(directory.State(store))
      modifies directory
      ensures (View(), Answer(r)) == HostStep(old(View()), Manage(DoWrite(h, data)), answers)
    {
      if backed { r := directory.WriteOrFault(h, data, store, answers); } else { r := directory.Write(h, data, store); }
    }
  }
}
