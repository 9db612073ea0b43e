/**
 * A handle carried through a run. A caller who migrates its handle on every compaction owns its
 * block: it stays live with its size, and reading it yields its own bytes changed only by the
 * writes that overlap it, whatever tiering, allocation and compaction happen in between.
 */
module Handles {
  import opened Core
  import opened Allocator
  import opened Compaction
  import opened Directory
  import opened RegionRuns
  import opened Tiering

  /** The handle after a call: migrated by a compaction, renewed by a generation bump, gone once
      its block or region is. */
  function Carry(h: Handle, op: Op, outcome: Outcome): Option<Handle> {
    if outcome.Err? then Some(h)
    else
      match op
      case DoDestroy(id) => if id == h.regionId then None else Some(h)
      case DoDealloc(d) => if d.regionId == h.regionId && d.offset == h.offset then None else Some(h)
      case DoCompact(id) => if id == h.regionId && outcome.value.Remapped? then outcome.value.remap.Migrate(h) else Some(h)
      case DoBump(id) => if id == h.regionId && outcome.value.Bumped? then Some(h.(generation := outcome.value.generation)) else Some(h)
      case _ => Some(h)
  }

  /** The block's bytes after a call: a successful write changes what it overlaps. */
  function Overlay(content: bytes, h: Handle, op: Op, outcome: Outcome): (r: bytes)
    ensures |r| == |content|
  {
    match op
    case DoWrite(w, data) =>
      if outcome.Ok? && w.regionId == h.regionId then
        seq(|content|, k requires 0 <= k < |content| =>
          if w.offset <= h.offset + k < w.offset + |data| then data[h.offset + k - w.offset] else content[k])
      else content
    case _ => content
  }

  /** `h` names a live block holding `content`. */
  predicate Holds(f: Flat, h: Handle, content: bytes) {
    && At(f, h.regionId).Some?
    && var r := f[h.regionId].value;
    && r.generation == h.generation
    && r.alloc.Freelist? && h.offset in r.alloc.live && r.alloc.live[h.offset] == |content|
    && r.data.Some? && h.offset + |content| <= |r.data.value|
    && Slice(r.data.value, h.offset, |content|) == content
  }

  lemma CompactCarries(f: Flat, id: u16, h: Handle, content: bytes)
    requires FlatOk(f) && Holds(f, h, content) && At(f, id).Some? && CanCompact(f[id].value)
    ensures var (g, o) := FlatCompact(f, id); var h' := Carry(h, DoCompact(id), o);
      h'.Some? && Holds(g, h'.value, content)
  {
    if id == h.regionId {
      var r := f[id].value;
      MigratedBlock(r.alloc.live, r.data.value, r.capacity, h.offset);
    }
  }

  lemma WriteCarries(f: Flat, w: Handle, data: bytes, h: Handle, content: bytes)
    requires Holds(f, h, content)
    ensures var (g, o) := FlatWrite(f, w, data); Holds(g, h, Overlay(content, h, DoWrite(w, data), o))
  {
    var (g, o) := FlatWrite(f, w, data);
    var now := Overlay(content, h, DoWrite(w, data), o);
    if o.Ok? && w.regionId == h.regionId {
      var before := f[h.regionId].value.data.value;
      var after := g[h.regionId].value.data.value;
      forall k | 0 <= k < |content| ensures after[h.offset + k] == now[k] {
        assert Slice(before, h.offset, |content|)[k] == before[h.offset + k];
      }
      assert Slice(after, h.offset, |content|) == now;
    }
  }

  lemma AllocCarries(f: Flat, id: u16, size: u32, align: u32, h: Handle, content: bytes)
    requires FlatOk(f) && Holds(f, h, content)
    ensures Holds(FlatAlloc(f, id, size, align).0, h, content)
  {
    if id == h.regionId {
      var r := f[id].value;
      if FirstFit(r.alloc.live, r.capacity, size, align).Ok? {
        FirstFitKeepsLiveOk(r.alloc.live, r.capacity, size, align);
      }
    }
  }

  lemma DeallocCarries(f: Flat, d: Handle, h: Handle, content: bytes)
    requires Holds(f, h, content)
    ensures var (g, o) := FlatDealloc(f, d); var h' := Carry(h, DoDealloc(d), o);
      h'.Some? ==> h' == Some(h) && Holds(g, h, content)
  {
  }

  lemma FlatStepCarries(f: Flat, op: Op, outcome: Outcome, h: Handle, content: bytes)
    requires FlatOk(f) && Holds(f, h, content)
    requires Observed(op, outcome) && Named(op) == Some(h.regionId) && outcome != Err(BackingStore) ==> outcome == FlatStep(f, op, outcome).1
    ensures var g := Follow(f, op, outcome); var h' := Carry(h, op, outcome);
      h'.Some? ==> Holds(g, h'.value, Overlay(content, h, op, outcome))
  {
    if outcome != Err(BackingStore) {
      match op
      case DoWrite(w, data) => WriteCarries(f, w, data, h, content);
      case DoAlloc(id, size, align) => AllocCarries(f, id, size, align, h, content);
      case DoDealloc(d) => DeallocCarries(f, d, h, content);
      case DoCompact(id) => if At(f, id).Some? && CanCompact(f[id].value) { CompactCarries(f, id, h, content); }
      case _ =>
    }
  }

  /** A successful allocation from a free list yields a handle that holds its block. */
  lemma AllocYieldsHolder(s: Sys, id: u16, size: u32, align: u32)
    requires Sound(s)
    ensures var (t, o) := AllocAligned(s, id, size, align);
      o.Ok? && s.Lookup(id).value.alloc.Freelist? ==>
        && o.value.Allocated? && Sound(t)
        && var h := o.value.handle; var f := Abs(t);
        && At(f, id).Some? && h.regionId == id && h.offset + size <= s.Lookup(id).value.capacity
        && (forall data :: At(f, id).value.data == Some(data) && h.offset + size <= |data| ==> Holds(f, h, Slice(data, h.offset, size)))
  {
    StepKeepsSound(s, DoAlloc(id, size, align), true);
    if s.Lookup(id).Some? { AllocInOk(s.Lookup(id).value.alloc, s.Lookup(id).value.capacity, size, align); }
    AbsAt(AllocAligned(s, id, size, align).0, id);
  }

  /** At every point of the run the carried handle reads exactly the carried bytes. */
  ghost predicate Carried(s: Sys, run: seq<Request>, h: Handle, content: bytes)
    requires Sound(s)
    decreases run
  {
    run != [] ==>
      var (t, o) := Step(s, run[0].op, run[0].ok);
      var now := Overlay(content, h, run[0].op, o);
      match Carry(h, run[0].op, o)
      case None => true
      case Some(k) =>
        && Sound(t) && Holds(Abs(t), k, now)
        && ReadOrFault(t, k, |now|, true).1 == Ok(Data(now))
        && Carried(t, run[1..], k, now)
  }

  lemma HeldBlockReads(s: Sys, h: Handle, content: bytes)
    requires Kept(s, h.regionId) && Holds(Abs(s), h, content)
    ensures ReadOrFault(s, h, |content|, true).1 == Ok(Data(content))
  {
    var q := Request(DoRead(h, |content|), true);
    StepRefinesAt(s, q, h.regionId);
    var r := Abs(s)[h.regionId].value;
    assert AllocOk(r.alloc, r.capacity);
  }

  /** Along every run that does no harm to its region a migrated handle keeps its block, whatever is done
      to other regions and whatever the store refuses them. */
  lemma {:induction false} HandleKeepsItsBlock(s: Sys, run: seq<Request>, h: Handle, content: bytes)
    requires Kept(s, h.regionId) && HarmlessRunAt(s, run, h.regionId) && Holds(Abs(s), h, content)
    ensures Carried(s, run, h, content)
    decreases run
  {
    if run != [] {
      var (t, o) := Step(s, run[0].op, run[0].ok);
      StepCarries(s, run[0], h, content);
      var k := Carry(h, run[0].op, o);
      if k.Some? {
        var now := Overlay(content, h, run[0].op, o);
        HeldBlockReads(t, k.value, now);
        HandleKeepsItsBlock(t, run[1..], k.value, now);
      }
    }
  }

  lemma StepCarries(s: Sys, q: Request, h: Handle, content: bytes)
    requires Kept(s, h.regionId) && HarmlessAt(s, q.op, q.ok, h.regionId) && Holds(Abs(s), h, content)
    ensures var (t, o) := Step(s, q.op, q.ok); var k := Carry(h, q.op, o);
      Kept(t, h.regionId) && (k.Some? ==> k.value.regionId == h.regionId && Holds(Abs(t), k.value, Overlay(content, h, q.op, o)))
  {
    var o := Step(s, q.op, q.ok).1;
    StepRefinesAt(s, q, h.regionId);
    if Named(q.op) == Some(h.regionId) { NamedIsSubject(s, q.op, h.regionId); }
    CarryStays(h, q.op, o);
    FlatStepCarries(Abs(s), q.op, o, h, content);
  }

  lemma NamedIsSubject(s: Sys, op: Op, id: u16)
    requires Named(op) == Some(id)
    ensures Subject(s, op) == Some(id)
  {
  }

  lemma CarryStays(h: Handle, op: Op, o: Outcome)
    ensures Carry(h, op, o).Some? ==> Carry(h, op, o).value.regionId == h.regionId
  {
  }

  // ---------------------------------------------------------------------------------------------
  // Stale handles. Nothing is asked of the regions but sound allocators, and nothing of the store.
  // ---------------------------------------------------------------------------------------------

  /** A faulting access through a stale handle may load the region and then fails; when the load does,
      with the store's error. */
  function Faulted(s: Sys, h: Handle, ok: bool): (Sys, Outcome) {
    var (t, o) := Fault(s, h.regionId, ok);
    (t, if o.Err? then o else Err(StaleHandle))
  }

  /** Every access through `h` is refused and none writes: as stale, except where a fault fails. */
  ghost predicate Refuses(s: Sys, h: Handle) {
    && (forall len: u32 :: Read(s, h, len) == Err(StaleHandle))
    && (forall data: bytes :: Write(s, h, data) == (s, Err(StaleHandle)))
    && Dealloc(s, h) == (s, Err(StaleHandle))
    && (forall len: u32, ok: bool :: ReadOrFault(s, h, len, ok) == Faulted(s, h, ok))
    && (forall data: bytes, ok: bool :: WriteOrFault(s, h, data, ok) == Faulted(s, h, ok))
    && (forall dst: u16, off: u32, len: u32 :: ReadInto(s, h, dst, off, len) == (s, Err(StaleHandle)))
    && (forall src: u16, off: u32, len: u32 :: WriteFrom(s, src, off, h, len) == (s, Err(StaleHandle)))
  }

  lemma FaultKeepsGeneration(s: Sys, id: u16, ok: bool)
    requires s.Lookup(id).Some?
    ensures var t := Fault(s, id, ok).0; t.Lookup(id).Some? && t.Lookup(id).value.generation == s.Lookup(id).value.generation
  {
  }

  /** A handle whose generation is not the region's is refused by every access. */
  lemma StaleHandleRefused(s: Sys, h: Handle)
    requires s.Lookup(h.regionId).Some? && s.Lookup(h.regionId).value.generation != h.generation
    ensures Refuses(s, h)
  {
    FaultKeepsGeneration(s, h.regionId, true);
    FaultKeepsGeneration(s, h.regionId, false);
    forall len: u32, ok: bool ensures ReadOrFault(s, h, len, ok) == Faulted(s, h, ok) { FaultKeepsGeneration(s, h.regionId, ok); }
    forall data: bytes, ok: bool ensures WriteOrFault(s, h, data, ok) == Faulted(s, h, ok) { FaultKeepsGeneration(s, h.regionId, ok); }
  }

  lemma RefusesIff(s: Sys, h: Handle)
    requires s.Lookup(h.regionId).Some?
    ensures Refuses(s, h) <==> s.Lookup(h.regionId).value.generation != h.generation
  {
    if s.Lookup(h.regionId).value.generation != h.generation { StaleHandleRefused(s, h); }
    else { assert Read(s, h, 0) != Err(StaleHandle); }
  }

  /** The region is gone, and its id is never given out again. */
  ghost predicate Missing(s: Sys, h: Handle) {
    && h.regionId < |s.regions| && s.Lookup(h.regionId).None?
    && var gone := Err(RegionNotFound(h.regionId));
    && (forall len: u32 :: Read(s, h, len) == gone)
    && (forall data: bytes :: Write(s, h, data) == (s, gone))
    && Dealloc(s, h) == (s, gone)
    && (forall len: u32, ok: bool :: ReadOrFault(s, h, len, ok) == (s, gone))
    && (forall data: bytes, ok: bool :: WriteOrFault(s, h, data, ok) == (s, gone))
  }

  /** The calls that give region `id` its next generation. */
  predicate Renews(op: Op, outcome: Outcome, id: u16) { outcome.Ok? && (op == DoCompact(id) || op == DoBump(id)) }

  /** Generations change by compactions and bumps of the region alone. */
  lemma StepGeneration(s: Sys, op: Op, ok: bool, id: u16)
    requires Sound(s) && s.Lookup(id).Some? && op != DoDestroy(id)
    ensures var (t, o) := Step(s, op, ok); var g := s.Lookup(id).value.generation;
      && t.Lookup(id).Some?
      && t.Lookup(id).value.generation == if Renews(op, o, id) then NextGeneration(g) else g
  {
    if !op.DoCreate? {
      if Subject(s, op) != Some(id) {
        StepIsLocal(s, op, ok, if Subject(s, op).Some? then Subject(s, op).value else if id == 0 then 1 else 0);
      } else if Tiers(op) {
        TierStepIsLocal(s, op, ok, id);
      }
    }
  }

  /** A slot once emptied stays empty. */
  lemma StepMissing(s: Sys, op: Op, ok: bool, id: u16)
    requires Sound(s) && id < |s.regions| && s.Lookup(id).None?
    ensures var t := Step(s, op, ok).0; id < |t.regions| && t.Lookup(id).None?
  {
    if !op.DoCreate? {
      if Subject(s, op) != Some(id) {
        StepIsLocal(s, op, ok, if Subject(s, op).Some? then Subject(s, op).value else if id == 0 then 1 else 0);
      } else if Tiers(op) {
        TierStepIsLocal(s, op, ok, id);
      }
    }
  }

  /** At every point of the run: as long as the region exists its generation is that many steps past the
      handle's, and the handle is refused exactly when that number is no multiple of 65535; afterwards
      nothing is found. */
  ghost predicate StaleAlong(s: Sys, run: seq<Request>, h: Handle, renewals: nat)
    requires Sound(s)
    decreases run
  {
    && (match s.Lookup(h.regionId)
        case None => Missing(s, h)
        case Some(r) => r.generation == GenerationAfter(h.generation, renewals) && (Refuses(s, h) <==> renewals % 65535 != 0))
    && (run != [] ==>
      var (t, o) := Step(s, run[0].op, run[0].ok);
      Sound(t) && StaleAlong(t, run[1..], h, if Renews(run[0].op, o, h.regionId) then renewals + 1 else renewals))
  }

  /** Along every run with any store an old handle is refused by every access from the first compaction or
      bump of its region up to the 65534th, whatever else happens in between; the 65535th brings its
      generation back. */
  lemma {:induction false} OldHandleStale(s: Sys, run: seq<Request>, h: Handle, renewals: nat)
    requires Sound(s) && h.regionId < |s.regions| && h.generation != 0
    requires s.Lookup(h.regionId).Some? ==> s.Lookup(h.regionId).value.generation == GenerationAfter(h.generation, renewals)
    ensures StaleAlong(s, run, h, renewals)
    decreases run
  {
    if s.Lookup(h.regionId).Some? {
      RefusesIff(s, h);
      GenerationCycle(h.generation, renewals);
    }
    if run != [] {
      var (t, o) := Step(s, run[0].op, run[0].ok);
      StepKeepsSound(s, run[0].op, run[0].ok);
      OldHandleStep(s, run[0], h.regionId);
      OldHandleStale(t, run[1..], h, if Renews(run[0].op, o, h.regionId) then renewals + 1 else renewals);
    }
  }

  /** What the run theorem needs of one call. */
  lemma OldHandleStep(s: Sys, q: Request, id: u16)
    requires Sound(s) && id < |s.regions|
    ensures var (t, o) := Step(s, q.op, q.ok);
      && id < |t.regions|
      && (t.Lookup(id).Some? ==>
          && s.Lookup(id).Some?
          && var g := s.Lookup(id).value.generation;
             t.Lookup(id).value.generation == if Renews(q.op, o, id) then NextGeneration(g) else g)
  {
    if s.Lookup(id).None? { StepMissing(s, q.op, q.ok, id); }
    else if q.op != DoDestroy(id) { StepGeneration(s, q.op, q.ok, id); }
  }
}
