/**
 * One region among others in any state: what happens to its bytes depends on the calls about it alone,
 * and they agree with the flat machine until a call does harm to this region.
 */
module RegionRuns {
  import opened Core
  import opened Allocator
  import opened Compaction
  import opened Directory
  import opened Tiering

  /** Region `id`, if it exists, has its bytes where they belong; the others need only their allocators. */
  ghost predicate Kept(s: Sys, id: u16) {
    Sound(s) && (s.Lookup(id).Some? ==> RegionOk(s.Lookup(id).value, id, s.store))
  }

  /** A call that would take the region's memory and hand its bytes to the store. */
  predicate Surrenders(s: Sys, op: Op, id: u16) {
    && (op == DoSpill(id) || op == DoDemote(id) || op == DoEvict)
    && s.Lookup(id).Some?
    && var r := s.Lookup(id).value;
       !r.pinned && r.spillable && r.residency != Cold && (op == DoDemote(id) ==> r.residency == Warm)
  }

  /** Calls that do no harm to region `id`: what `Tiering.Harmless` demands of calls about it, and no
      surrender of its bytes to a store that refuses them. */
  predicate HarmlessAt(s: Sys, op: Op, ok: bool, id: u16) {
    && (op.DoCreate? && |s.regions| == id ==> Harmless(s, op))
    && (Subject(s, op) == Some(id) ==> Harmless(s, op) && (ok || !Surrenders(s, op, id)))
  }

  /** The flat machine, which leaves out what the store refuses. */
  function Follow(f: Flat, op: Op, o: Outcome): Flat
    requires FlatOk(f)
  {
    if o == Err(BackingStore) then f else FlatStep(f, op, o).0
  }

  // ---------------------------------------------------------------------------------------------
  // The flat machine keeps its regions apart.
  // ---------------------------------------------------------------------------------------------

  /** The region a call names. */
  function Named(op: Op): Option<u16> { if op.DoEvict? then None else Subject(Sys([], [], 0, map[]), op) }

  lemma FlatLocal(f: Flat, g: Flat, op: Op, o: Outcome, id: u16)
    requires FlatOk(f) && FlatOk(g) && |f| == |g| && At(f, id) == At(g, id)
    ensures var (a, p) := FlatStep(f, op, o); var (b, q) := FlatStep(g, op, o);
      |a| == |b| && At(a, id) == At(b, id) && (op.DoCreate? || Named(op) == Some(id) ==> p == q)
  {
  }

  lemma FlatElsewhere(f: Flat, op: Op, o: Outcome, id: u16)
    requires FlatOk(f) && !op.DoCreate? && Named(op) != Some(id)
    ensures At(FlatStep(f, op, o).0, id) == At(f, id)
  {
  }

  lemma FlatStepOk(f: Flat, op: Op, o: Outcome)
    requires FlatOk(f)
    ensures FlatOk(FlatStep(f, op, o).0)
  {
    match op
    case DoAlloc(id, size, align) => if At(f, id).Some? { AllocInOk(f[id].value.alloc, f[id].value.capacity, size, align); }
    case DoCompact(id) =>
      if At(f, id).Some? && CanCompact(f[id].value) {
        assert AllocOk(f[id].value.alloc, f[id].value.capacity);
        CompactShape(f[id].value.alloc.live, f[id].value.data.value, f[id].value.capacity);
      }
    case _ =>
  }

  lemma SoundAbs(s: Sys)
    requires Sound(s)
    ensures FlatOk(Abs(s))
  {
  }

  // ---------------------------------------------------------------------------------------------
  // A call about the region: the directory with every other region taken away does the same.
  // ---------------------------------------------------------------------------------------------

  function Alone(s: Sys, id: u16): (t: Sys)
    ensures |t.regions| == |s.regions| && t.lru == s.lru && t.store == s.store && t.Lookup(id) == s.Lookup(id)
    ensures forall i: u16 :: i != id ==> t.Lookup(i).None?
  {
    s.(regions := seq(|s.regions|, i requires 0 <= i < |s.regions| => if i == id then s.regions[i] else None))
  }

  lemma AloneInv(s: Sys, id: u16)
    requires Kept(s, id)
    ensures Inv(Alone(s, id))
  {
  }

  lemma {:induction false} AloneVictim(s: Sys, ids: seq<u16>, id: u16)
    requires Victim(s, ids) == Some(id)
    ensures Victim(Alone(s, id), ids) == Some(id)
  {
    if ids[0] != id { AloneVictim(s, ids[1..], id); }
  }

  /** Region `id` ends the same, and the outcome is the same. */
  ghost predicate SameAt(a: (Sys, Outcome), b: (Sys, Outcome), id: u16) {
    a.1 == b.1 && a.0.Lookup(id) == b.0.Lookup(id) && a.0.store == b.0.store
  }

  lemma AloneTiers(s: Sys, id: u16)
    ensures SameAt(SpillRegion(s, id, true), SpillRegion(Alone(s, id), id, true), id)
    ensures SameAt(LoadRegion(s, id, true), LoadRegion(Alone(s, id), id, true), id)
  {
  }

  lemma AloneMoves(s: Sys, id: u16)
    ensures SameAt(PromoteRegion(s, id, true), PromoteRegion(Alone(s, id), id, true), id)
    ensures SameAt(DemoteRegion(s, id, true), DemoteRegion(Alone(s, id), id, true), id)
  {
    AloneTiers(s, id);
  }

  lemma AloneAccess(s: Sys, h: Handle, len: u32, data: bytes)
    ensures SameAt(ReadOrFault(s, h, len, true), ReadOrFault(Alone(s, h.regionId), h, len, true), h.regionId)
    ensures SameAt(WriteOrFault(s, h, data, true), WriteOrFault(Alone(s, h.regionId), h, data, true), h.regionId)
  {
    AloneTiers(s, h.regionId);
  }

  lemma AloneEvict(s: Sys, id: u16)
    requires Victim(s, Reversed(s.lru)) == Some(id)
    ensures SameAt(EvictWarmRegion(s, true), EvictWarmRegion(Alone(s, id), true), id)
  {
    AloneVictim(s, Reversed(s.lru), id);
    ScanIsSpill(s, Reversed(s.lru), true);
    ScanIsSpill(Alone(s, id), Reversed(s.lru), true);
    AloneTiers(s, id);
  }

  lemma AloneStep(s: Sys, op: Op, id: u16)
    requires Sound(s) && AllocsOk(Alone(s, id)) && Subject(s, op) == Some(id)
    ensures SameAt(Step(s, op, true), Step(Alone(s, id), op, true), id)
  {
    match op
    case DoRead(h, len) => AloneAccess(s, h, len, []);
    case DoWrite(h, data) => AloneAccess(s, h, 0, data);
    case DoSpill(_) => AloneTiers(s, id);
    case DoLoad(_) => AloneTiers(s, id);
    case DoPromote(_) => AloneMoves(s, id);
    case DoDemote(_) => AloneMoves(s, id);
    case DoEvict => AloneEvict(s, id);
    case _ =>
  }

  /** What a call with a refusing store does to a region it does no harm to: what it does with one that
      accepts, or nothing. */
  lemma RefusedIsNothing(s: Sys, op: Op, id: u16)
    requires Kept(s, id) && Subject(s, op) == Some(id) && HarmlessAt(s, op, false, id)
    ensures SameAt(Step(s, op, false), Step(s, op, true), id) || SameAt(Step(s, op, false), (s, Err(BackingStore)), id)
  {
    if op.DoEvict? {
      ScanIsSpill(s, Reversed(s.lru), true);
      ScanIsSpill(s, Reversed(s.lru), false);
    }
  }

  // ---------------------------------------------------------------------------------------------
  // One call.
  // ---------------------------------------------------------------------------------------------

  /** The answer to a call about region `id`, or to a create, is the flat machine's, or the error of a store that refused. */
  ghost predicate AnswersLike(s: Sys, f: Flat, q: Request, id: u16)
    requires AllocsOk(s) && FlatOk(f)
  {
    var o := Step(s, q.op, q.ok).1;
    Subject(s, q.op) == Some(id) || q.op.DoCreate? ==>
      && (o == Err(BackingStore) ==> !q.ok)
      && (o != Err(BackingStore) && Observed(q.op, o) ==> o == FlatStep(f, q.op, o).1)
  }

  lemma AcceptedSucceeds(s: Sys, op: Op, id: u16)
    requires Kept(s, id) && Subject(s, op) == Some(id) && Harmless(s, op)
    ensures Step(s, op, true).1 != Err(BackingStore)
  {
    if op.DoEvict? { ScanIsSpill(s, Reversed(s.lru), true); }
  }

  /** Two states that show the same of region `id`. */
  lemma SameShown(s: Sys, t: Sys, id: u16)
    requires |s.regions| <= U16_MAX + 1 && |t.regions| <= U16_MAX + 1 && s.Lookup(id) == t.Lookup(id)
    requires s.Lookup(id).Some? ==> Bytes(s.Lookup(id).value, id, s.store) == Bytes(t.Lookup(id).value, id, t.store)
    ensures At(Abs(s), id) == At(Abs(t), id)
  {
    AbsAt(s, id);
    AbsAt(t, id);
  }

  lemma AloneRefines(s: Sys, op: Op, id: u16)
    requires Kept(s, id) && Subject(s, op) == Some(id) && Harmless(s, op)
    ensures var a := Alone(s, id); Inv(a) && Sound(s) && FlatOk(Abs(a)) && At(Abs(a), id) == At(Abs(s), id)
    ensures var (t, o) := Step(s, op, true);
      && Kept(t, id) && At(Abs(t), id) == At(FlatStep(Abs(Alone(s, id)), op, o).0, id)
      && (Observed(op, o) ==> o == FlatStep(Abs(Alone(s, id)), op, o).1)
  {
    var a := Alone(s, id);
    AloneInv(s, id);
    AloneStep(s, op, id);
    StepRefines(a, op);
    StepKeepsSound(s, op, true);
    SameShown(s, a, id);
    SameShown(Step(s, op, true).0, Step(a, op, true).0, id);
  }

  lemma AcceptedRefines(s: Sys, op: Op, id: u16)
    requires Kept(s, id) && Subject(s, op) == Some(id) && Harmless(s, op)
    ensures var (t, o) := Step(s, op, true);
      && FlatOk(Abs(s)) && Kept(t, id) && At(Abs(t), id) == At(FlatStep(Abs(s), op, o).0, id)
      && (Observed(op, o) ==> o == FlatStep(Abs(s), op, o).1)
  {
    AloneRefines(s, op, id);
    SoundAbs(s);
    SubjectIsNamed(s, op, id);
    FlatLocal(Abs(s), Abs(Alone(s, id)), op, Step(s, op, true).1, id);
  }

  lemma SubjectIsNamed(s: Sys, op: Op, id: u16)
    requires Subject(s, op) == Some(id)
    ensures op.DoEvict? || Named(op) == Some(id)
  {
  }

  /** A call about another region. */
  lemma ElsewhereRefines(s: Sys, q: Request, id: u16)
    requires Kept(s, id) && !q.op.DoCreate? && Subject(s, q.op) != Some(id)
    ensures var (t, o) := Step(s, q.op, q.ok);
      FlatOk(Abs(s)) && Kept(t, id) && At(Abs(t), id) == At(Follow(Abs(s), q.op, o), id)
  {
    var (t, o) := Step(s, q.op, q.ok);
    var other: u16 := if Subject(s, q.op).Some? then Subject(s, q.op).value else if id == 0 then 1 else 0;
    StepIsLocal(s, q.op, q.ok, other);
    StepKeepsSound(s, q.op, q.ok);
    SoundAbs(s);
    if s.Lookup(id).Some? { assert (id, s.Lookup(id).value.generation).0 != other; }
    SameShown(s, t, id);
    FlatElsewhere(Abs(s), q.op, o, id);
  }

  lemma CreateRefinesAt(s: Sys, policy: Policy, capacity: u32, ak: AllocatorKind, init: bytes, id: u16)
    requires Kept(s, id) && (|s.regions| == id ==> policy.initial != Cold)
    ensures var (t, o) := CreateRegion(s, policy, capacity, ak, init);
      Sound(t) && Kept(t, id) && At(Abs(t), id) == At(FlatCreate(Abs(s), capacity, ak, init).0, id) && o == FlatCreate(Abs(s), capacity, ak, init).1
  {
    StepKeepsSound(s, DoCreate(policy, capacity, ak, init), true);
    AbsAt(s, id);
    AbsAt(CreateRegion(s, policy, capacity, ak, init).0, id);
  }

  /** A call about the region that the store refuses. */
  lemma RefusedRefines(s: Sys, op: Op, id: u16)
    requires Kept(s, id) && Subject(s, op) == Some(id) && HarmlessAt(s, op, false, id)
    ensures var (t, o) := Step(s, op, false);
      && FlatOk(Abs(s)) && Kept(t, id) && At(Abs(t), id) == At(Follow(Abs(s), op, o), id)
      && (o != Err(BackingStore) && Observed(op, o) ==> o == FlatStep(Abs(s), op, o).1)
  {
    var (t, o) := Step(s, op, false);
    SoundAbs(s);
    StepKeepsSound(s, op, false);
    RefusedIsNothing(s, op, id);
    if SameAt((t, o), (s, Err(BackingStore)), id) {
      SameShown(s, t, id);
    } else {
      AcceptedRefines(s, op, id);
      AcceptedSucceeds(s, op, id);
      SameShown(t, Step(s, op, true).0, id);
    }
  }

  /** One call, with any store: what region `id` shows goes where the flat machine puts it. */
  lemma StepRefinesAt(s: Sys, q: Request, id: u16)
    requires Kept(s, id) && HarmlessAt(s, q.op, q.ok, id)
    ensures var (t, o) := Step(s, q.op, q.ok);
      && FlatOk(Abs(s)) && Kept(t, id) && AnswersLike(s, Abs(s), q, id)
      && At(Abs(t), id) == At(Follow(Abs(s), q.op, o), id)
  {
    SoundAbs(s);
    if q.op.DoCreate? {
      CreateRefinesAt(s, q.op.policy, q.op.capacity, q.op.ak, q.op.init, id);
    } else if Subject(s, q.op) != Some(id) {
      ElsewhereRefines(s, q, id);
    } else if q.ok {
      AcceptedRefines(s, q.op, id);
      AcceptedSucceeds(s, q.op, id);
    } else {
      RefusedRefines(s, q.op, id);
    }
  }

  // ---------------------------------------------------------------------------------------------
  // Runs.
  // ---------------------------------------------------------------------------------------------

  /** No call of the run does harm to region `id`; what they do to others, and how the store answers for
      others, is open. */
  ghost predicate HarmlessRunAt(s: Sys, run: seq<Request>, id: u16)
    requires Sound(s)
    decreases run
  {
    run != [] ==>
      && HarmlessAt(s, run[0].op, run[0].ok, id)
      && var t := Step(s, run[0].op, run[0].ok).0; Sound(t) ==> HarmlessRunAt(t, run[1..], id)
  }

  /** At every point region `id` shows what it does in the flat machine `f` that gets the same calls, and
      calls about it are answered alike. */
  ghost predicate IndistinguishableAt(s: Sys, f: Flat, run: seq<Request>, id: u16)
    decreases run
  {
    && Kept(s, id) && FlatOk(f) && |f| == |s.regions| && At(Abs(s), id) == At(f, id)
    && (run != [] ==>
      var (t, o) := Step(s, run[0].op, run[0].ok);
      AnswersLike(s, f, run[0], id) && IndistinguishableAt(t, Follow(f, run[0].op, o), run[1..], id))
  }

  lemma FollowLength(s: Sys, f: Flat, q: Request)
    requires Sound(s) && FlatOk(f) && |f| == |s.regions|
    ensures |Follow(f, q.op, Step(s, q.op, q.ok).1)| == |Step(s, q.op, q.ok).0.regions|
    ensures FlatOk(Follow(f, q.op, Step(s, q.op, q.ok).1))
  {
    FlatStepOk(f, q.op, Step(s, q.op, q.ok).1);
    if !q.op.DoCreate? { StepIsLocal(s, q.op, q.ok, if Subject(s, q.op).Some? then Subject(s, q.op).value else 0); }
  }

  /** Tiering is invisible region by region: whatever is done to other regions, and whatever the store
      refuses them. */
  lemma {:induction false} RegionIsInvisible(s: Sys, f: Flat, run: seq<Request>, id: u16)
    requires Kept(s, id) && FlatOk(f) && |f| == |s.regions| && At(Abs(s), id) == At(f, id) && HarmlessRunAt(s, run, id)
    ensures IndistinguishableAt(s, f, run, id)
    decreases run
  {
    if run != [] {
      var (t, o) := Step(s, run[0].op, run[0].ok);
      StepRefinesAt(s, run[0], id);
      LikeAt(s, f, run[0], id);
      FollowLength(s, f, run[0]);
      RegionIsInvisible(t, Follow(f, run[0].op, o), run[1..], id);
    }
  }

  lemma LikeAt(s: Sys, f: Flat, q: Request, id: u16)
    requires Kept(s, id) && FlatOk(f) && FlatOk(Abs(s)) && |f| == |s.regions| && At(Abs(s), id) == At(f, id) && AnswersLike(s, Abs(s), q, id)
    ensures var o := Step(s, q.op, q.ok).1;
      AnswersLike(s, f, q, id) && At(Follow(f, q.op, o), id) == At(Follow(Abs(s), q.op, o), id)
  {
    FlatLocal(Abs(s), f, q.op, Step(s, q.op, q.ok).1, id);
    if Subject(s, q.op) == Some(id) { SubjectIsNamed(s, q.op, id); }
  }
}
