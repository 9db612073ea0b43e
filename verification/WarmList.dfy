/**
 * The warm list is faithful: every Warm region is on it once, in the order in which the regions
 * last became Warm, whatever stale ids are left behind; so eviction takes the oldest Warm region.
 */
module WarmList {
  import opened Core
  import opened Directory

  predicate PinnedAt(s: Sys, id: u16) { s.Lookup(id).Some? && s.Lookup(id).value.pinned }

  predicate WarmAt(s: Sys, id: u16) { s.Lookup(id).Some? && s.Lookup(id).value.residency == Warm }

  function Warms(s: Sys): set<u16> { set id: u16 | id < |s.regions| && WarmAt(s, id) }

  /** When each Warm region last became Warm, kept by an observer of residencies alone. */
  function Track(since: map<u16, nat>, t: Sys, now: nat): map<u16, nat> {
    map id | id in Warms(t) :: if id in since then since[id] else now
  }

  /** No id twice, and Warm ids from the latest entry to the earliest. */
  ghost predicate Ordered(lru: seq<u16>, since: map<u16, nat>) {
    lru != [] ==>
      && lru[0] !in lru[1..]
      && (lru[0] in since ==> forall id :: id in lru[1..] && id in since ==> since[id] < since[lru[0]])
      && Ordered(lru[1..], since)
  }

  /** Ids on the list that are not in `since` are stale. */
  ghost predicate Faithful(lru: seq<u16>, since: map<u16, nat>, now: nat) {
    && Ordered(lru, since)
    && forall id :: id in since ==> id in lru && since[id] < now
  }

  lemma {:induction false} WithoutElements(lru: seq<u16>, since: map<u16, nat>, id: u16)
    requires Ordered(lru, since)
    ensures forall x :: x in Without(lru, id) <==> x in lru && x != id
    ensures Ordered(Without(lru, id), since)
  {
    if lru != [] && lru[0] != id {
      WithoutElements(lru[1..], since, id);
      var rest := Without(lru[1..], id);
      assert ([lru[0]] + rest)[1..] == rest;
      forall x ensures x in Without(lru, id) <==> x in lru && x != id {
        assert x in lru <==> x == lru[0] || x in lru[1..];
        assert x in Without(lru, id) <==> x == lru[0] || x in rest;
      }
    } else if lru != [] {
      forall x ensures x in lru[1..] <==> x in lru && x != id { assert x in lru <==> x == lru[0] || x in lru[1..]; }
    }
  }

  lemma {:induction false} FewerWarm(lru: seq<u16>, since: map<u16, nat>, fewer: map<u16, nat>)
    requires Ordered(lru, since) && forall x :: x in fewer ==> x in since && fewer[x] == since[x]
    ensures Ordered(lru, fewer)
  {
    if lru != [] { FewerWarm(lru[1..], since, fewer); }
  }

  /** Removing an id from the list, whether it was Warm or stale. */
  lemma Leaves(lru: seq<u16>, since: map<u16, nat>, id: u16, now: nat)
    requires Faithful(lru, since, now)
    ensures Faithful(Without(lru, id), since - {id}, now + 1)
    ensures Faithful(lru, since - {id}, now + 1)
  {
    WithoutElements(lru, since, id);
    FewerWarm(Without(lru, id), since, since - {id});
    FewerWarm(lru, since, since - {id});
  }

  lemma {:induction false} UntouchedOrder(lru: seq<u16>, since: map<u16, nat>, id: u16, now: nat)
    requires Ordered(lru, since) && id !in lru
    ensures Ordered(lru, since[id := now])
  {
    if lru != [] { UntouchedOrder(lru[1..], since, id, now); }
  }

  /** A region that becomes Warm goes to the front. */
  lemma Enters(lru: seq<u16>, since: map<u16, nat>, id: u16, now: nat)
    requires Faithful(lru, since, now) && id !in since
    ensures Faithful([id] + Without(lru, id), since[id := now], now + 1)
  {
    WithoutElements(lru, since, id);
    var rest := Without(lru, id);
    UntouchedOrder(rest, since, id, now);
    assert ([id] + rest)[1..] == rest;
    forall x | x in since[id := now] ensures x in [id] + rest {}
  }

  // ---------------------------------------------------------------------------------------------
  // Eviction.
  // ---------------------------------------------------------------------------------------------

  /** The first Warm id among `ids`. */
  function FirstWarm(ids: seq<u16>, since: map<u16, nat>): (r: Option<u16>)
    ensures r.Some? ==> r.value in since && r.value in ids
  {
    if ids == [] then None else if ids[0] in since then Some(ids[0]) else FirstWarm(ids[1..], since)
  }

  lemma {:induction false} FirstWarmConcat(a: seq<u16>, b: seq<u16>, since: map<u16, nat>)
    ensures FirstWarm(a + b, since) == if FirstWarm(a, since).Some? then FirstWarm(a, since) else FirstWarm(b, since)
  {
    if a == [] { assert a + b == b; } else {
      assert (a + b)[1..] == a[1..] + b;
      FirstWarmConcat(a[1..], b, since);
    }
  }

  /** From the back of the list, the first Warm id is the one that has been Warm the longest. */
  lemma {:induction false} OldestIsFirstFromBack(lru: seq<u16>, since: map<u16, nat>)
    requires Ordered(lru, since)
    ensures match FirstWarm(Reversed(lru), since)
      case None => forall id :: id in lru ==> id !in since
      case Some(v) => v in lru && v in since && forall id :: id in lru && id in since ==> since[v] <= since[id]
  {
    if lru != [] {
      OldestIsFirstFromBack(lru[1..], since);
      FirstWarmConcat(Reversed(lru[1..]), [lru[0]], since);
      assert forall id :: id in lru <==> id == lru[0] || id in lru[1..];
    }
  }

  /** The Warm regions that are not pinned. */
  function Free(s: Sys): set<u16> { set id | id in Warms(s) && !PinnedAt(s, id) }

  /** `v` has been Warm the longest of `ids`. */
  ghost predicate Oldest(ids: set<u16>, since: map<u16, nat>, v: u16)
    requires ids <= since.Keys
  {
    v in ids && forall q :: q in ids ==> since[v] <= since[q]
  }

  /** The list describes the Warm regions of `s`. */
  ghost predicate Describes(s: Sys, since: map<u16, nat>, now: nat) {
    since.Keys == Warms(s) && Faithful(s.lru, since, now)
  }

  lemma {:induction false} DistinctTimes(lru: seq<u16>, since: map<u16, nat>)
    requires Ordered(lru, since)
    ensures forall a, b :: a in lru && b in lru && a in since && b in since && since[a] == since[b] ==> a == b
  {
    if lru != [] {
      DistinctTimes(lru[1..], since);
      assert forall x :: x in lru <==> x == lru[0] || x in lru[1..];
    }
  }

  lemma {:induction false} VictimIsFirst(s: Sys, ids: seq<u16>, free: map<u16, nat>)
    requires free.Keys == Free(s)
    ensures Victim(s, ids) == FirstWarm(ids, free)
  {
    if ids != [] {
      assert ids[0] in free <==> WarmAt(s, ids[0]) && !PinnedAt(s, ids[0]);
      VictimIsFirst(s, ids[1..], free);
    }
  }

  /** The region an eviction attempts is the one that has been Warm the longest of those not pinned. */
  lemma VictimIsOldest(s: Sys, since: map<u16, nat>, now: nat)
    requires Describes(s, since, now)
    ensures match Victim(s, Reversed(s.lru))
      case None => Free(s) == {}
      case Some(v) => Oldest(Free(s), since, v)
  {
    var free := map id | id in Free(s) :: since[id];
    FewerWarm(s.lru, since, free);
    OldestIsFirstFromBack(s.lru, free);
    VictimIsFirst(s, Reversed(s.lru), free);
    assert forall q :: q in Free(s) ==> q in s.lru && q in free;
  }

  /** `evict_warm_region`, under any policies and with any store: it attempts the region that has been Warm
      the longest of those not pinned, spills it exactly when it may be spilled, still has its memory and
      the store accepts, and gives `None` exactly when every Warm region is pinned. */
  lemma EvictsOldestWarm(s: Sys, since: map<u16, nat>, now: nat, ok: bool)
    requires Describes(s, since, now)
    ensures var (t, o) := EvictWarmRegion(s, ok);
      && (o == Ok(Evicted(None)) <==> Free(s) == {})
      && (Free(s) == {} ==> t == s.(lru := t.lru))
      && (Free(s) != {} ==>
          exists v: u16 :: Oldest(Free(s), since, v) && s.Lookup(v).Some?
            && var r := s.Lookup(v).value;
            && (o == Ok(Evicted(Some(v))) <==> r.spillable && r.memory.Some? && ok)
            && (o != Ok(Evicted(Some(v))) ==> o == Err(if !r.spillable then PolicyViolation else if r.memory.None? then NotResident else BackingStore))
            && t == SpillRegion(s, v, ok).0.(lru := t.lru))
  {
    VictimIsOldest(s, since, now);
    ScanIsSpill(s, Reversed(s.lru), ok);
    var v := Victim(s, Reversed(s.lru));
    if v.Some? { assert Oldest(Free(s), since, v.value) && s.Lookup(v.value).Some?; }
  }

  // ---------------------------------------------------------------------------------------------
  // The list after a call.
  // ---------------------------------------------------------------------------------------------

  lemma WarmsSet(s: Sys, t: Sys, id: u16)
    requires id < |s.regions| && |t.regions| == |s.regions|
    requires forall i :: 0 <= i < |s.regions| && i != id ==> t.regions[i] == s.regions[i]
    ensures Warms(t) == if WarmAt(t, id) then Warms(s) + {id} else Warms(s) - {id}
  {
  }

  lemma WarmsOnly(s: Sys, t: Sys)
    requires t.regions == s.regions
    ensures Warms(t) == Warms(s)
  {
  }

  /** A call after which `id` is not Warm and nothing else changed tier. */
  lemma Cools(s: Sys, t: Sys, id: u16, since: map<u16, nat>, now: nat)
    requires Describes(s, since, now) && Warms(t) == Warms(s) - {id}
    requires t.lru == s.lru || t.lru == Without(s.lru, id)
    ensures Describes(t, Track(since, t, now), now + 1)
  {
    Leaves(s.lru, since, id, now);
    assert Track(since, t, now) == since - {id};
  }

  /** A call by which `id` becomes Warm. */
  lemma Warmed(s: Sys, t: Sys, id: u16, since: map<u16, nat>, now: nat)
    requires Describes(s, since, now) && id !in since && Warms(t) == Warms(s) + {id}
    requires t.lru == [id] + Without(s.lru, id)
    ensures Describes(t, Track(since, t, now), now + 1)
  {
    Enters(s.lru, since, id, now);
    assert Track(since, t, now) == since[id := now];
  }

  /** A call that changes no residency and leaves the list alone. */
  lemma Unchanged(s: Sys, t: Sys, since: map<u16, nat>, now: nat)
    requires Describes(s, since, now) && t.lru == s.lru && Warms(t) == Warms(s)
    ensures Describes(t, Track(since, t, now), now + 1)
  {
    assert Track(since, t, now) == since;
  }

  /** What a call may do to the tier of its region and to the list. */
  ghost predicate Moves(s: Sys, t: Sys, id: u16) {
    && OnlySlot(s, t, id)
    && (|| (t.lru == s.lru && (WarmAt(t, id) ==> WarmAt(s, id)))
        || (t.lru == Without(s.lru, id) && !WarmAt(t, id))
        || (t.lru == [id] + Without(s.lru, id) && WarmAt(t, id) && !WarmAt(s, id)))
  }

  lemma MoveTracked(s: Sys, t: Sys, id: u16, since: map<u16, nat>, now: nat)
    requires Describes(s, since, now) && Moves(s, t, id)
    ensures Describes(t, Track(since, t, now), now + 1)
  {
    if id >= |s.regions| {
      assert t.regions == s.regions;
      WarmsOnly(s, t);
      assert Warms(s) == Warms(s) - {id};
    } else {
      WarmsSet(s, t, id);
    }
    if WarmAt(t, id) && WarmAt(s, id) { Unchanged(s, t, since, now); }
    else if !WarmAt(t, id) { Cools(s, t, id, since, now); }
    else { Warmed(s, t, id, since, now); }
  }

  lemma SpillMoves(s: Sys, id: u16, ok: bool)
    ensures Moves(s, SpillRegion(s, id, ok).0, id)
  {
    SpillIsLocal(s, id, ok);
  }

  lemma LoadMoves(s: Sys, id: u16, ok: bool)
    ensures Moves(s, LoadRegion(s, id, ok).0, id)
  {
    LoadIsLocal(s, id, ok);
  }

  lemma TiersMove(s: Sys, id: u16, ok: bool)
    ensures Moves(s, PromoteRegion(s, id, ok).0, id) && Moves(s, DemoteRegion(s, id, ok).0, id)
  {
    SpillMoves(s, id, ok);
    LoadMoves(s, id, ok);
    TiersAreLocal(s, id, ok);
  }

  lemma AccessMoves(s: Sys, h: Handle, len: u32, data: bytes, ok: bool)
    ensures Moves(s, ReadOrFault(s, h, len, ok).0, h.regionId) && Moves(s, WriteOrFault(s, h, data, ok).0, h.regionId)
  {
    AccessesAreLocal(s, h, len, data, ok);
    LoadMoves(s, h.regionId, ok);
  }

  lemma StepMoves(s: Sys, op: Op, ok: bool, id: u16)
    requires Sound(s) && !op.DoCreate? && !op.DoEvict? && Subject(s, op) == Some(id)
    ensures Moves(s, Step(s, op, ok).0, id)
  {
    match op
    case DoSpill(_) => SpillMoves(s, id, ok);
    case DoLoad(_) => LoadMoves(s, id, ok);
    case DoPromote(_) => TiersMove(s, id, ok);
    case DoDemote(_) => TiersMove(s, id, ok);
    case DoRead(h, len) => AccessMoves(s, h, len, [], ok);
    case DoWrite(h, data) => AccessMoves(s, h, 0, data, ok);
    case _ => StepIsLocal(s, op, ok, id);
  }

  /** Ids on the list name regions that were created. */
  ghost predicate Known(s: Sys) { forall id :: id in s.lru ==> id < |s.regions| }

  lemma {:induction false} WithoutKnown(lru: seq<u16>, id: u16)
    ensures forall x :: x in Without(lru, id) ==> x in lru
  {
    if lru != [] { WithoutKnown(lru[1..], id); }
  }

  lemma CreateTracked(s: Sys, policy: Policy, capacity: u32, ak: AllocatorKind, init: bytes, since: map<u16, nat>, now: nat)
    requires Known(s) && Describes(s, since, now)
    ensures var t := CreateRegion(s, policy, capacity, ak, init).0; Describes(t, Track(since, t, now), now + 1)
  {
    var t := CreateRegion(s, policy, capacity, ak, init).0;
    if |s.regions| <= U16_MAX {
      var id: u16 := |s.regions|;
      CreatedWarms(s, t, id);
      if WarmAt(t, id) {
        WithoutAbsent(s.lru, id);
        Warmed(s, t, id, since, now);
      } else {
        Unchanged(s, t, since, now);
      }
    } else {
      Unchanged(s, t, since, now);
    }
  }

  lemma CreatedWarms(s: Sys, t: Sys, id: u16)
    requires id == |s.regions| && |t.regions| == id + 1 && t.regions[..id] == s.regions
    ensures Warms(t) == if WarmAt(t, id) then Warms(s) + {id} else Warms(s)
  {
    forall x: u16 | x < id ensures t.regions[x] == s.regions[x] { assert t.regions[..id][x] == s.regions[x]; }
  }

  lemma {:induction false} WithoutAbsent(lru: seq<u16>, id: u16)
    requires id !in lru
    ensures Without(lru, id) == lru
  {
    if lru != [] { WithoutAbsent(lru[1..], id); }
  }

  // ---------------------------------------------------------------------------------------------
  // Evictions: a pinned Warm region is dropped.
  // ---------------------------------------------------------------------------------------------

  /** The region that has been Warm the longest is pinned. */
  ghost predicate OldestPinned(s: Sys, since: map<u16, nat>)
    requires Warms(s) <= since.Keys
  {
    exists v :: Oldest(Warms(s), since, v) && PinnedAt(s, v)
  }

  /** The scan drops what is not Warm and stops at the first Warm id it meets, unless that one is pinned. */
  lemma {:induction false} ScanTracked(s: Sys, ids: seq<u16>, ok: bool, since: map<u16, nat>, now: nat)
    requires Describes(s, since, now)
    requires FirstWarm(ids, since).Some? ==> !PinnedAt(s, FirstWarm(ids, since).value)
    ensures var t := EvictScan(s, ids, ok).0; Describes(t, Track(since, t, now), now + 1)
    decreases ids
  {
    if ids == [] {
      Unchanged(s, s, since, now);
    } else if ids[0] in since {
      assert WarmAt(s, ids[0]);
      SpillMoves(s, ids[0], ok);
      MoveTracked(s, SpillRegion(s, ids[0], ok).0, ids[0], since, now);
    } else {
      var u := s.(lru := Without(s.lru, ids[0]));
      assert !WarmAt(s, ids[0]);
      WithoutElements(s.lru, since, ids[0]);
      WarmsOnly(s, u);
      ScanTracked(u, ids[1..], ok, since, now);
    }
  }

  /** The scan only ever shortens the list, and leaves pinned regions alone. */
  lemma {:induction false} ScanOnlyDrops(s: Sys, ids: seq<u16>, ok: bool)
    ensures var t := EvictScan(s, ids, ok).0;
      && |t.regions| == |s.regions| && (forall x :: x in t.lru ==> x in s.lru)
      && forall i :: 0 <= i < |s.regions| && s.regions[i].Some? && s.regions[i].value.pinned ==> t.regions[i] == s.regions[i]
    decreases ids
  {
    if ids != [] {
      WithoutKnown(s.lru, ids[0]);
      ScanOnlyDrops(s.(lru := Without(s.lru, ids[0])), ids[1..], ok);
    }
  }

  lemma {:induction false} ScanForgets(s: Sys, ids: seq<u16>, ok: bool, since: map<u16, nat>, now: nat)
    requires Describes(s, since, now)
    requires FirstWarm(ids, since).Some? && PinnedAt(s, FirstWarm(ids, since).value)
    ensures var t := EvictScan(s, ids, ok).0; var id := FirstWarm(ids, since).value;
      WarmAt(t, id) && id !in t.lru
    decreases ids
  {
    var id := ids[0];
    var u := s.(lru := Without(s.lru, id));
    WithoutElements(s.lru, since, id);
    if id in since {
      assert WarmAt(s, id);
      ScanOnlyDrops(u, ids[1..], ok);
    } else {
      assert !WarmAt(s, id);
      WarmsOnly(s, u);
      ScanForgets(u, ids[1..], ok, since, now);
    }
  }

  /** The first Warm id from the back is the oldest one, and there is no other as old. */
  lemma FirstIsOldest(s: Sys, since: map<u16, nat>, now: nat)
    requires Describes(s, since, now)
    ensures match FirstWarm(Reversed(s.lru), since)
      case None => Warms(s) == {}
      case Some(v) => forall q :: Oldest(Warms(s), since, q) <==> q == v
  {
    OldestIsFirstFromBack(s.lru, since);
    DistinctTimes(s.lru, since);
    assert forall q :: q in Warms(s) ==> q in s.lru && q in since;
  }

  /** Whatever the policies and the store, after an eviction the list still describes the Warm regions
      exactly when the one that has been Warm the longest was not pinned: a pinned one is dropped and never
      offered again. */
  lemma EvictForgetsIff(s: Sys, since: map<u16, nat>, now: nat, ok: bool)
    requires Describes(s, since, now)
    ensures var t := EvictWarmRegion(s, ok).0;
      Describes(t, Track(since, t, now), now + 1) <==> !OldestPinned(s, since)
  {
    FirstIsOldest(s, since, now);
    var first := FirstWarm(Reversed(s.lru), since);
    if first.Some? && PinnedAt(s, first.value) {
      assert Oldest(Warms(s), since, first.value);
      ScanForgets(s, Reversed(s.lru), ok, since, now);
      var t := EvictWarmRegion(s, ok).0;
      assert first.value in Warms(t);
    } else {
      ScanTracked(s, Reversed(s.lru), ok, since, now);
    }
  }

  /** A run that forgets a Warm region: create it pinnable and Warm, pin it, evict, unpin it, evict. */
  lemma PinnedWarmIsForgotten()
    ensures
      var s1 := CreateRegion(Sys([], [], 1, map[]), Policy(Warm, true, true), 1, BumpKind, [0]).0;
      var s2 := Unpin(EvictWarmRegion(Pin(s1, 0).0, true).0, 0).0;
      WarmAt(s2, 0) && !s2.regions[0].value.pinned && EvictWarmRegion(s2, true).1 == Ok(Evicted(None))
  {
    var s1 := Pin(CreateRegion(Sys([], [], 1, map[]), Policy(Warm, true, true), 1, BumpKind, [0]).0, 0).0;
    assert Reversed(s1.lru) == [0] by { assert s1.lru[1..] == []; }
    assert Without(s1.lru, 0) == [];
    assert [0 as u16][1..] == [];
    assert EvictScan(s1, [0], true) == EvictScan(s1.(lru := []), [], true);
    assert Reversed([]) == [];
  }

  /** A Warm region that lost its memory to a refused spill stands in the way: every eviction attempts it,
      fails and changes nothing but stale entries, with any store, for as long as it is the oldest. */
  lemma LostRegionBlocks(s: Sys, since: map<u16, nat>, now: nat, ok: bool)
    requires Describes(s, since, now) && !OldestPinned(s, since)
    requires Victim(s, Reversed(s.lru)).Some?
    requires var r := s.Lookup(Victim(s, Reversed(s.lru)).value).value; r.spillable && r.memory.None?
    ensures var (t, o) := EvictWarmRegion(s, ok);
      && o == Err(NotResident) && t == s.(lru := t.lru)
      && Describes(t, since, now + 1) && !OldestPinned(t, since) && Victim(t, Reversed(t.lru)) == Victim(s, Reversed(s.lru))
  {
    var t := EvictWarmRegion(s, ok).0;
    ScanIsSpill(s, Reversed(s.lru), ok);
    EvictForgetsIff(s, since, now, ok);
    WarmsOnly(s, t);
    assert Track(since, t, now) == since;
    SameVictimThen(s, t, since, now);
  }

  /** Two lists that describe the same regions name the same region for eviction. */
  lemma SameVictimThen(s: Sys, t: Sys, since: map<u16, nat>, now: nat)
    requires t.regions == s.regions && Describes(s, since, now) && Describes(t, since, now + 1)
    ensures Victim(t, Reversed(t.lru)) == Victim(s, Reversed(s.lru))
  {
    VictimIsOldest(s, since, now);
    VictimIsOldest(t, since, now + 1);
    SameFree(s, t);
    OneOldest(s.lru, since, Free(s), Victim(s, Reversed(s.lru)), Victim(t, Reversed(t.lru)));
  }

  lemma SameFree(s: Sys, t: Sys)
    requires t.regions == s.regions
    ensures Free(t) == Free(s)
  {
    WarmsOnly(s, t);
  }

  lemma OneOldest(lru: seq<u16>, since: map<u16, nat>, ids: set<u16>, v: Option<u16>, w: Option<u16>)
    requires Ordered(lru, since) && ids <= since.Keys && forall id :: id in since ==> id in lru
    requires match v case None => ids == {} case Some(a) => Oldest(ids, since, a)
    requires match w case None => ids == {} case Some(b) => Oldest(ids, since, b)
    ensures v == w
  {
    DistinctTimes(lru, since);
    if v.Some? { assert since[v.value] == since[w.value]; }
  }

  /** From an empty directory: two Warm regions, a spill of the first that the store refuses, and then no
      eviction ever gets at the second. */
  lemma SecondWarmIsStuck()
    ensures
      var s1 := CreateRegion(Sys([], [], 1, map[]), PolicyFor(PageStore), 1, BumpKind, [0]).0;
      var s2 := CreateRegion(s1, PolicyFor(PageStore), 1, BumpKind, [0]).0;
      var (s3, lost) := EvictWarmRegion(s2, false);
      && lost == Err(BackingStore) && WarmAt(s3, 0) && WarmAt(s3, 1)
      && EvictWarmRegion(s3, true) == (s3, Err(NotResident))
  {
    var s1 := CreateRegion(Sys([], [], 1, map[]), PolicyFor(PageStore), 1, BumpKind, [0]).0;
    var s2 := CreateRegion(s1, PolicyFor(PageStore), 1, BumpKind, [0]).0;
    assert s2.lru == [1, 0];
    assert s2.lru[1..] == [0] && s2.lru[1..][1..] == [];
    assert Reversed(s2.lru) == [0, 1];
    var s3 := EvictWarmRegion(s2, false).0;
    assert s3 == SpillRegion(s2, 0, false).0;
    assert s3.lru == [1, 0];
  }

  // ---------------------------------------------------------------------------------------------
  // Runs.
  // ---------------------------------------------------------------------------------------------

  /** One call keeps the list faithful, whatever the store answers. */
  lemma StepKeepsFaithful(s: Sys, q: Request, since: map<u16, nat>, now: nat)
    requires Sound(s) && Known(s) && Describes(s, since, now)
    ensures var t := Step(s, q.op, q.ok).0;
      Describes(t, Track(since, t, now), now + 1) <==> !(q.op.DoEvict? && OldestPinned(s, since))
  {
    match q.op
    case DoCreate(policy, capacity, ak, init) => CreateTracked(s, policy, capacity, ak, init, since, now);
    case DoEvict => EvictForgetsIff(s, since, now, q.ok);
    case _ =>
      var id := Subject(s, q.op).value;
      StepMoves(s, q.op, q.ok, id);
      MoveTracked(s, Step(s, q.op, q.ok).0, id, since, now);
  }

  /** A call that keeps the list, up to its own region, and removes no slot. */
  lemma KnownFrame(s: Sys, t: Sys)
    requires Known(s) && |t.regions| >= |s.regions| && forall x :: x in t.lru ==> x in s.lru || x < |t.regions|
    ensures Known(t)
  {
  }

  lemma MovesKnown(s: Sys, t: Sys, id: u16)
    requires Known(s) && Moves(s, t, id)
    ensures Known(t)
  {
    WithoutKnown(s.lru, id);
  }

  lemma StepKnown(s: Sys, q: Request)
    requires Sound(s) && Known(s)
    ensures Known(Step(s, q.op, q.ok).0)
  {
    match q.op
    case DoEvict =>
      ScanOnlyDrops(s, Reversed(s.lru), q.ok);
      KnownFrame(s, EvictWarmRegion(s, q.ok).0);
    case DoCreate(_, _, _, _) => KnownFrame(s, Step(s, q.op, q.ok).0);
    case _ =>
      var id := Subject(s, q.op).value;
      StepMoves(s, q.op, q.ok, id);
      MovesKnown(s, Step(s, q.op, q.ok).0, id);
  }

  /** At every point of the run the list is faithful to the observed entries into Warm. */
  ghost predicate AlwaysFaithful(s: Sys, run: seq<Request>, since: map<u16, nat>, now: nat)
    requires Sound(s)
    decreases run
  {
    && Describes(s, since, now)
    && (run != [] ==>
      var t := Step(s, run[0].op, run[0].ok).0;
      Sound(t) && AlwaysFaithful(t, run[1..], Track(since, t, now), now + 1))
  }

  /** No eviction of the run finds the oldest Warm region pinned. */
  ghost predicate NoneForgotten(s: Sys, run: seq<Request>, since: map<u16, nat>, now: nat)
    requires Sound(s)
    decreases run
  {
    run != [] ==>
      && (run[0].op.DoEvict? && Warms(s) <= since.Keys ==> !OldestPinned(s, since))
      && var t := Step(s, run[0].op, run[0].ok).0; Sound(t) ==> NoneForgotten(t, run[1..], Track(since, t, now), now + 1)
  }

  /** Along a run of any calls, with any store, the list stays faithful exactly when no eviction finds the
      oldest Warm region pinned. */
  lemma {:induction false} WarmListIsFaithful(s: Sys, run: seq<Request>, since: map<u16, nat>, now: nat)
    requires Sound(s) && Known(s) && Describes(s, since, now)
    ensures AlwaysFaithful(s, run, since, now) <==> NoneForgotten(s, run, since, now)
    decreases run
  {
    if run != [] {
      var t := Step(s, run[0].op, run[0].ok).0;
      StepKeepsSound(s, run[0].op, run[0].ok);
      StepKeepsFaithful(s, run[0], since, now);
      StepKnown(s, run[0]);
      if Describes(t, Track(since, t, now), now + 1) { WarmListIsFaithful(t, run[1..], Track(since, t, now), now + 1); }
      else { NotFaithful(t, run[1..], Track(since, t, now), now + 1); }
    }
  }

  lemma NotFaithful(s: Sys, run: seq<Request>, since: map<u16, nat>, now: nat)
    requires Sound(s) && !Describes(s, since, now)
    ensures !AlwaysFaithful(s, run, since, now)
  {
  }

  // ---------------------------------------------------------------------------------------------
  // Policies under which no Warm region is ever pinned.
  // ---------------------------------------------------------------------------------------------

  predicate RegularPolicy(p: Policy) { !(p.pinnable && p.spillable) && (p.initial == Warm ==> p.spillable) }

  lemma DefaultsAreRegular(kind: RegionKind)
    ensures RegularPolicy(PolicyFor(kind))
  {
  }

  predicate RegularRegion(r: Region) {
    (r.pinned ==> r.pinnable) && !(r.pinnable && r.spillable) && (r.residency == Warm ==> r.spillable)
  }

  /** No region can be both pinned and spilled, and only spillable regions are Warm. */
  ghost predicate Evictable(s: Sys) {
    forall i :: 0 <= i < |s.regions| && s.regions[i].Some? ==> RegularRegion(s.regions[i].value)
  }

  lemma OneRegular(s: Sys, t: Sys, id: u16)
    requires Evictable(s) && OnlySlot(s, t, id) && (t.Lookup(id).Some? ==> RegularRegion(t.Lookup(id).value))
    ensures Evictable(t)
  {
  }

  lemma SpillRegular(s: Sys, id: u16, ok: bool)
    requires Evictable(s)
    ensures Evictable(SpillRegion(s, id, ok).0) && Evictable(LoadRegion(s, id, ok).0)
  {
    SpillIsLocal(s, id, ok);
    LoadIsLocal(s, id, ok);
    OneRegular(s, SpillRegion(s, id, ok).0, id);
    OneRegular(s, LoadRegion(s, id, ok).0, id);
  }

  lemma TiersRegular(s: Sys, id: u16, ok: bool)
    requires Evictable(s)
    ensures Evictable(PromoteRegion(s, id, ok).0) && Evictable(DemoteRegion(s, id, ok).0)
  {
    SpillRegular(s, id, ok);
    TiersAreLocal(s, id, ok);
    if s.Lookup(id).Some? { assert RegularRegion(s.regions[id].value); }
    OneRegular(s, PromoteRegion(s, id, ok).0, id);
    OneRegular(s, DemoteRegion(s, id, ok).0, id);
  }

  lemma AccessRegular(s: Sys, h: Handle, len: u32, data: bytes, ok: bool)
    requires Evictable(s)
    ensures Evictable(ReadOrFault(s, h, len, ok).0) && Evictable(WriteOrFault(s, h, data, ok).0)
  {
    SpillRegular(s, h.regionId, ok);
    var t := Fault(s, h.regionId, ok).0;
    OneRegular(t, Write(t, h, data).0, h.regionId);
  }

  lemma EvictRegular(s: Sys, ok: bool)
    requires Evictable(s)
    ensures Evictable(EvictWarmRegion(s, ok).0)
  {
    ScanIsSpill(s, Reversed(s.lru), ok);
    var v := Victim(s, Reversed(s.lru));
    if v.Some? { SpillRegular(s, v.value, ok); }
  }

  lemma StepKeepsEvictable(s: Sys, q: Request)
    requires Sound(s) && Evictable(s) && (q.op.DoCreate? ==> RegularPolicy(q.op.policy))
    ensures Evictable(Step(s, q.op, q.ok).0)
  {
    match q.op
    case DoEvict => EvictRegular(s, q.ok);
    case DoRead(h, len) => AccessRegular(s, h, len, [], q.ok);
    case DoWrite(h, data) => AccessRegular(s, h, 0, data, q.ok);
    case DoSpill(id) => SpillRegular(s, id, q.ok);
    case DoLoad(id) => SpillRegular(s, id, q.ok);
    case DoPromote(id) => TiersRegular(s, id, q.ok);
    case DoDemote(id) => TiersRegular(s, id, q.ok);
    case DoCreate(_, _, _, _) =>
    case _ => RecordsRegular(s, q.op, Subject(s, q.op).value);
  }

  /** Calls that change neither tier nor policy of a region. */
  lemma RecordsRegular(s: Sys, op: Op, id: u16)
    requires Sound(s) && Evictable(s) && Subject(s, op) == Some(id)
    requires op.DoDestroy? || op.DoAlloc? || op.DoDealloc? || op.DoPin? || op.DoUnpin? || op.DoCompact? || op.DoBump?
    ensures Evictable(Step(s, op, true).0)
  {
    StepIsLocal(s, op, true, id);
    if s.Lookup(id).Some? { assert RegularRegion(s.regions[id].value); }
    OneRegular(s, Step(s, op, true).0, id);
  }

  /** Under such policies, which include every default, every run of any calls with any store keeps the list
      faithful. */
  lemma {:induction false} RegularRunsAreFaithful(s: Sys, run: seq<Request>, since: map<u16, nat>, now: nat)
    requires Sound(s) && Known(s) && Evictable(s) && Describes(s, since, now)
    requires forall q :: q in run && q.op.DoCreate? ==> RegularPolicy(q.op.policy)
    ensures AlwaysFaithful(s, run, since, now)
    decreases run
  {
    if run != [] {
      assert run[0] in run;
      var t := Step(s, run[0].op, run[0].ok).0;
      forall v: u16 | Oldest(Warms(s), since, v) ensures !PinnedAt(s, v) { assert RegularRegion(s.regions[v].value); }
      StepKeepsSound(s, run[0].op, run[0].ok);
      StepKeepsFaithful(s, run[0], since, now);
      StepKnown(s, run[0]);
      StepKeepsEvictable(s, run[0]);
      RegularRunsAreFaithful(t, run[1..], Track(since, t, now), now + 1);
    }
  }

  lemma EmptyDirectoryFaithful()
    ensures var s := Sys([], [], 1, map[]); Sound(s) && Known(s) && Evictable(s) && Describes(s, map[], 0)
  {
  }
}
