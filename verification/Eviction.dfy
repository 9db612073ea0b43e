/**
 * Bulk eviction: spill regions, Warm before Hot and in the policy's order within a tier, until the
 * resident bytes are at or below a target. One thread, and a store that may refuse any regions; the
 * functions without a set of refusals are for a store that accepts every spill.
 */
module Eviction {
  import opened Core
  import opened Allocator
  import opened Directory
  import D = RegionDirectory

  datatype WithinTier = LargestFirst | SmallestFirst | InsertionOrder

  /** A region of the snapshot and the bytes it uses. */
  datatype Candidate = Candidate(id: u16, used: nat)

  datatype Report = Report(bytesFreed: nat, regionsSpilled: nat, targetMet: bool)

  const U64_MAX := 0xFFFF_FFFF_FFFF_FFFF

  /** What a region's allocator has handed out. */
  function UsedBy(a: Alloc): nat {
    match a
    case Bump(top) => top
    case Freelist(live) => LiveBytes(live)
  }

  predicate Counts(r: Residency) { r == Hot || r == Warm }

  function ResidentAt(slot: Option<Region>): nat {
    if slot.Some? && Counts(slot.value.residency) then UsedBy(slot.value.alloc) else 0
  }

  /** Total resident bytes. */
  function Resident(regions: seq<Option<Region>>): nat {
    if regions == [] then 0 else Resident(regions[..|regions| - 1]) + ResidentAt(regions[|regions| - 1])
  }

  predicate Eligible(slot: Option<Region>, tier: Residency) {
    slot.Some? && !slot.value.pinned && slot.value.spillable && slot.value.residency == tier
  }

  /** The eligible regions of a tier in id order. */
  function Bucket(regions: seq<Option<Region>>, tier: Residency): (r: seq<Candidate>)
    requires |regions| <= U16_MAX + 1
    ensures forall c :: c in r ==> c.id < |regions| && Eligible(regions[c.id], tier) && c.used == UsedBy(regions[c.id].value.alloc)
    ensures forall i, j :: 0 <= i < j < |r| ==> r[i].id < r[j].id
  {
    if regions == [] then []
    else
      var n := |regions| - 1;
      Bucket(regions[..n], tier) + if Eligible(regions[n], tier) then [Candidate(n, UsedBy(regions[n].value.alloc))] else []
  }

  lemma {:induction false} BucketComplete(regions: seq<Option<Region>>, tier: Residency, id: u16)
    requires |regions| <= U16_MAX + 1 && id < |regions| && Eligible(regions[id], tier)
    ensures Candidate(id, UsedBy(regions[id].value.alloc)) in Bucket(regions, tier)
  {
    if id < |regions| - 1 { BucketComplete(regions[..|regions| - 1], tier, id); }
  }

  // ---------------------------------------------------------------------------------------------
  // The order within a tier.
  // ---------------------------------------------------------------------------------------------

  function Key(policy: WithinTier, c: Candidate): int {
    match policy
    case LargestFirst => 0 - c.used
    case SmallestFirst => c.used
    case InsertionOrder => c.id
  }

  /** The policy's comparison, ties in id order: what a stable sort of an id-ordered list gives. */
  predicate Precedes(policy: WithinTier, a: Candidate, b: Candidate) {
    Key(policy, a) < Key(policy, b) || (Key(policy, a) == Key(policy, b) && a.id < b.id)
  }

  ghost predicate InOrder(policy: WithinTier, cs: seq<Candidate>) {
    cs != [] ==> (forall x :: x in cs[1..] ==> Precedes(policy, cs[0], x)) && InOrder(policy, cs[1..])
  }

  /** Insertion after every element that does not come later. */
  function Insert(policy: WithinTier, cs: seq<Candidate>, c: Candidate): seq<Candidate> {
    if cs == [] then [c]
    else if Key(policy, c) < Key(policy, cs[0]) then [c] + cs
    else [cs[0]] + Insert(policy, cs[1..], c)
  }

  /** A stable sort. */
  function Sorted(policy: WithinTier, cs: seq<Candidate>): seq<Candidate> {
    if cs == [] then [] else Insert(policy, Sorted(policy, cs[..|cs| - 1]), cs[|cs| - 1])
  }

  lemma {:induction false} InsertMembers(policy: WithinTier, cs: seq<Candidate>, c: Candidate)
    ensures forall x :: x in Insert(policy, cs, c) <==> x in cs || x == c
  {
    if cs != [] && Key(policy, c) >= Key(policy, cs[0]) { InsertMembers(policy, cs[1..], c); }
  }

  lemma {:induction false} InsertMultiset(policy: WithinTier, cs: seq<Candidate>, c: Candidate)
    ensures multiset(Insert(policy, cs, c)) == multiset(cs) + multiset{c}
  {
    if cs != [] && Key(policy, c) >= Key(policy, cs[0]) {
      InsertMultiset(policy, cs[1..], c);
      assert cs == [cs[0]] + cs[1..];
    }
  }

  lemma {:induction false} InsertOrder(policy: WithinTier, cs: seq<Candidate>, c: Candidate)
    requires InOrder(policy, cs) && forall x :: x in cs ==> x.id < c.id
    ensures InOrder(policy, Insert(policy, cs, c))
  {
    if cs == [] {
    } else if Key(policy, c) < Key(policy, cs[0]) {
      assert ([c] + cs)[1..] == cs;
      forall x | x in cs ensures Precedes(policy, c, x) { if x != cs[0] { assert x in cs[1..]; } }
    } else {
      var rest := Insert(policy, cs[1..], c);
      InsertMembers(policy, cs[1..], c);
      InsertOrder(policy, cs[1..], c);
      assert cs[0] in cs && ([cs[0]] + rest)[1..] == rest;
    }
  }

  lemma {:induction false} SortedMembers(policy: WithinTier, cs: seq<Candidate>)
    ensures forall x :: x in Sorted(policy, cs) <==> x in cs
  {
    if cs != [] {
      var n := |cs| - 1;
      SortedMembers(policy, cs[..n]);
      InsertMembers(policy, Sorted(policy, cs[..n]), cs[n]);
      assert cs == cs[..n] + [cs[n]];
    }
  }

  lemma {:induction false} SortedMultiset(policy: WithinTier, cs: seq<Candidate>)
    ensures multiset(Sorted(policy, cs)) == multiset(cs)
  {
    if cs != [] {
      var n := |cs| - 1;
      SortedMultiset(policy, cs[..n]);
      InsertMultiset(policy, Sorted(policy, cs[..n]), cs[n]);
      assert cs == cs[..n] + [cs[n]];
    }
  }

  lemma {:induction false} SortedOrder(policy: WithinTier, cs: seq<Candidate>)
    requires forall i, j :: 0 <= i < j < |cs| ==> cs[i].id < cs[j].id
    ensures InOrder(policy, Sorted(policy, cs))
  {
    if cs != [] {
      var n := |cs| - 1;
      SortedOrder(policy, cs[..n]);
      SortedMembers(policy, cs[..n]);
      InsertOrder(policy, Sorted(policy, cs[..n]), cs[n]);
    }
  }

  /** Warm candidates in order, then Hot ones in order. */
  function Queue(regions: seq<Option<Region>>, policy: WithinTier): seq<Candidate>
    requires |regions| <= U16_MAX + 1
  {
    Sorted(policy, Bucket(regions, Warm)) + Sorted(policy, Bucket(regions, Hot))
  }

  // ---------------------------------------------------------------------------------------------
  // The loop.
  // ---------------------------------------------------------------------------------------------

  function Saturating(a: int, limit: nat): nat { if a < 0 then 0 else if a > limit then limit else a }

  /** Spills candidates while more than `target` is resident. */
  function Demote(s: Sys, queue: seq<Candidate>, current: nat, target: nat, report: Report): (Sys, Report)
    decreases queue
  {
    if queue == [] || current <= target then (s, report.(targetMet := current <= target))
    else
      var (t, o) := SpillRegion(s, queue[0].id, true);
      if o.Ok? then
        Demote(t, queue[1..], Saturating(current - queue[0].used, U64_MAX), target,
               Report(Saturating(report.bytesFreed + queue[0].used, U64_MAX), Saturating(report.regionsSpilled + 1, U16_MAX), report.targetMet))
      else Demote(t, queue[1..], current, target, report)
  }

  function DemoteUntil(s: Sys, target: nat, policy: WithinTier): (Sys, Report)
    requires |s.regions| <= U16_MAX + 1
  {
    var current := Resident(s.regions);
    if current <= target then (s, Report(0, 0, true))
    else Demote(s, Queue(s.regions, policy), current, target, Report(0, 0, false))
  }

  /** Allocate; on `AllocationFailed` demote once and allocate again. */
  function AllocOrDemote(s: Sys, id: u16, size: u32, target: nat, policy: WithinTier): (Sys, Outcome)
    requires |s.regions| <= U16_MAX + 1
  {
    var (t, o) := AllocAligned(s, id, size, 1);
    if o == Err(AllocationFailed) then AllocAligned(DemoteUntil(t, target, policy).0, id, size, 1) else (t, o)
  }

  /** The errors of a candidate that is no longer viable. */
  predicate Skipped(e: TvmError) { e == Pinned || e == PolicyViolation || e == NotResident || e.RegionNotFound? }

  /** The loop above with a store that refuses the regions in `refused`: a candidate that is no longer
      viable is skipped, any other error ends the call. */
  function DemoteWith(s: Sys, queue: seq<Candidate>, current: nat, target: nat, report: Report, refused: set<u16>): (Sys, Result<Report>)
    decreases queue
  {
    if queue == [] || current <= target then (s, Ok(report.(targetMet := current <= target)))
    else
      var (t, o) := SpillRegion(s, queue[0].id, queue[0].id !in refused);
      if o.Ok? then
        DemoteWith(t, queue[1..], Saturating(current - queue[0].used, U64_MAX), target,
                   Report(Saturating(report.bytesFreed + queue[0].used, U64_MAX), Saturating(report.regionsSpilled + 1, U16_MAX), report.targetMet), refused)
      else if Skipped(o.error) then DemoteWith(t, queue[1..], current, target, report, refused)
      else (t, Err(o.error))
  }

  function DemoteUntilWith(s: Sys, target: nat, policy: WithinTier, refused: set<u16>): (Sys, Result<Report>)
    requires |s.regions| <= U16_MAX + 1
  {
    var current := Resident(s.regions);
    if current <= target then (s, Ok(Report(0, 0, true)))
    else DemoteWith(s, Queue(s.regions, policy), current, target, Report(0, 0, false), refused)
  }

  function AllocOrDemoteWith(s: Sys, id: u16, size: u32, target: nat, policy: WithinTier, refused: set<u16>): (Sys, Outcome)
    requires |s.regions| <= U16_MAX + 1
  {
    var (t, o) := AllocAligned(s, id, size, 1);
    if o != Err(AllocationFailed) then (t, o)
    else
      var (u, r) := DemoteUntilWith(t, target, policy, refused);
      if r.Err? then (u, Err(r.error)) else AllocAligned(u, id, size, 1)
  }

  // ---------------------------------------------------------------------------------------------
  // The loops in place.
  // ---------------------------------------------------------------------------------------------

  method TotalResident(regions: seq<Option<Region>>) returns (sum: nat)
    ensures sum == Resident(regions)
  {
    sum := 0;
    var i := 0;
    while i < |regions|
      invariant 0 <= i <= |regions| && sum == Resident(regions[..i])
    {
      assert regions[..i + 1][..i] == regions[..i];
      if regions[i].Some? && Counts(regions[i].value.residency) { sum := sum + UsedBy(regions[i].value.alloc); }
      i := i + 1;
    }
    assert regions[..i] == regions;
  }

  method Buckets(regions: seq<Option<Region>>) returns (warm: seq<Candidate>, hot: seq<Candidate>)
    requires |regions| <= U16_MAX + 1
    ensures warm == Bucket(regions, Warm) && hot == Bucket(regions, Hot)
  {
    warm, hot := [], [];
    var i := 0;
    while i < |regions|
      invariant 0 <= i <= |regions|
      invariant warm == Bucket(regions[..i], Warm) && hot == Bucket(regions[..i], Hot)
    {
      assert regions[..i + 1][..i] == regions[..i];
      var slot := regions[i];
      i := i + 1;
      if slot.None? { continue; }
      var r := slot.value;
      if r.pinned || !r.spillable { continue; }
      match r.residency
      case Warm => warm := warm + [Candidate(i - 1, UsedBy(r.alloc))];
      case Hot => hot := hot + [Candidate(i - 1, UsedBy(r.alloc))];
      case Cold =>
    }
    assert regions[..i] == regions;
  }

  lemma UnfoldDemote(s: Sys, queue: seq<Candidate>, current: nat, target: nat, report: Report)
    requires queue != [] && current > target
    ensures var (t, o) := SpillRegion(s, queue[0].id, true);
      Demote(s, queue, current, target, report) ==
      if o.Ok? then
        Demote(t, queue[1..], Saturating(current - queue[0].used, U64_MAX), target,
               Report(Saturating(report.bytesFreed + queue[0].used, U64_MAX), Saturating(report.regionsSpilled + 1, U16_MAX), report.targetMet))
      else Demote(t, queue[1..], current, target, report)
  {
  }

  lemma UnfoldDemoteWith(s: Sys, queue: seq<Candidate>, current: nat, target: nat, report: Report, refused: set<u16>)
    requires queue != [] && current > target
    ensures var (t, o) := SpillRegion(s, queue[0].id, queue[0].id !in refused);
      DemoteWith(s, queue, current, target, report, refused) ==
      if o.Ok? then
        DemoteWith(t, queue[1..], Saturating(current - queue[0].used, U64_MAX), target,
                   Report(Saturating(report.bytesFreed + queue[0].used, U64_MAX), Saturating(report.regionsSpilled + 1, U16_MAX), report.targetMet), refused)
      else if Skipped(o.error) then DemoteWith(t, queue[1..], current, target, report, refused)
      else (t, Err(o.error))
  {
  }

  /** One candidate: a spill that fails because the region is no longer viable is skipped, any other
      failure is passed on. */
  method Attempt(d: D.RegionDirectory, store: D.BackingStore, c: Candidate, current: nat, ghost target: nat, report: Report,
                 refused: set<u16>, ghost queue: seq<Candidate>) returns (failed: Option<TvmError>, left: nat, now: Report)
    requires queue != [] && queue[0] == c && current > target
    modifies d, store
    ensures old(DemoteWith(d.State(store), queue, current, target, report, refused)) ==
      if failed.Some? then (d.State(store), Err(failed.value))
      else DemoteWith(d.State(store), queue[1..], left, target, now, refused)
  {
    UnfoldDemoteWith(d.State(store), queue, current, target, report, refused);
    failed, left, now := None, current, report;
    var r := d.SpillRegion(c.id, store, c.id !in refused);
    if r.Ok? {
      left := Saturating(current - c.used, U64_MAX);
      now := Report(Saturating(report.bytesFreed + c.used, U64_MAX), Saturating(report.regionsSpilled + 1, U16_MAX), report.targetMet);
    } else if !Skipped(r.error) {
      failed := Some(r.error);
    }
  }

  method RunDemoteUntil(d: D.RegionDirectory, store: D.BackingStore, target: nat, policy: WithinTier, refused: set<u16>) returns (r: Result<Report>)
    requires |d.regions| <= U16_MAX + 1
    modifies d, store
    ensures (d.State(store), r) == DemoteUntilWith(old(d.State(store)), target, policy, refused)
  {
    var report := Report(0, 0, false);
    var current: nat := TotalResident(d.regions);
    if current <= target { return Ok(report.(targetMet := true)); }
    var warm, hot := Buckets(d.regions);
    r := SpillQueue(d, store, Sorted(policy, warm) + Sorted(policy, hot), current, target, report, refused);
  }

  method SpillQueue(d: D.RegionDirectory, store: D.BackingStore, queue: seq<Candidate>, resident: nat, target: nat, before: Report, refused: set<u16>)
      returns (r: Result<Report>)
    modifies d, store
    ensures (d.State(store), r) == DemoteWith(old(d.State(store)), queue, resident, target, before, refused)
  {
    var current: nat, report := resident, before;
    ghost var final := DemoteWith(d.State(store), queue, current, target, report, refused);
    var i := 0;
    assert queue[0..] == queue;
    while i < |queue| && current > target
      invariant 0 <= i <= |queue|
      invariant DemoteWith(d.State(store), queue[i..], current, target, report, refused) == final
    {
      assert queue[i..][1..] == queue[i + 1..];
      var failed;
      failed, current, report := Attempt(d, store, queue[i], current, target, report, refused, queue[i..]);
      if failed.Some? { return Err(failed.value); }
      i := i + 1;
    }
    return Ok(report.(targetMet := current <= target));
  }

  method RunAllocOrDemote(d: D.RegionDirectory, store: D.BackingStore, id: u16, size: u32, target: nat, policy: WithinTier, refused: set<u16>)
      returns (r: Outcome)
    requires |d.regions| <= U16_MAX + 1
    modifies d, store
    ensures (d.State(store), r) == AllocOrDemoteWith(old(d.State(store)), id, size, target, policy, refused)
  {
    r := d.AllocAligned(id, size, 1, store);
    if r.Ok? || r.error != AllocationFailed { return; }
    var demoted := RunDemoteUntil(d, store, target, policy, refused);
    if demoted.Err? { return Err(demoted.error); }
    r := d.AllocAligned(id, size, 1, store);
  }
}
