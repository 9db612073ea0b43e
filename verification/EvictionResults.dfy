/** What bulk eviction promises: exact accounting, tier order, idempotence, and fewest spills. */
module EvictionResults {
  import opened Core
  import opened Allocator
  import opened Bits
  import opened Directory
  import opened Eviction
  import T = Tiering

  predicate EligibleAny(slot: Option<Region>) { Eligible(slot, Warm) || Eligible(slot, Hot) }

  /** Regions a spill would take: eligible, and with their memory. A refused spill leaves one without. */
  predicate Takes(slot: Option<Region>) { EligibleAny(slot) && slot.value.memory.Some? }

  /** The candidates that still have their memory. */
  function Loaded(regions: seq<Option<Region>>, q: seq<Candidate>): (r: seq<Candidate>)
    ensures forall c :: c in r <==> c in q && c.id < |regions| && regions[c.id].Some? && regions[c.id].value.memory.Some?
  {
    if q == [] then []
    else
      (if q[0].id < |regions| && regions[q[0].id].Some? && regions[q[0].id].value.memory.Some? then [q[0]] else []) + Loaded(regions, q[1..])
  }

  /** The queue of a call without the candidates it will skip. */
  function LiveQueue(regions: seq<Option<Region>>, policy: WithinTier): seq<Candidate>
    requires |regions| <= U16_MAX + 1
  {
    Loaded(regions, Queue(regions, policy))
  }

  function Sum(q: seq<Candidate>): nat { if q == [] then 0 else q[0].used + Sum(q[1..]) }

  function SpillAll(s: Sys, q: seq<Candidate>): Sys
    decreases q
  {
    if q == [] then s else SpillAll(SpillRegion(s, q[0].id, true).0, q[1..])
  }

  /** Distinct regions a spill would take, with their sizes. */
  ghost predicate Viable(s: Sys, q: seq<Candidate>) {
    q != [] ==>
      && q[0].id < |s.regions| && Takes(s.regions[q[0].id]) && q[0].used == UsedBy(s.regions[q[0].id].value.alloc)
      && (forall c :: c in q[1..] ==> c.id != q[0].id)
      && Viable(s, q[1..])
  }

  lemma {:induction false} ResidentUpdate(regions: seq<Option<Region>>, i: nat, slot: Option<Region>)
    requires i < |regions|
    ensures Resident(regions[i := slot]) == Resident(regions) - ResidentAt(regions[i]) + ResidentAt(slot)
    ensures ResidentAt(regions[i]) <= Resident(regions)
  {
    var n := |regions| - 1;
    if i < n {
      assert regions[i := slot][..n] == regions[..n][i := slot];
      ResidentUpdate(regions[..n], i, slot);
    } else {
      assert regions[i := slot][..n] == regions[..n];
    }
  }

  lemma {:induction false} ResidentBound(regions: seq<Option<Region>>)
    requires forall i :: 0 <= i < |regions| && regions[i].Some? ==> AllocOk(regions[i].value.alloc, regions[i].value.capacity)
    ensures Resident(regions) <= |regions| * U32_MAX
  {
    if regions != [] {
      var last := regions[|regions| - 1];
      ResidentBound(regions[..|regions| - 1]);
      if last.Some? && last.value.alloc.Freelist? { LiveBytesBound(last.value.alloc.live, last.value.capacity); }
    }
  }

  /** Every reader sees the same before and after a spill. */
  lemma SpillShowsSame(s: Sys, id: u16)
    requires Sound(s) && id < |s.regions| && Takes(s.regions[id])
    ensures var t := SpillRegion(s, id, true).0; Sound(t) && T.Abs(t) == T.Abs(s)
  {
    var t := SpillRegion(s, id, true).0;
    StepKeepsSound(s, DoSpill(id), true);
    forall i | 0 <= i < |s.regions| ensures T.Abs(t)[i] == T.Abs(s)[i] {
      if i != id && s.regions[i].Some? { assert (i as u16, s.regions[i].value.generation).0 != id; }
    }
  }

  /** One spill of a region it takes succeeds and frees exactly what the region uses. */
  lemma SpillFrees(s: Sys, id: u16)
    requires Sound(s) && id < |s.regions| && Takes(s.regions[id])
    ensures var (t, o) := SpillRegion(s, id, true); var r := s.regions[id].value;
      && o.Ok? && Sound(t) && |t.regions| == |s.regions|
      && t.regions == s.regions[id := Some(r.(memory := None, residency := Cold))]
      && UsedBy(r.alloc) <= Resident(s.regions) && Resident(t.regions) == Resident(s.regions) - UsedBy(r.alloc)
      && T.Abs(t) == T.Abs(s)
  {
    var r := s.regions[id].value;
    SpillShowsSame(s, id);
    ResidentUpdate(s.regions, id, Some(r.(memory := None, residency := Cold)));
  }

  lemma {:induction false} ViableElsewhere(s: Sys, t: Sys, q: seq<Candidate>, id: u16)
    requires Viable(s, q) && |t.regions| == |s.regions| && forall c :: c in q ==> c.id != id
    requires forall i :: 0 <= i < |s.regions| && i != id ==> t.regions[i] == s.regions[i]
    ensures Viable(t, q)
  {
    if q != [] {
      assert q[0] in q;
      ViableElsewhere(s, t, q[1..], id);
    }
  }

  predicate Named(q: seq<Candidate>, id: nat) { exists c :: c in q && c.id == id }

  /** A batch of spills frees the sum of its sizes and changes nothing but its own regions. */
  lemma {:induction false} SpillAllFrees(s: Sys, q: seq<Candidate>)
    requires Sound(s) && Viable(s, q)
    ensures var t := SpillAll(s, q);
      && Sound(t) && |t.regions| == |s.regions| && T.Abs(t) == T.Abs(s)
      && Sum(q) <= Resident(s.regions) && Resident(t.regions) == Resident(s.regions) - Sum(q)
      && (forall i :: 0 <= i < |s.regions| && !Named(q, i) ==> t.regions[i] == s.regions[i])
      && (forall i :: 0 <= i < |s.regions| && Named(q, i) ==> t.regions[i].Some? && t.regions[i].value.residency == Cold)
    decreases q
  {
    if q != [] {
      var u := SpillRegion(s, q[0].id, true).0;
      SpillFrees(s, q[0].id);
      ViableElsewhere(s, u, q[1..], q[0].id);
      SpillAllFrees(u, q[1..]);
      SpillAllNames(s, u, q);
    }
  }

  lemma SpillAllNames(s: Sys, u: Sys, q: seq<Candidate>)
    requires q != [] && q[0].id < |s.regions| && |u.regions| == |s.regions| && Viable(s, q)
    ensures forall i :: Named(q, i) <==> i == q[0].id || Named(q[1..], i)
    ensures !Named(q[1..], q[0].id)
  {
    assert q[0] in q;
    forall i ensures Named(q, i) <==> i == q[0].id || Named(q[1..], i) {
      if Named(q, i) {
        var c :| c in q && c.id == i;
        assert c == q[0] || c in q[1..];
      }
      if Named(q[1..], i) {
        var c :| c in q[1..] && c.id == i;
        assert c in q;
      }
    }
  }

  // ---------------------------------------------------------------------------------------------
  // The loop spills the shortest prefix that meets the target.
  // ---------------------------------------------------------------------------------------------

  function Cut(q: seq<Candidate>, current: int, target: nat): (k: nat)
    ensures k <= |q|
    decreases q
  {
    if q == [] || current <= target then 0 else 1 + Cut(q[1..], current - q[0].used, target)
  }

  lemma {:induction false} CutIsShortest(q: seq<Candidate>, current: int, target: nat)
    ensures var k := Cut(q, current, target);
      && (k < |q| ==> current - Sum(q[..k]) <= target)
      && forall j :: 0 <= j < k ==> current - Sum(q[..j]) > target
    decreases q
  {
    if q != [] && current > target {
      var k := Cut(q[1..], current - q[0].used, target);
      CutIsShortest(q[1..], current - q[0].used, target);
      forall j | 0 <= j <= |q[1..]| ensures Sum(q[..j + 1]) == q[0].used + Sum(q[1..][..j]) { assert q[..j + 1][1..] == q[1..][..j]; }
      forall j | 0 <= j < k + 1 ensures current - Sum(q[..j]) > target {
        if j > 0 { assert current - q[0].used - Sum(q[1..][..j - 1]) > target; }
      }
    }
  }

  lemma FirstSpilled(s: Sys, q: seq<Candidate>)
    requires Sound(s) && Viable(s, q) && q != []
    ensures var (u, o) := SpillRegion(s, q[0].id, true);
      && o.Ok? && Sound(u) && Viable(u, q[1..]) && q[0].used <= Resident(s.regions) && Resident(u.regions) == Resident(s.regions) - q[0].used
  {
    SpillFrees(s, q[0].id);
    ViableElsewhere(s, SpillRegion(s, q[0].id, true).0, q[1..], q[0].id);
  }

  /** One turn of the loop: no saturation, and the candidate's bytes are gone. */
  lemma DemoteStep(s: Sys, q: seq<Candidate>, target: nat, report: Report)
    requires Sound(s) && Viable(s, q) && q != [] && Resident(s.regions) > target
    requires report.bytesFreed + Resident(s.regions) <= U64_MAX
    ensures var u := SpillRegion(s, q[0].id, true).0;
      && Sound(u) && Viable(u, q[1..]) && q[0].used <= Resident(s.regions) && Resident(u.regions) == Resident(s.regions) - q[0].used
      && Demote(s, q, Resident(s.regions), target, report) ==
         Demote(u, q[1..], Resident(u.regions), target, Freed(report, q[0]))
  {
    FirstSpilled(s, q);
    UnfoldDemote(s, q, Resident(s.regions), target, report);
  }

  lemma PrefixStep(s: Sys, q: seq<Candidate>, k: nat)
    requires k < |q|
    ensures Sum(q[..k + 1]) == q[0].used + Sum(q[1..][..k])
    ensures SpillAll(s, q[..k + 1]) == SpillAll(SpillRegion(s, q[0].id, true).0, q[1..][..k])
  {
    assert q[..k + 1][1..] == q[1..][..k];
  }

  /** What the loop returns, given the prefix it spills. */
  function Outcome(s: Sys, q: seq<Candidate>, target: nat, report: Report): (Sys, Report)
    requires report.bytesFreed + Resident(s.regions) <= U64_MAX
  {
    var current := Resident(s.regions);
    var k := Cut(q, current, target);
    (SpillAll(s, q[..k]), Report(report.bytesFreed + Sum(q[..k]), Saturating(report.regionsSpilled + k, U16_MAX), current - Sum(q[..k]) <= target))
  }

  function Freed(report: Report, c: Candidate): Report {
    Report(report.bytesFreed + c.used, Saturating(report.regionsSpilled + 1, U16_MAX), report.targetMet)
  }

  lemma OutcomeStep(s: Sys, u: Sys, q: seq<Candidate>, target: nat, report: Report)
    requires q != [] && Resident(s.regions) > target && q[0].used <= Resident(s.regions)
    requires u == SpillRegion(s, q[0].id, true).0 && Resident(u.regions) == Resident(s.regions) - q[0].used
    requires report.bytesFreed + Resident(s.regions) <= U64_MAX
    ensures Outcome(s, q, target, report) == Outcome(u, q[1..], target, Freed(report, q[0]))
  {
    var k := Cut(q[1..], Resident(u.regions), target);
    assert Cut(q, Resident(s.regions), target) == k + 1;
    PrefixStep(s, q, k);
  }

  lemma {:induction false} DemoteSpillsPrefix(s: Sys, q: seq<Candidate>, target: nat, report: Report)
    requires Sound(s) && Viable(s, q)
    requires report.bytesFreed + Resident(s.regions) <= U64_MAX && report.regionsSpilled <= U16_MAX
    ensures Demote(s, q, Resident(s.regions), target, report) == Outcome(s, q, target, report)
    decreases q
  {
    if q != [] && Resident(s.regions) > target {
      var u := SpillRegion(s, q[0].id, true).0;
      DemoteStep(s, q, target, report);
      DemoteSpillsPrefix(u, q[1..], target, Freed(report, q[0]));
      OutcomeStep(s, u, q, target, report);
    }
  }

  // ---------------------------------------------------------------------------------------------
  // The queue.
  // ---------------------------------------------------------------------------------------------

  /** Ids in a list are all different. */
  ghost predicate Distinct(q: seq<Candidate>) {
    q != [] ==> (forall c :: c in q[1..] ==> c.id != q[0].id) && Distinct(q[1..])
  }

  lemma {:induction false} OrderedDistinct(policy: WithinTier, q: seq<Candidate>)
    requires InOrder(policy, q) && forall a, b :: a in q && b in q && a.id == b.id ==> a == b
    ensures Distinct(q)
  {
    if q != [] {
      forall c | c in q[1..] ensures c.id != q[0].id { assert c in q && q[0] in q && Precedes(policy, q[0], c); }
      OrderedDistinct(policy, q[1..]);
    }
  }

  lemma {:induction false} DistinctConcat(a: seq<Candidate>, b: seq<Candidate>)
    requires Distinct(a) && Distinct(b) && forall x, y :: x in a && y in b ==> x.id != y.id
    ensures Distinct(a + b)
  {
    if a == [] { assert a + b == b; } else {
      assert (a + b)[1..] == a[1..] + b && a[0] in a;
      DistinctConcat(a[1..], b);
    }
  }

  lemma {:induction false} ViableFrom(s: Sys, q: seq<Candidate>)
    requires Distinct(q)
    requires forall c :: c in q ==> c.id < |s.regions| && Takes(s.regions[c.id]) && c.used == UsedBy(s.regions[c.id].value.alloc)
    ensures Viable(s, q)
  {
    if q != [] {
      assert q[0] in q;
      ViableFrom(s, q[1..]);
    }
  }

  lemma SortedBucket(regions: seq<Option<Region>>, tier: Residency, policy: WithinTier)
    requires |regions| <= U16_MAX + 1
    ensures var q := Sorted(policy, Bucket(regions, tier));
      && InOrder(policy, q) && Distinct(q)
      && (forall c :: c in q <==> c in Bucket(regions, tier))
      && forall id: u16 :: id < |regions| && Eligible(regions[id], tier) ==> Candidate(id, UsedBy(regions[id].value.alloc)) in q
  {
    var b := Bucket(regions, tier);
    SortedMembers(policy, b);
    SortedOrder(policy, b);
    forall x, y | x in b && y in b && x.id == y.id ensures x == y {}
    OrderedDistinct(policy, Sorted(policy, b));
    forall id: u16 | id < |regions| && Eligible(regions[id], tier) ensures Candidate(id, UsedBy(regions[id].value.alloc)) in b {
      BucketComplete(regions, tier, id);
    }
  }

  /** Distinct eligible regions with their sizes, with or without their memory. */
  ghost predicate Admissible(s: Sys, q: seq<Candidate>) {
    Distinct(q) && forall c :: c in q ==> c.id < |s.regions| && EligibleAny(s.regions[c.id]) && c.used == UsedBy(s.regions[c.id].value.alloc)
  }

  lemma QueueAdmissible(s: Sys, policy: WithinTier)
    requires Sound(s)
    ensures Admissible(s, Queue(s.regions, policy))
  {
    SortedBucket(s.regions, Warm, policy);
    SortedBucket(s.regions, Hot, policy);
    var w, h := Sorted(policy, Bucket(s.regions, Warm)), Sorted(policy, Bucket(s.regions, Hot));
    forall x, y | x in w && y in h ensures x.id != y.id { assert Eligible(s.regions[x.id], Warm) && Eligible(s.regions[y.id], Hot); }
    DistinctConcat(w, h);
  }

  lemma {:induction false} LoadedDistinct(regions: seq<Option<Region>>, q: seq<Candidate>)
    requires Distinct(q)
    ensures Distinct(Loaded(regions, q))
  {
    if q != [] {
      var rest := Loaded(regions, q[1..]);
      LoadedDistinct(regions, q[1..]);
      assert [] + rest == rest && ([q[0]] + rest)[1..] == rest;
    }
  }

  lemma QueueViable(s: Sys, policy: WithinTier)
    requires Sound(s)
    ensures Viable(s, LiveQueue(s.regions, policy))
  {
    QueueAdmissible(s, policy);
    LoadedDistinct(s.regions, Queue(s.regions, policy));
    ViableFrom(s, LiveQueue(s.regions, policy));
  }

  lemma {:induction false} LoadedElsewhere(a: seq<Option<Region>>, b: seq<Option<Region>>, q: seq<Candidate>)
    requires |a| == |b| && forall c :: c in q && c.id < |a| ==> a[c.id] == b[c.id]
    ensures Loaded(a, q) == Loaded(b, q)
  {
    if q != [] {
      assert q[0] in q;
      LoadedElsewhere(a, b, q[1..]);
    }
  }

  /** After the head is dealt with the rest of the queue is as before. */
  lemma RestAdmissible(s: Sys, q: seq<Candidate>, ok: bool)
    requires Admissible(s, q) && q != []
    ensures var u := SpillRegion(s, q[0].id, ok).0;
      Admissible(s, q[1..]) && Admissible(u, q[1..]) && Loaded(u.regions, q[1..]) == Loaded(s.regions, q[1..])
  {
    var u := SpillRegion(s, q[0].id, ok).0;
    SpillIsLocal(s, q[0].id, ok);
    forall c | c in q[1..] ensures c in q && c.id != q[0].id {}
    LoadedElsewhere(s.regions, u.regions, q[1..]);
  }

  lemma LostSkipped(s: Sys, q: seq<Candidate>, ok: bool)
    requires Admissible(s, q) && q != []
    ensures s.regions[q[0].id].value.memory.None? ==> SpillRegion(s, q[0].id, ok) == (s, Err(NotResident))
    ensures Loaded(s.regions, q) == if s.regions[q[0].id].value.memory.None? then Loaded(s.regions, q[1..]) else [q[0]] + Loaded(s.regions, q[1..])
  {
    assert q[0] in q;
  }

  lemma HeadAdmissible(s: Sys, q: seq<Candidate>)
    requires Admissible(s, q) && q != []
    ensures q[0].id < |s.regions| && EligibleAny(s.regions[q[0].id]) && q == [q[0]] + q[1..]
  {
    assert q[0] in q;
  }

  lemma PlainLostHead(s: Sys, q: seq<Candidate>, current: nat, target: nat, report: Report)
    requires current > target && q != [] && q[0].id < |s.regions| && EligibleAny(s.regions[q[0].id]) && s.regions[q[0].id].value.memory.None?
    ensures Demote(s, q, current, target, report) == Demote(s, q[1..], current, target, report)
  {
    UnfoldDemote(s, q, current, target, report);
  }

  lemma PlainSameHead(s: Sys, c: Candidate, p: seq<Candidate>, q: seq<Candidate>, current: nat, target: nat, report: Report)
    requires current > target && c.id < |s.regions| && Takes(s.regions[c.id])
    requires var left := Saturating(current - c.used, U64_MAX);
      var now := Report(Saturating(report.bytesFreed + c.used, U64_MAX), Saturating(report.regionsSpilled + 1, U16_MAX), report.targetMet);
      var u := SpillRegion(s, c.id, true).0;
      Demote(u, p, left, target, now) == Demote(u, q, left, target, now)
    ensures Demote(s, [c] + p, current, target, report) == Demote(s, [c] + q, current, target, report)
  {
    UnfoldDemote(s, [c] + p, current, target, report);
    UnfoldDemote(s, [c] + q, current, target, report);
    assert ([c] + p)[1..] == p && ([c] + q)[1..] == q;
  }

  /** The loop does the same without the candidates that lost their memory. */
  lemma {:induction false} SkipLost(s: Sys, q: seq<Candidate>, current: nat, target: nat, report: Report)
    requires Admissible(s, q)
    ensures Demote(s, q, current, target, report) == Demote(s, Loaded(s.regions, q), current, target, report)
    decreases q
  {
    if q != [] && current > target {
      var c, rest := q[0], q[1..];
      HeadAdmissible(s, q);
      LostSkipped(s, q, true);
      RestAdmissible(s, q, true);
      if s.regions[c.id].value.memory.None? {
        PlainLostHead(s, q, current, target, report);
        SkipLost(s, rest, current, target, report);
      } else {
        SkipLost(SpillRegion(s, c.id, true).0, rest, Saturating(current - c.used, U64_MAX), target,
                 Report(Saturating(report.bytesFreed + c.used, U64_MAX), Saturating(report.regionsSpilled + 1, U16_MAX), report.targetMet));
        PlainSameHead(s, c, rest, Loaded(s.regions, rest), current, target, report);
      }
    }
  }

  /** Two queues with the same head, a region that a spill would take. */
  lemma SameHead(s: Sys, c: Candidate, p: seq<Candidate>, q: seq<Candidate>, current: nat, target: nat, report: Report, refused: set<u16>)
    requires current > target && c.id < |s.regions| && Takes(s.regions[c.id])
    requires var left := Saturating(current - c.used, U64_MAX);
      var now := Report(Saturating(report.bytesFreed + c.used, U64_MAX), Saturating(report.regionsSpilled + 1, U16_MAX), report.targetMet);
      var u := SpillRegion(s, c.id, c.id !in refused).0;
      DemoteWith(u, p, left, target, now, refused) == DemoteWith(u, q, left, target, now, refused)
    ensures DemoteWith(s, [c] + p, current, target, report, refused) == DemoteWith(s, [c] + q, current, target, report, refused)
  {
    UnfoldDemoteWith(s, [c] + p, current, target, report, refused);
    UnfoldDemoteWith(s, [c] + q, current, target, report, refused);
    assert ([c] + p)[1..] == p && ([c] + q)[1..] == q;
  }

  lemma LostHead(s: Sys, q: seq<Candidate>, current: nat, target: nat, report: Report, refused: set<u16>)
    requires current > target && q != [] && q[0].id < |s.regions| && EligibleAny(s.regions[q[0].id]) && s.regions[q[0].id].value.memory.None?
    ensures DemoteWith(s, q, current, target, report, refused) == DemoteWith(s, q[1..], current, target, report, refused)
  {
    UnfoldDemoteWith(s, q, current, target, report, refused);
  }

  lemma {:induction false} SkipLostWith(s: Sys, q: seq<Candidate>, current: nat, target: nat, report: Report, refused: set<u16>)
    requires Admissible(s, q)
    ensures DemoteWith(s, q, current, target, report, refused) == DemoteWith(s, Loaded(s.regions, q), current, target, report, refused)
    decreases q
  {
    if q != [] && current > target {
      var c, rest, ok := q[0], q[1..], q[0].id !in refused;
      HeadAdmissible(s, q);
      LostSkipped(s, q, ok);
      RestAdmissible(s, q, ok);
      if s.regions[c.id].value.memory.None? {
        LostHead(s, q, current, target, report, refused);
        SkipLostWith(s, rest, current, target, report, refused);
      } else {
        SkipLostWith(SpillRegion(s, c.id, ok).0, rest, Saturating(current - c.used, U64_MAX), target,
                     Report(Saturating(report.bytesFreed + c.used, U64_MAX), Saturating(report.regionsSpilled + 1, U16_MAX), report.targetMet), refused);
        SameHead(s, c, rest, Loaded(s.regions, rest), current, target, report, refused);
      }
    }
  }

  lemma {:induction false} ViablePrefix(s: Sys, q: seq<Candidate>, k: nat)
    requires Viable(s, q) && k <= |q|
    ensures Viable(s, q[..k])
  {
    if k > 0 {
      assert q[..k][1..] == q[1..][..k - 1];
      ViablePrefix(s, q[1..], k - 1);
    }
  }

  /** `demote_until` spills the shortest prefix of its queue that meets the target, or all of it, leaving out
      what has no memory. */
  lemma DemoteUntilSpillsPrefix(s: Sys, target: nat, policy: WithinTier)
    requires Sound(s)
    ensures var q := LiveQueue(s.regions, policy); var k := Cut(q, Resident(s.regions), target);
      var (t, r) := DemoteUntil(s, target, policy);
      && t == SpillAll(s, q[..k]) && Viable(s, q[..k]) && Sum(q[..k]) <= Resident(s.regions)
      && r == Report(Sum(q[..k]), Saturating(k, U16_MAX), Resident(s.regions) - Sum(q[..k]) <= target)
  {
    QueueViable(s, policy);
    ResidentFits(s);
    QueueAdmissible(s, policy);
    SkipLost(s, Queue(s.regions, policy), Resident(s.regions), target, Report(0, 0, false));
    PrefixViable(s, LiveQueue(s.regions, policy), target);
    PrefixSpilled(s, LiveQueue(s.regions, policy), target);
  }

  lemma PrefixViable(s: Sys, q: seq<Candidate>, target: nat)
    requires Sound(s) && Viable(s, q)
    ensures var k := Cut(q, Resident(s.regions), target); Viable(s, q[..k]) && Sum(q[..k]) <= Resident(s.regions)
  {
    var k := Cut(q, Resident(s.regions), target);
    ViablePrefix(s, q, k);
    SpillAllFrees(s, q[..k]);
  }

  lemma PrefixSpilled(s: Sys, q: seq<Candidate>, target: nat)
    requires Sound(s) && Viable(s, q) && Resident(s.regions) <= U64_MAX
    ensures var k := Cut(q, Resident(s.regions), target); var total := Resident(s.regions);
      Sum(q[..k]) <= total &&
      (if total <= target then (s, Report(0, 0, true)) else Demote(s, q, total, target, Report(0, 0, false)))
      == (SpillAll(s, q[..k]), Report(Sum(q[..k]), Saturating(k, U16_MAX), total - Sum(q[..k]) <= target))
  {
    PrefixViable(s, q, target);
    var k := Cut(q, Resident(s.regions), target);
    if Resident(s.regions) > target { DemoteSpillsPrefix(s, q, target, Report(0, 0, false)); } else { assert q[..k] == []; }
  }

  lemma AllocsInv(s: Sys)
    requires Sound(s)
    ensures forall i :: 0 <= i < |s.regions| && s.regions[i].Some? ==> AllocOk(s.regions[i].value.alloc, s.regions[i].value.capacity)
  {
    assert AllocsOk(s);
  }

  // ---------------------------------------------------------------------------------------------
  // Main results.
  // ---------------------------------------------------------------------------------------------

  /** Resident bytes fall by exactly the bytes reported freed, the target is met exactly when the
      report says so, and what a reader sees does not change. */
  lemma Accounting(s: Sys, target: nat, policy: WithinTier)
    requires Sound(s)
    ensures var (t, r) := DemoteUntil(s, target, policy);
      && Sound(t) && T.Abs(t) == T.Abs(s)
      && r.bytesFreed <= Resident(s.regions) && Resident(t.regions) == Resident(s.regions) - r.bytesFreed
      && (r.targetMet <==> Resident(t.regions) <= target)
  {
    DemoteUntilSpillsPrefix(s, target, policy);
    var q := LiveQueue(s.regions, policy);
    SpillAllFrees(s, q[..Cut(q, Resident(s.regions), target)]);
  }

  /** Demoting frees no room inside a region, so the second attempt of `alloc_or_demote` fails whenever
      the first one does: the answer is always the plain allocation's, and all a failing call does is demote. */
  lemma RetryNeverHelps(s: Sys, id: u16, size: u32, target: nat, policy: WithinTier)
    requires Sound(s)
    ensures var (t, o) := AllocOrDemote(s, id, size, target, policy); var (u, p) := AllocAligned(s, id, size, 1);
      && o == p
      && t == if p == Err(AllocationFailed) then DemoteUntil(s, target, policy).0 else u
  {
    DemoteKeepsAlloc(s, target, policy, id);
  }

  /** Demoting a region changes its memory and its tier. */
  lemma DemoteKeepsAlloc(s: Sys, target: nat, policy: WithinTier, id: u16)
    requires Sound(s)
    ensures var t := DemoteUntil(s, target, policy).0;
      && (t.Lookup(id).Some? <==> s.Lookup(id).Some?)
      && (s.Lookup(id).Some? ==>
          var r, r' := s.Lookup(id).value, t.Lookup(id).value; r'.alloc == r.alloc && r'.capacity == r.capacity && r'.generation == r.generation)
  {
    DemoteUntilSpillsPrefix(s, target, policy);
    SpillAllKeepsAlloc(s, LiveQueue(s.regions, policy)[..Cut(LiveQueue(s.regions, policy), Resident(s.regions), target)], id);
  }

  lemma {:induction false} SpillAllKeepsAlloc(s: Sys, q: seq<Candidate>, id: u16)
    ensures var t := SpillAll(s, q);
      && (t.Lookup(id).Some? <==> s.Lookup(id).Some?)
      && (s.Lookup(id).Some? ==>
          var r, r' := s.Lookup(id).value, t.Lookup(id).value; r'.alloc == r.alloc && r'.capacity == r.capacity && r'.generation == r.generation)
    decreases q
  {
    if q != [] {
      SpillIsLocal(s, q[0].id, true);
      SpillAllKeepsAlloc(SpillRegion(s, q[0].id, true).0, q[1..], id);
    }
  }

  // ---------------------------------------------------------------------------------------------
  // A store that refuses.
  // ---------------------------------------------------------------------------------------------

  /** The first candidate the store refuses. */
  function FirstRefused(q: seq<Candidate>, refused: set<u16>): (n: nat)
    ensures n <= |q| && (n < |q| ==> q[n].id in refused) && forall i :: 0 <= i < n ==> q[i].id !in refused
  {
    if q == [] || q[0].id in refused then 0 else 1 + FirstRefused(q[1..], refused)
  }

  /** What the loop returns when the store refuses candidate `n`: the ones before it are spilled, and it
      has given up its memory. */
  function Aborted(s: Sys, q: seq<Candidate>, n: nat): (Sys, Result<Report>)
    requires n < |q|
  {
    (SpillRegion(SpillAll(s, q[..n]), q[n].id, false).0, Err(BackingStore))
  }

  lemma AbortedStep(s: Sys, q: seq<Candidate>, n: nat)
    requires n + 1 < |q|
    ensures Aborted(s, q, n + 1) == Aborted(SpillRegion(s, q[0].id, true).0, q[1..], n)
  {
    PrefixStep(s, q, n);
  }

  /** The accepting store's answer, unless a candidate that is needed is refused. */
  function WithAnswer(s: Sys, q: seq<Candidate>, target: nat, report: Report, refused: set<u16>): (Sys, Result<Report>) {
    var n := FirstRefused(q, refused);
    if n < Cut(q, Resident(s.regions), target) then Aborted(s, q, n)
    else
      var (t, r) := Demote(s, q, Resident(s.regions), target, report);
      (t, Ok(r))
  }

  lemma AnswerStep(s: Sys, q: seq<Candidate>, target: nat, report: Report, refused: set<u16>)
    requires Sound(s) && Viable(s, q) && q != [] && Resident(s.regions) > target && q[0].id !in refused
    requires report.bytesFreed + Resident(s.regions) <= U64_MAX
    ensures WithAnswer(s, q, target, report, refused) == WithAnswer(SpillRegion(s, q[0].id, true).0, q[1..], target, Freed(report, q[0]), refused)
  {
    DemoteStep(s, q, target, report);
    var n := FirstRefused(q[1..], refused);
    assert FirstRefused(q, refused) == n + 1;
    if n < |q[1..]| { AbortedStep(s, q, n); }
  }

  lemma AcceptedStep(s: Sys, q: seq<Candidate>, target: nat, report: Report, refused: set<u16>)
    requires Sound(s) && Viable(s, q) && q != [] && Resident(s.regions) > target && q[0].id !in refused
    requires report.bytesFreed + Resident(s.regions) <= U64_MAX
    ensures var u := SpillRegion(s, q[0].id, true).0;
      DemoteWith(s, q, Resident(s.regions), target, report, refused) == DemoteWith(u, q[1..], Resident(u.regions), target, Freed(report, q[0]), refused)
  {
    FirstSpilled(s, q);
    UnfoldDemoteWith(s, q, Resident(s.regions), target, report, refused);
  }

  lemma RefusedStep(s: Sys, q: seq<Candidate>, target: nat, report: Report, refused: set<u16>)
    requires Sound(s) && Viable(s, q) && q != [] && Resident(s.regions) > target && q[0].id in refused
    ensures DemoteWith(s, q, Resident(s.regions), target, report, refused) == Aborted(s, q, 0)
  {
    UnfoldDemoteWith(s, q, Resident(s.regions), target, report, refused);
    RefusedSpill(s, q);
    assert q[..0] == [];
  }

  lemma {:induction false} DemoteWithIs(s: Sys, q: seq<Candidate>, target: nat, report: Report, refused: set<u16>)
    requires Sound(s) && Viable(s, q) && report.bytesFreed + Resident(s.regions) <= U64_MAX
    ensures DemoteWith(s, q, Resident(s.regions), target, report, refused) == WithAnswer(s, q, target, report, refused)
    decreases q
  {
    if q != [] && Resident(s.regions) > target {
      if q[0].id in refused {
        RefusedStep(s, q, target, report, refused);
      } else {
        FirstSpilled(s, q);
        AnswerStep(s, q, target, report, refused);
        AcceptedStep(s, q, target, report, refused);
        DemoteWithIs(SpillRegion(s, q[0].id, true).0, q[1..], target, Freed(report, q[0]), refused);
      }
    }
  }

  lemma RefusedSpill(s: Sys, q: seq<Candidate>)
    requires Sound(s) && Viable(s, q) && q != []
    ensures SpillRegion(s, q[0].id, false).1 == Err(BackingStore)
  {
  }

  /** With any store: the accepting store's answer unless a candidate that is needed is refused; then the
      candidates before it are spilled and the call fails. */
  lemma DemoteUntilWithIs(s: Sys, target: nat, policy: WithinTier, refused: set<u16>)
    requires Sound(s)
    ensures var q := LiveQueue(s.regions, policy); var n := FirstRefused(q, refused); var plain := DemoteUntil(s, target, policy);
      DemoteUntilWith(s, target, policy, refused) ==
      if n < Cut(q, Resident(s.regions), target) then Aborted(s, q, n) else (plain.0, Ok(plain.1))
  {
    QueueViable(s, policy);
    ResidentFits(s);
    QueueAdmissible(s, policy);
    SkipLost(s, Queue(s.regions, policy), Resident(s.regions), target, Report(0, 0, false));
    SkipLostWith(s, Queue(s.regions, policy), Resident(s.regions), target, Report(0, 0, false), refused);
    QueueWithIs(s, LiveQueue(s.regions, policy), target, refused);
  }

  lemma ResidentFits(s: Sys)
    requires Sound(s)
    ensures Resident(s.regions) <= U64_MAX
  {
    AllocsInv(s);
    ResidentBound(s.regions);
  }

  lemma QueueWithIs(s: Sys, q: seq<Candidate>, target: nat, refused: set<u16>)
    requires Sound(s) && Viable(s, q) && Resident(s.regions) <= U64_MAX
    ensures var n := FirstRefused(q, refused); var total := Resident(s.regions); var none := Report(0, 0, false);
      var plain := if total <= target then (s, Report(0, 0, true)) else Demote(s, q, total, target, none);
      (if total <= target then (s, Ok(Report(0, 0, true))) else DemoteWith(s, q, total, target, none, refused)) ==
      if n < Cut(q, total, target) then Aborted(s, q, n) else (plain.0, Ok(plain.1))
  {
    if Resident(s.regions) > target { DemoteWithIs(s, q, target, Report(0, 0, false), refused); }
  }

  /** When a candidate that is needed is refused, the call fails and loses bytes of no other region, and
      of that one exactly when the store does not already hold them. */
  lemma AbortLosesIff(s: Sys, target: nat, policy: WithinTier, refused: set<u16>)
    requires Sound(s)
    requires var q := LiveQueue(s.regions, policy); FirstRefused(q, refused) < Cut(q, Resident(s.regions), target)
    ensures var (t, o) := DemoteUntilWith(s, target, policy, refused);
      var q := LiveQueue(s.regions, policy); var n := FirstRefused(q, refused);
      && o == Err(BackingStore) && q[n].id < |s.regions| && s.regions[q[n].id].Some? && |t.regions| == |s.regions|
      && var r := s.regions[q[n].id].value; var key := (q[n].id, r.generation);
      && r.memory.Some?
      && (forall i: u16 :: i != q[n].id ==> T.At(T.Abs(t), i) == T.At(T.Abs(s), i))
      && (T.Abs(t) == T.Abs(s) <==> key in s.store && s.store[key] == r.memory.value.data)
  {
    DemoteUntilWithIs(s, target, policy, refused);
    QueueViable(s, policy);
    var q := LiveQueue(s.regions, policy);
    AbortedLoses(s, q, FirstRefused(q, refused));
  }

  /** Spilling other regions changes nothing about the refused one. */
  lemma AbortedLoses(s: Sys, q: seq<Candidate>, n: nat)
    requires Sound(s) && Viable(s, q) && n < |q|
    ensures var t := Aborted(s, q, n).0; var id := q[n].id;
      && id < |s.regions| && s.regions[id].Some? && |t.regions| == |s.regions|
      && var r := s.regions[id].value; var key := (id, r.generation);
      && r.memory.Some?
      && (forall i: u16 :: i != id ==> T.At(T.Abs(t), i) == T.At(T.Abs(s), i))
      && (T.Abs(t) == T.Abs(s) <==> key in s.store && s.store[key] == r.memory.value.data)
    decreases n
  {
    if n == 0 {
      assert q[..0] == [];
      RefusedLoses(s, q[0].id);
    } else {
      var u := SpillRegion(s, q[0].id, true).0;
      SpillFrees(s, q[0].id);
      FirstSpilled(s, q);
      AbortedStep(s, q, n - 1);
      AbortedLoses(u, q[1..], n - 1);
      assert q[n] in q[1..];
      OtherKeyKept(s, q[0].id, q[n].id);
    }
  }

  lemma OtherKeyKept(s: Sys, id: u16, other: u16)
    requires Sound(s) && id < |s.regions| && Takes(s.regions[id]) && other != id && other < |s.regions|
    ensures var u := SpillRegion(s, id, true).0;
      && |u.regions| == |s.regions| && u.regions[other] == s.regions[other]
      && (forall g: u16 :: (other, g) in u.store <==> (other, g) in s.store)
      && (forall g: u16 :: (other, g) in s.store ==> u.store[(other, g)] == s.store[(other, g)])
  {
  }

  lemma RefusedLoses(s: Sys, id: u16)
    requires Sound(s) && id < |s.regions| && Takes(s.regions[id])
    ensures var t := SpillRegion(s, id, false).0; var r := s.regions[id].value; var key := (id, r.generation);
      && |t.regions| == |s.regions| && r.memory.Some?
      && (forall i: u16 :: i != id ==> T.At(T.Abs(t), i) == T.At(T.Abs(s), i))
      && (T.Abs(t) == T.Abs(s) <==> key in s.store && s.store[key] == r.memory.value.data)
  {
    T.FailedSpillVisibleIff(s, id);
  }

  /** The refused region keeps its tier and its size without its memory. */
  lemma {:induction false} AbortLeavesLost(s: Sys, q: seq<Candidate>, n: nat)
    requires Sound(s) && Viable(s, q) && n < |q|
    ensures var t := Aborted(s, q, n).0; var id := q[n].id;
      && Sound(t) && id < |s.regions| && Takes(s.regions[id]) && |t.regions| == |s.regions|
      && t.regions[id] == Some(s.regions[id].value.(memory := None)) && q[n].used == UsedBy(s.regions[id].value.alloc)
    decreases n
  {
    if n == 0 {
      assert q[..0] == [];
      StepKeepsSound(s, DoSpill(q[0].id), false);
    } else {
      FirstSpilled(s, q);
      AbortedStep(s, q, n - 1);
      AbortLeavesLost(SpillRegion(s, q[0].id, true).0, q[1..], n - 1);
      assert q[n] in q[1..];
      OtherKeyKept(s, q[0].id, q[n].id);
    }
  }

  /** A region that counts as resident and has no memory. */
  predicate Lost(slot: Option<Region>) { slot.Some? && Counts(slot.value.residency) && slot.value.memory.None? }

  /** No call ever touches it, whatever the target, the policy and the store; and it counts: a target below
      its size is never met. */
  lemma LostForEver(s: Sys, target: nat, policy: WithinTier, refused: set<u16>, i: u16)
    requires Sound(s) && i < |s.regions| && Lost(s.regions[i])
    ensures var (t, r) := DemoteUntilWith(s, target, policy, refused);
      && Sound(t) && i < |t.regions| && t.regions[i] == s.regions[i]
      && (r.Ok? && r.value.targetMet ==> UsedBy(s.regions[i].value.alloc) <= target)
  {
    var q := LiveQueue(s.regions, policy);
    var n := FirstRefused(q, refused);
    QueueViable(s, policy);
    DemoteUntilWithIs(s, target, policy, refused);
    if n < Cut(q, Resident(s.regions), target) {
      AbortLeavesLost(s, q, n);
      AbortedSpares(s, q, n, i);
    } else {
      var (t, r) := DemoteUntil(s, target, policy);
      Accounting(s, target, policy);
      OnlyEligibleChange(s, target, policy, i);
      ResidentUpdate(t.regions, i, None);
    }
  }

  /** An aborted batch leaves alone what a spill would not take. */
  lemma AbortedSpares(s: Sys, q: seq<Candidate>, n: nat, i: u16)
    requires Sound(s) && Viable(s, q) && n < |q| && i < |s.regions| && !Takes(s.regions[i])
    ensures var t := Aborted(s, q, n).0; i < |t.regions| && t.regions[i] == s.regions[i]
  {
    ViablePrefix(s, q, n);
    SpillAllFrees(s, q[..n]);
    var u := SpillAll(s, q[..n]);
    ViableMember(s, q, q[n]);
    SpillIsLocal(u, q[n].id, false);
    if Named(q[..n], i) {
      var c :| c in q[..n] && c.id == i;
      ViableMember(s, q, c);
    }
  }

  /** After a call that the store aborted, no later call, under any policy and with any store, ever gets
      below the size of the region it lost. */
  lemma CallAfterAbort(s: Sys, target: nat, policy: WithinTier, refused: set<u16>, again: nat, policy': WithinTier, refused': set<u16>)
    requires Sound(s)
    requires var q := LiveQueue(s.regions, policy); FirstRefused(q, refused) < Cut(q, Resident(s.regions), target)
    ensures var t := DemoteUntilWith(s, target, policy, refused).0;
      var c := LiveQueue(s.regions, policy)[FirstRefused(LiveQueue(s.regions, policy), refused)];
      && Sound(t) && c.id < |t.regions| && Lost(t.regions[c.id])
      && var (u, r) := DemoteUntilWith(t, again, policy', refused');
      && c.id < |u.regions| && u.regions[c.id] == t.regions[c.id] && (r.Ok? && r.value.targetMet ==> c.used <= again)
  {
    var q := LiveQueue(s.regions, policy);
    var n := FirstRefused(q, refused);
    QueueViable(s, policy);
    DemoteUntilWithIs(s, target, policy, refused);
    AbortLeavesLost(s, q, n);
    LostForEver(Aborted(s, q, n).0, again, policy', refused', q[n].id);
  }

  /** A Hot region with one byte in use. */
  predicate OneByte(s: Sys) {
    s == AllocAligned(CreateRegion(Sys([], [], 1, map[]), PolicyFor(BlobArena), 1, BumpKind, [5]).0, 0, 1, 1).0
  }

  lemma OneByteIs(s: Sys)
    requires OneByte(s)
    ensures s.regions == [Some(Region(1, 1, Hot, false, false, true, Some(Mem(1, [5])), Bump(1)))]
  {
    assert AlignUp(0, 1) == Some(0);
  }

  lemma OneBucket(slot: Option<Region>, tier: Residency)
    ensures Bucket([slot], tier) == if Eligible(slot, tier) then [Candidate(0, UsedBy(slot.value.alloc))] else []
  {
    assert [slot][..0] == [];
  }

  lemma SortedOne(policy: WithinTier, c: Candidate)
    ensures Sorted(policy, [c]) == [c]
  {
    assert [c][..0] == [];
  }

  lemma OneQueue(slot: Option<Region>)
    requires Eligible(slot, Hot)
    ensures var used := UsedBy(slot.value.alloc); Resident([slot]) == used && Queue([slot], InsertionOrder) == [Candidate(0, used)]
  {
    OneBucket(slot, Warm);
    OneBucket(slot, Hot);
    SortedOne(InsertionOrder, Candidate(0, UsedBy(slot.value.alloc)));
    assert [slot][..0] == [];
  }

  /** One candidate, one attempt. */
  lemma OneAttempt(s: Sys, c: Candidate, refused: set<u16>)
    requires |s.regions| <= U16_MAX + 1 && Queue(s.regions, InsertionOrder) == [c] && Resident(s.regions) == c.used == 1
    ensures var (t, o) := SpillRegion(s, c.id, c.id !in refused);
      o.Err? ==> DemoteUntilWith(s, 0, InsertionOrder, refused) == (t, if Skipped(o.error) then Ok(Report(0, 0, false)) else Err(o.error))
  {
    UnfoldDemoteWith(s, [c], 1, 0, Report(0, 0, false), refused);
    assert [c][1..] == [];
  }

  lemma OneRefusal(s: Sys, r: Region, refused: set<u16>)
    requires s.regions == [Some(r)] && Eligible(Some(r), Hot) && UsedBy(r.alloc) == 1 && (r.memory.Some? ==> 0 in refused)
    ensures DemoteUntilWith(s, 0, InsertionOrder, refused) ==
      (s.Set(0, r.(memory := None)), if r.memory.Some? then Err(BackingStore) else Ok(Report(0, 0, false)))
  {
    OneQueue(Some(r));
    OneAttempt(s, Candidate(0, 1), refused);
    assert s.regions[0 := Some(r)] == s.regions;
  }

  /** From an empty directory: create, allocate, a `demote_until` that the store aborts, and the same call
      with a store that accepts frees nothing and misses its target. */
  lemma AbortIsFinal(s: Sys, t: Sys)
    requires OneByte(s) && |s.regions| == 1 && s.regions[0].Some? && t == s.Set(0, s.regions[0].value.(memory := None))
    ensures DemoteUntilWith(s, 0, InsertionOrder, {0}) == (t, Err(BackingStore))
    ensures DemoteUntilWith(t, 0, InsertionOrder, {}) == (t, Ok(Report(0, 0, false)))
  {
    OneByteIs(s);
    RefusedThenNot(s, t, s.regions[0].value);
  }

  lemma RefusedThenNot(s: Sys, t: Sys, r: Region)
    requires s.regions == [Some(r)] && Eligible(Some(r), Hot) && UsedBy(r.alloc) == 1 && r.memory.Some? && t == s.Set(0, r.(memory := None))
    ensures DemoteUntilWith(s, 0, InsertionOrder, {0}) == (t, Err(BackingStore))
    ensures DemoteUntilWith(t, 0, InsertionOrder, {}) == (t, Ok(Report(0, 0, false)))
  {
    var lost := r.(memory := None);
    OneRefusal(s, r, {0});
    OneRefusal(t, lost, {});
    assert t.Set(0, lost) == t;
  }

  /** With any store the second attempt of `alloc_or_demote` never succeeds: a failing allocation either
      fails again, or the call ends with the store's error. */
  lemma RetryFailsOrStoreDoes(s: Sys, id: u16, size: u32, target: nat, policy: WithinTier, refused: set<u16>)
    requires Sound(s)
    ensures var (t, o) := AllocOrDemoteWith(s, id, size, target, policy, refused); var (u, p) := AllocAligned(s, id, size, 1);
      var q := LiveQueue(s.regions, policy); var aborts := FirstRefused(q, refused) < Cut(q, Resident(s.regions), target);
      && (p != Err(AllocationFailed) ==> (t, o) == (u, p))
      && (p == Err(AllocationFailed) ==> o == if aborts then Err(BackingStore) else p)
  {
    DemoteUntilWithIs(s, target, policy, refused);
    RetryNeverHelps(s, id, size, target, policy);
    if AllocAligned(s, id, size, 1).1 == Err(AllocationFailed) { FailedAllocKeeps(s, id, size); }
  }

  lemma FailedAllocKeeps(s: Sys, id: u16, size: u32)
    requires Sound(s) && AllocAligned(s, id, size, 1).1 == Err(AllocationFailed)
    ensures AllocAligned(s, id, size, 1).0 == s
  {
  }

  // ---------------------------------------------------------------------------------------------
  // What a successful call leaves.
  // ---------------------------------------------------------------------------------------------

  /** A region that changed is now Cold and was eligible. */
  lemma OnlyEligibleChange(s: Sys, target: nat, policy: WithinTier, i: nat)
    requires Sound(s) && i < |s.regions|
    ensures var t := DemoteUntil(s, target, policy).0;
      && |t.regions| == |s.regions|
      && (t.regions[i] != s.regions[i] ==> Takes(s.regions[i]) && t.regions[i].Some? && t.regions[i].value.residency == Cold)
  {
    DemoteUntilSpillsPrefix(s, target, policy);
    var q := LiveQueue(s.regions, policy);
    var p := q[..Cut(q, Resident(s.regions), target)];
    SpillAllFrees(s, p);
    if Named(p, i) {
      var c :| c in p && c.id == i;
      ViableMember(s, p, c);
    }
  }

  lemma {:induction false} ViableMember(s: Sys, q: seq<Candidate>, c: Candidate)
    requires Viable(s, q) && c in q
    ensures c.id < |s.regions| && Takes(s.regions[c.id]) && c.used == UsedBy(s.regions[c.id].value.alloc)
  {
    if c != q[0] { ViableMember(s, q[1..], c); }
  }

  /** What a call spills. */
  function Spilled(regions: seq<Option<Region>>, target: nat, policy: WithinTier): seq<Candidate>
    requires |regions| <= U16_MAX + 1
  {
    LiveQueue(regions, policy)[..Cut(LiveQueue(regions, policy), Resident(regions), target)]
  }

  lemma AfterDemote(s: Sys, target: nat, policy: WithinTier, i: nat)
    requires Sound(s) && i < |s.regions|
    ensures var t := DemoteUntil(s, target, policy).0; var p := Spilled(s.regions, target, policy);
      && |t.regions| == |s.regions|
      && (!Named(p, i) ==> t.regions[i] == s.regions[i])
      && (Named(p, i) ==> t.regions[i].Some? && t.regions[i].value.residency == Cold)
  {
    DemoteUntilSpillsPrefix(s, target, policy);
    SpillAllFrees(s, Spilled(s.regions, target, policy));
  }

  lemma {:induction false} LoadedConcat(regions: seq<Option<Region>>, a: seq<Candidate>, b: seq<Candidate>)
    ensures Loaded(regions, a + b) == Loaded(regions, a) + Loaded(regions, b)
  {
    if a == [] { assert a + b == b; } else {
      assert (a + b)[1..] == a[1..] + b;
      LoadedConcat(regions, a[1..], b);
    }
  }

  /** A prefix that reaches into the second list holds all of the first. */
  lemma PrefixReaches(w: seq<Candidate>, h: seq<Candidate>, k: nat, c: Candidate, d: Candidate)
    requires k <= |w + h| && c in (w + h)[..k] && c !in w && d in w
    ensures d in (w + h)[..k]
  {
    forall x ensures k <= |w| && x in (w + h)[..k] ==> x in w {}
    assert (w + h)[..k] == w + h[..k - |w|];
  }

  /** A Hot region is spilled only after every eligible Warm one that has its memory. */
  lemma WarmBeforeHot(s: Sys, target: nat, policy: WithinTier, hot: u16, warm: u16)
    requires Sound(s) && hot < |s.regions| && warm < |s.regions|
    requires Eligible(s.regions[hot], Hot) && Eligible(s.regions[warm], Warm) && Takes(s.regions[warm])
    ensures var t := DemoteUntil(s, target, policy).0;
      && |t.regions| == |s.regions|
      && (t.regions[hot] != s.regions[hot] ==> t.regions[warm].Some? && t.regions[warm].value.residency == Cold)
  {
    AfterDemote(s, target, policy, hot);
    AfterDemote(s, target, policy, warm);
    if Named(Spilled(s.regions, target, policy), hot) { WarmNamed(s.regions, target, policy, hot, warm); }
  }

  lemma WarmNamed(regions: seq<Option<Region>>, target: nat, policy: WithinTier, hot: u16, warm: u16)
    requires |regions| <= U16_MAX + 1 && hot < |regions| && warm < |regions|
    requires Eligible(regions[hot], Hot) && Eligible(regions[warm], Warm) && Takes(regions[warm]) && Named(Spilled(regions, target, policy), hot)
    ensures Named(Spilled(regions, target, policy), warm)
  {
    SortedBucket(regions, Warm, policy);
    var p := Spilled(regions, target, policy);
    var c :| c in p && c.id == hot;
    var d := Candidate(warm, UsedBy(regions[warm].value.alloc));
    var w, h := Sorted(policy, Bucket(regions, Warm)), Sorted(policy, Bucket(regions, Hot));
    LoadedConcat(regions, w, h);
    PrefixReaches(Loaded(regions, w), Loaded(regions, h), |p|, c, d);
    assert d in p && d.id == warm;
  }

  /** An unmet target means that a spill would take no region any more. */
  lemma UnmetMeansExhausted(s: Sys, target: nat, policy: WithinTier, i: u16)
    requires Sound(s) && i < |s.regions|
    ensures var (t, r) := DemoteUntil(s, target, policy);
      |t.regions| == |s.regions| && (!r.targetMet ==> !Takes(t.regions[i]))
  {
    AfterDemote(s, target, policy, i);
    UnmetSpillsAll(s, target, policy);
    if Takes(s.regions[i]) { QueueHasAll(s.regions, policy, i); }
  }

  lemma UnmetSpillsAll(s: Sys, target: nat, policy: WithinTier)
    requires Sound(s)
    ensures !DemoteUntil(s, target, policy).1.targetMet ==> Spilled(s.regions, target, policy) == LiveQueue(s.regions, policy)
  {
    DemoteUntilSpillsPrefix(s, target, policy);
    ShortCutMeets(LiveQueue(s.regions, policy), Resident(s.regions), target);
  }

  lemma ShortCutMeets(q: seq<Candidate>, current: int, target: nat)
    ensures var k := Cut(q, current, target); current - Sum(q[..k]) <= target || q[..k] == q
  {
    CutIsShortest(q, current, target);
  }

  lemma QueueHasAll(regions: seq<Option<Region>>, policy: WithinTier, i: u16)
    requires |regions| <= U16_MAX + 1 && i < |regions| && Takes(regions[i])
    ensures Named(LiveQueue(regions, policy), i)
  {
    SortedBucket(regions, Warm, policy);
    SortedBucket(regions, Hot, policy);
    var c := Candidate(i, UsedBy(regions[i].value.alloc));
    assert c in Queue(regions, policy) && c in LiveQueue(regions, policy) && c.id == i;
  }

  /** A second call, under any policy, spills nothing. */
  lemma SecondCallIsIdle(s: Sys, target: nat, policy: WithinTier, again: WithinTier)
    requires Sound(s)
    ensures var (t, r) := DemoteUntil(s, target, policy);
      |t.regions| <= U16_MAX + 1 && DemoteUntil(t, target, again) == (t, Report(0, 0, r.targetMet))
  {
    var (t, r) := DemoteUntil(s, target, policy);
    Accounting(s, target, policy);
    if !r.targetMet {
      forall i: u16 | i < |t.regions| ensures !Takes(t.regions[i]) {
        OnlyEligibleChange(s, target, policy, 0);
        UnmetMeansExhausted(s, target, policy, i);
      }
      NothingTaken(t, target, again);
    }
  }

  /** Where a spill would take nothing, a call does nothing. */
  lemma NothingTaken(t: Sys, target: nat, policy: WithinTier)
    requires Sound(t) && forall i: u16 :: i < |t.regions| ==> !Takes(t.regions[i])
    ensures DemoteUntil(t, target, policy) == (t, Report(0, 0, Resident(t.regions) <= target))
  {
    QueueAdmissible(t, policy);
    forall c ensures c !in LiveQueue(t.regions, policy) {}
    SkipLost(t, Queue(t.regions, policy), Resident(t.regions), target, Report(0, 0, false));
  }

  // ---------------------------------------------------------------------------------------------
  // Largest first touches the fewest regions.
  // ---------------------------------------------------------------------------------------------

  /** Sizes do not increase along the list. */
  ghost predicate Descending(q: seq<Candidate>) {
    q != [] ==> (forall c :: c in q[1..] ==> c.used <= q[0].used) && Descending(q[1..])
  }

  lemma {:induction false} LargestFirstDescends(q: seq<Candidate>)
    requires InOrder(LargestFirst, q)
    ensures Descending(q)
  {
    if q != [] {
      forall c | c in q[1..] ensures c.used <= q[0].used { assert Precedes(LargestFirst, q[0], c); }
      LargestFirstDescends(q[1..]);
    }
  }

  /** `pick` without `c`. */
  function Drop(pick: seq<Candidate>, c: Candidate): seq<Candidate> {
    if pick == [] then [] else if pick[0] == c then pick[1..] else [pick[0]] + Drop(pick[1..], c)
  }

  lemma {:induction false} DropOne(pick: seq<Candidate>, c: Candidate)
    requires Distinct(pick) && c in pick
    ensures Distinct(Drop(pick, c)) && |Drop(pick, c)| == |pick| - 1 && Sum(pick) == c.used + Sum(Drop(pick, c))
    ensures forall x :: x in Drop(pick, c) <==> x in pick && x != c
  {
    if pick[0] != c {
      DropOne(pick[1..], c);
      assert ([pick[0]] + Drop(pick[1..], c))[1..] == Drop(pick[1..], c);
      assert pick[0] !in pick[1..];
    } else {
      assert c !in pick[1..];
    }
  }

  lemma {:induction false} ShiftedPrefix(q: seq<Candidate>, n: nat)
    requires Descending(q) && q != [] && n < |q|
    ensures Sum(q[1..][..n]) <= Sum(q[..n])
  {
    if n > 0 {
      assert q[..n][1..] == q[1..][..n - 1] && q[1..][..n][1..] == q[1..][1..][..n - 1];
      assert q[1] in q[1..];
      ShiftedPrefix(q[1..], n - 1);
    }
  }

  lemma NoneLeft(q: seq<Candidate>, pick: seq<Candidate>)
    requires forall c :: c in pick ==> c in q
    ensures q == [] ==> pick == []
  {
    if pick != [] { assert pick[0] in q; }
  }

  /** No choice of n different candidates is larger than the first n of a descending list. */
  lemma {:induction false} FirstAreLargest(q: seq<Candidate>, pick: seq<Candidate>)
    requires Descending(q) && Distinct(pick) && forall c :: c in pick ==> c in q
    ensures |pick| <= |q| && Sum(pick) <= Sum(q[..|pick|])
    decreases |q|
  {
    NoneLeft(q, pick);
    if q == [] {
    } else if q[0] in pick {
      var rest := Drop(pick, q[0]);
      DropOne(pick, q[0]);
      FirstAreLargest(q[1..], rest);
      assert q[..|pick|][1..] == q[1..][..|rest|];
    } else {
      forall c | c in pick ensures c in q[1..] { assert c in q; }
      FirstAreLargest(q[1..], pick);
      ShiftedPrefix(q, |pick|);
    }
  }

  /** With all regions a spill would take in one tier, no smaller set of eligible regions brings the resident
      bytes to the target. */
  lemma LargestFirstIsOptimal(s: Sys, target: nat, pick: seq<Candidate>)
    requires Sound(s) && (Loaded(s.regions, Bucket(s.regions, Warm)) == [] || Loaded(s.regions, Bucket(s.regions, Hot)) == [])
    requires Viable(s, pick) && |pick| < |Spilled(s.regions, target, LargestFirst)|
    ensures Resident(SpillAll(s, pick).regions) > target
  {
    var q := LiveQueue(s.regions, LargestFirst);
    OneTierQueue(s, pick);
    FirstAreLargest(q, pick);
    CutIsShortest(q, Resident(s.regions), target);
    SpillAllFrees(s, pick);
  }

  lemma OneTierQueue(s: Sys, pick: seq<Candidate>)
    requires Sound(s) && (Loaded(s.regions, Bucket(s.regions, Warm)) == [] || Loaded(s.regions, Bucket(s.regions, Hot)) == []) && Viable(s, pick)
    ensures Descending(LiveQueue(s.regions, LargestFirst)) && Distinct(pick)
    ensures forall c :: c in pick ==> c in LiveQueue(s.regions, LargestFirst)
  {
    OneTierDescends(s);
    ViableDistinct(s, pick);
    forall c | c in pick ensures c in LiveQueue(s.regions, LargestFirst) { PickQueued(s, pick, c); }
  }

  lemma OneTierDescends(s: Sys)
    requires Sound(s) && (Loaded(s.regions, Bucket(s.regions, Warm)) == [] || Loaded(s.regions, Bucket(s.regions, Hot)) == [])
    ensures Descending(LiveQueue(s.regions, LargestFirst))
  {
    SortedBucket(s.regions, Warm, LargestFirst);
    SortedBucket(s.regions, Hot, LargestFirst);
    var w, h := Sorted(LargestFirst, Bucket(s.regions, Warm)), Sorted(LargestFirst, Bucket(s.regions, Hot));
    LargestFirstDescends(w);
    LargestFirstDescends(h);
    LoadedDescends(s.regions, w);
    LoadedDescends(s.regions, h);
    LoadedConcat(s.regions, w, h);
    NoneLoaded(s.regions, Bucket(s.regions, Warm), w);
    NoneLoaded(s.regions, Bucket(s.regions, Hot), h);
    OnlyOneDescends(Loaded(s.regions, w), Loaded(s.regions, h));
  }

  lemma {:induction false} LoadedDescends(regions: seq<Option<Region>>, q: seq<Candidate>)
    requires Descending(q)
    ensures Descending(Loaded(regions, q))
  {
    if q != [] {
      var rest := Loaded(regions, q[1..]);
      LoadedDescends(regions, q[1..]);
      assert [] + rest == rest && ([q[0]] + rest)[1..] == rest;
    }
  }

  lemma NoneLoaded(regions: seq<Option<Region>>, a: seq<Candidate>, b: seq<Candidate>)
    requires forall c :: c in b ==> c in a
    ensures Loaded(regions, a) == [] ==> Loaded(regions, b) == []
  {
    var r := Loaded(regions, b);
    if r != [] { assert r[0] in r && r[0] in Loaded(regions, a); }
  }

  lemma OnlyOneDescends(w: seq<Candidate>, h: seq<Candidate>)
    requires Descending(w) && Descending(h) && (w == [] || h == [])
    ensures Descending(w + h)
  {
    assert w + h == if w == [] then h else w;
  }

  lemma PickQueued(s: Sys, pick: seq<Candidate>, c: Candidate)
    requires Sound(s) && Viable(s, pick) && c in pick
    ensures c in LiveQueue(s.regions, LargestFirst)
  {
    SortedBucket(s.regions, Warm, LargestFirst);
    SortedBucket(s.regions, Hot, LargestFirst);
    ViableMember(s, pick, c);
  }

  lemma {:induction false} ViableDistinct(s: Sys, q: seq<Candidate>)
    requires Viable(s, q)
    ensures Distinct(q)
  {
    if q != [] { ViableDistinct(s, q[1..]); }
  }
}
