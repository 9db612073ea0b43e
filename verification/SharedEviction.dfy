/**
 * Bulk eviction while other threads use the directory. The call reads the regions one by one and then
 * spills candidates one by one, with no lock held in between, so any calls of others may come before
 * each of these steps. A schedule says which; every result is for all schedules.
 */
module SharedEviction {
  import opened Core
  import opened Bits
  import opened Allocator
  import opened Directory
  import opened Eviction
  import opened EvictionResults

  lemma SlotsStay(s: Sys, op: Op, ok: bool)
    requires Sound(s)
    ensures Sound(Step(s, op, ok).0) && |Step(s, op, ok).0.regions| >= |s.regions|
  {
    StepKeepsSound(s, op, ok);
    if !op.DoCreate? { StepIsLocal(s, op, ok, if Subject(s, op).Some? then Subject(s, op).value else 0); }
  }

  /** Calls, one after another. */
  function After(s: Sys, calls: seq<Request>): (t: Sys)
    requires Sound(s)
    ensures Sound(t) && |t.regions| >= |s.regions|
    decreases |calls|, 0
  {
    if calls == [] then s else Then(s, calls[0], calls[1..])
  }

  function Then(s: Sys, r: Request, rest: seq<Request>): (t: Sys)
    requires Sound(s)
    ensures Sound(t) && |t.regions| >= |s.regions|
    decreases |rest|, 1
  {
    SlotsStay(s, r.op, r.ok);
    After(Step(s, r.op, r.ok).0, rest)
  }

  function Rise(a: nat, b: nat): nat { if b > a then b - a else 0 }

  /** The bytes by which calls raise the resident total, call by call. */
  function Raised(s: Sys, calls: seq<Request>): nat
    requires Sound(s)
    decreases |calls|, 0
  {
    if calls == [] then 0 else RaisedFrom(s, calls[0], calls[1..])
  }

  function RaisedFrom(s: Sys, r: Request, rest: seq<Request>): nat
    requires Sound(s)
    decreases |rest|, 1
  {
    SlotsStay(s, r.op, r.ok);
    var t := Step(s, r.op, r.ok).0;
    Rise(Resident(s.regions), Resident(t.regions)) + Raised(t, rest)
  }

  /** The first call, then the others. */
  lemma Unfold(s: Sys, calls: seq<Request>)
    requires Sound(s) && calls != []
    ensures var t := Step(s, calls[0].op, calls[0].ok).0;
      && Sound(t) && |t.regions| >= |s.regions|
      && After(s, calls) == After(t, calls[1..])
      && Raised(s, calls) == Rise(Resident(s.regions), Resident(t.regions)) + Raised(t, calls[1..])
  {
    SlotsStay(s, calls[0].op, calls[0].ok);
    assert After(s, calls) == Then(s, calls[0], calls[1..]);
    assert Raised(s, calls) == RaisedFrom(s, calls[0], calls[1..]);
  }

  lemma {:induction false} AfterConcat(s: Sys, a: seq<Request>, b: seq<Request>)
    requires Sound(s)
    ensures After(s, a + b) == After(After(s, a), b)
    decreases a
  {
    if a == [] { assert a + b == b; } else {
      assert (a + b)[1..] == a[1..] + b;
      Unfold(s, a);
      Unfold(s, a + b);
      AfterConcat(Step(s, a[0].op, a[0].ok).0, a[1..], b);
    }
  }

  // ---------------------------------------------------------------------------------------------
  // The call.
  // ---------------------------------------------------------------------------------------------

  /** What others do before a candidate's turn, and the store's answer to its spill. */
  datatype Turn = Turn(before: seq<Request>, ok: bool)

  /** The schedule of a call: `looks[i]` comes before slot `i` is read, and `turns[id]` is the turn of
      region `id`; what is not listed is nothing, with a store that accepts. */
  datatype Schedule = Schedule(looks: seq<seq<Request>>, turns: seq<Turn>) {
    function LookAt(i: nat): seq<Request> { if i < |looks| then looks[i] else [] }
    function TurnOf(id: u16): Turn { if id < |turns| then turns[id] else Turn([], true) }
  }

  /** The first `n` slots, read one by one. */
  function Look(s: Sys, n: nat, sch: Schedule): (r: (Sys, seq<Option<Region>>))
    requires Sound(s) && n <= |s.regions|
    ensures Sound(r.0) && |r.0.regions| >= |s.regions| && |r.1| == n
    ensures Sound(Seen(r.1))
  {
    if n == 0 then (s, [])
    else
      var (t, snap) := Look(s, n - 1, sch);
      var u := After(t, sch.LookAt(n - 1));
      (u, snap + [u.regions[n - 1]])
  }

  /** A snapshot as a directory of its own. */
  function Seen(snap: seq<Option<Region>>): Sys { Sys(snap, [], 0, map[]) }

  /** A candidate's turn. */
  function Taken(s: Sys, c: Candidate, turn: Turn): (r: (Sys, Outcome))
    requires Sound(s)
    ensures Sound(r.0)
  {
    var u := After(s, turn.before);
    StepKeepsSound(u, DoSpill(c.id), turn.ok);
    SpillRegion(u, c.id, turn.ok)
  }

  /** A report after one more candidate. */
  function Count(report: Report, c: Candidate): Report {
    Report(Saturating(report.bytesFreed + c.used, U64_MAX), Saturating(report.regionsSpilled + 1, U16_MAX), report.targetMet)
  }

  function DemoteAmid(s: Sys, queue: seq<Candidate>, current: nat, target: nat, report: Report, sch: Schedule): (Sys, Result<Report>)
    requires Sound(s)
    decreases queue
  {
    if queue == [] || current <= target then (s, Ok(report.(targetMet := current <= target)))
    else
      var c := queue[0];
      var (t, o) := Taken(s, c, sch.TurnOf(c.id));
      if o.Ok? then
        DemoteAmid(t, queue[1..], Saturating(current - c.used, U64_MAX), target, Count(report, c), sch)
      else if Skipped(o.error) then DemoteAmid(t, queue[1..], current, target, report, sch)
      else (t, Err(o.error))
  }

  function FromSnapshot(t: Sys, snap: seq<Option<Region>>, target: nat, policy: WithinTier, sch: Schedule): (Sys, Result<Report>)
    requires Sound(t) && |snap| <= U16_MAX + 1
  {
    var current := Resident(snap);
    if current <= target then (t, Ok(Report(0, 0, true)))
    else DemoteAmid(t, Queue(snap, policy), current, target, Report(0, 0, false), sch)
  }

  /** `demote_until` among the calls of other threads. */
  function DemoteUntilAmid(s: Sys, target: nat, policy: WithinTier, sch: Schedule): (Sys, Result<Report>)
    requires Sound(s)
  {
    var (t, snap) := Look(s, |s.regions|, sch);
    FromSnapshot(t, snap, target, policy, sch)
  }

  lemma SnapshotIsLoop(t: Sys, snap: seq<Option<Region>>, target: nat, policy: WithinTier, sch: Schedule)
    requires Sound(t) && |snap| <= U16_MAX + 1
    ensures FromSnapshot(t, snap, target, policy, sch) == DemoteAmid(t, Queue(snap, policy), Resident(snap), target, Report(0, 0, false), sch)
  {
  }

  /** The bytes that others raise while the slots are read, while candidates are spilled, and in all. */
  function RaisedLooking(s: Sys, n: nat, sch: Schedule): nat
    requires Sound(s) && n <= |s.regions|
  {
    if n == 0 then 0 else RaisedLooking(s, n - 1, sch) + Raised(Look(s, n - 1, sch).0, sch.LookAt(n - 1))
  }

  function RaisedSpilling(s: Sys, queue: seq<Candidate>, current: nat, target: nat, sch: Schedule): nat
    requires Sound(s)
    decreases queue
  {
    if queue == [] || current <= target then 0
    else
      var c := queue[0];
      var (t, o) := Taken(s, c, sch.TurnOf(c.id));
      Raised(s, sch.TurnOf(c.id).before)
      + if o.Ok? then RaisedSpilling(t, queue[1..], Saturating(current - c.used, U64_MAX), target, sch)
        else if Skipped(o.error) then RaisedSpilling(t, queue[1..], current, target, sch)
        else 0
  }

  function RaisedMeanwhile(s: Sys, target: nat, policy: WithinTier, sch: Schedule): nat
    requires Sound(s)
  {
    var (t, snap) := Look(s, |s.regions|, sch);
    RaisedLooking(s, |s.regions|, sch) + RaisedSpilling(t, Queue(snap, policy), Resident(snap), target, sch)
  }

  // ---------------------------------------------------------------------------------------------
  // It is a run of plain calls.
  // ---------------------------------------------------------------------------------------------

  function TurnCalls(c: Candidate, turn: Turn): seq<Request> { turn.before + [Request(DoSpill(c.id), turn.ok)] }

  /** The calls of the loop and of the others during it, in order. */
  function SpillCalls(s: Sys, queue: seq<Candidate>, current: nat, target: nat, sch: Schedule): seq<Request>
    requires Sound(s)
    decreases queue
  {
    if queue == [] || current <= target then []
    else
      var c := queue[0];
      var (t, o) := Taken(s, c, sch.TurnOf(c.id));
      TurnCalls(c, sch.TurnOf(c.id))
      + if o.Ok? then SpillCalls(t, queue[1..], Saturating(current - c.used, U64_MAX), target, sch)
        else if Skipped(o.error) then SpillCalls(t, queue[1..], current, target, sch)
        else []
  }

  /** The calls of others before the first `n` slots have been read. */
  function Flat(sch: Schedule, n: nat): seq<Request> {
    if n == 0 then [] else Flat(sch, n - 1) + sch.LookAt(n - 1)
  }

  /** All calls of a `demote_until` and of the others, in order. */
  function AllCalls(s: Sys, target: nat, policy: WithinTier, sch: Schedule): seq<Request>
    requires Sound(s)
  {
    var (t, snap) := Look(s, |s.regions|, sch);
    Flat(sch, |s.regions|) + SpillCalls(t, Queue(snap, policy), Resident(snap), target, sch)
  }

  lemma {:induction false} LookIsRun(s: Sys, n: nat, sch: Schedule)
    requires Sound(s) && n <= |s.regions|
    ensures Look(s, n, sch).0 == After(s, Flat(sch, n))
  {
    if n > 0 {
      LookIsRun(s, n - 1, sch);
      AfterConcat(s, Flat(sch, n - 1), sch.LookAt(n - 1));
    }
  }

  lemma OneCall(s: Sys, r: Request)
    requires Sound(s)
    ensures After(s, [r]) == Step(s, r.op, r.ok).0
  {
    Unfold(s, [r]);
    assert [r][1..] == [];
  }

  lemma TurnIsRun(s: Sys, c: Candidate, turn: Turn)
    requires Sound(s)
    ensures After(s, TurnCalls(c, turn)) == Taken(s, c, turn).0
  {
    AfterConcat(s, turn.before, [Request(DoSpill(c.id), turn.ok)]);
    OneCall(After(s, turn.before), Request(DoSpill(c.id), turn.ok));
  }

  lemma TurnThen(s: Sys, c: Candidate, turn: Turn, rest: seq<Request>)
    requires Sound(s)
    ensures After(s, TurnCalls(c, turn) + rest) == After(Taken(s, c, turn).0, rest)
  {
    AfterConcat(s, TurnCalls(c, turn), rest);
    TurnIsRun(s, c, turn);
  }

  lemma UnfoldAmid(s: Sys, queue: seq<Candidate>, current: nat, target: nat, report: Report, sch: Schedule)
    requires Sound(s) && queue != [] && current > target
    ensures var c := queue[0]; var (t, o) := Taken(s, c, sch.TurnOf(c.id)); var left: nat := Saturating(current - c.used, U64_MAX);
      DemoteAmid(s, queue, current, target, report, sch) ==
      if o.Ok? then DemoteAmid(t, queue[1..], left, target, Count(report, c), sch)
      else if Skipped(o.error) then DemoteAmid(t, queue[1..], current, target, report, sch)
      else (t, Err(o.error))
  {
  }

  lemma UnfoldCalls(s: Sys, queue: seq<Candidate>, current: nat, target: nat, sch: Schedule)
    requires Sound(s) && queue != [] && current > target
    ensures var c := queue[0]; var (t, o) := Taken(s, c, sch.TurnOf(c.id)); var left: nat := Saturating(current - c.used, U64_MAX);
      SpillCalls(s, queue, current, target, sch) == TurnCalls(c, sch.TurnOf(c.id)) +
      if o.Ok? then SpillCalls(t, queue[1..], left, target, sch)
      else if Skipped(o.error) then SpillCalls(t, queue[1..], current, target, sch)
      else []
  {
  }

  lemma UnfoldRaised(s: Sys, queue: seq<Candidate>, current: nat, target: nat, sch: Schedule)
    requires Sound(s) && queue != [] && current > target
    ensures var c := queue[0]; var (t, o) := Taken(s, c, sch.TurnOf(c.id)); var left: nat := Saturating(current - c.used, U64_MAX);
      RaisedSpilling(s, queue, current, target, sch) == Raised(s, sch.TurnOf(c.id).before) +
      if o.Ok? then RaisedSpilling(t, queue[1..], left, target, sch)
      else if Skipped(o.error) then RaisedSpilling(t, queue[1..], current, target, sch)
      else 0
  {
  }

  lemma {:induction false} DemoteIsRun(s: Sys, queue: seq<Candidate>, current: nat, target: nat, report: Report, sch: Schedule)
    requires Sound(s)
    ensures DemoteAmid(s, queue, current, target, report, sch).0 == After(s, SpillCalls(s, queue, current, target, sch))
    decreases queue
  {
    if queue != [] && current > target {
      var c := queue[0];
      var (t, o) := Taken(s, c, sch.TurnOf(c.id));
      var left: nat := Saturating(current - c.used, U64_MAX);
      UnfoldAmid(s, queue, current, target, report, sch);
      UnfoldCalls(s, queue, current, target, sch);
      if o.Ok? {
        TurnThen(s, c, sch.TurnOf(c.id), SpillCalls(t, queue[1..], left, target, sch));
        DemoteIsRun(t, queue[1..], left, target, Count(report, c), sch);
      } else if Skipped(o.error) {
        TurnThen(s, c, sch.TurnOf(c.id), SpillCalls(t, queue[1..], current, target, sch));
        DemoteIsRun(t, queue[1..], current, target, report, sch);
      } else {
        TurnThen(s, c, sch.TurnOf(c.id), []);
      }
    }
  }

  lemma LoopIsRun(s: Sys, before: seq<Request>, t: Sys, snap: seq<Option<Region>>, target: nat, policy: WithinTier, sch: Schedule)
    requires Sound(s) && t == After(s, before) && |snap| <= U16_MAX + 1
    ensures FromSnapshot(t, snap, target, policy, sch).0 == After(s, before + SpillCalls(t, Queue(snap, policy), Resident(snap), target, sch))
  {
    SnapshotIsLoop(t, snap, target, policy, sch);
    AfterConcat(s, before, SpillCalls(t, Queue(snap, policy), Resident(snap), target, sch));
    DemoteIsRun(t, Queue(snap, policy), Resident(snap), target, Report(0, 0, false), sch);
  }

  /** `demote_until` among other calls is a run of plain calls, so every result about runs covers it. */
  lemma SharedDemoteIsRun(s: Sys, target: nat, policy: WithinTier, sch: Schedule)
    requires Sound(s)
    ensures DemoteUntilAmid(s, target, policy, sch).0 == After(s, AllCalls(s, target, policy, sch))
  {
    var (t, snap) := Look(s, |s.regions|, sch);
    LookIsRun(s, |s.regions|, sch);
    LoopIsRun(s, Flat(sch, |s.regions|), t, snap, target, policy, sch);
  }

  // ---------------------------------------------------------------------------------------------
  // The ledger: what each region may hold, by what was read and what was raised since.
  // ---------------------------------------------------------------------------------------------

  function Total(room: seq<nat>): nat {
    if room == [] then 0 else Total(room[..|room| - 1]) + room[|room| - 1]
  }

  lemma {:induction false} TotalUpdate(room: seq<nat>, i: nat, x: nat)
    requires i < |room|
    ensures room[i] <= Total(room) && Total(room[i := x]) == Total(room) - room[i] + x
  {
    var n := |room| - 1;
    if i < n {
      assert room[i := x][..n] == room[..n][i := x];
      TotalUpdate(room[..n], i, x);
    } else {
      assert room[i := x][..n] == room[..n];
    }
  }

  /** No region is above its entry, except those from `lo` to `hi`, which have not been read yet. */
  ghost predicate Covers(room: seq<nat>, regions: seq<Option<Region>>, lo: nat, hi: nat) {
    |room| == |regions| && forall i :: 0 <= i < |regions| && !(lo <= i < hi) ==> ResidentAt(regions[i]) <= room[i]
  }

  ghost predicate AtLeast(now: seq<nat>, room: seq<nat>) {
    |now| >= |room| && forall i :: 0 <= i < |room| ==> now[i] >= room[i]
  }

  lemma {:induction false} CoversTotal(room: seq<nat>, regions: seq<Option<Region>>)
    requires Covers(room, regions, 0, 0)
    ensures Resident(regions) <= Total(room)
  {
    if room != [] { CoversTotal(room[..|room| - 1], regions[..|room| - 1]); }
  }

  /** A call raises the entry of the one region it is about by what it raises the total. */
  lemma CallRoom(s: Sys, op: Op, ok: bool, room: seq<nat>, lo: nat, hi: nat) returns (now: seq<nat>)
    requires Sound(s) && Covers(room, s.regions, lo, hi)
    ensures var t := Step(s, op, ok).0;
      && Covers(now, t.regions, lo, hi) && AtLeast(now, room)
      && Total(now) <= Total(room) + Rise(Resident(s.regions), Resident(t.regions))
  {
    var t := Step(s, op, ok).0;
    now := room;
    if op.DoCreate? {
      if |s.regions| <= U16_MAX {
        now := room + [0];
        assert now[..|room|] == room;
      }
    } else {
      var id := if Subject(s, op).Some? then Subject(s, op).value else 0;
      StepIsLocal(s, op, ok, id);
      if id < |room| {
        now := SlotRoom(s.regions, t.regions, id, room, lo, hi);
      }
    }
  }

  lemma SlotRoom(a: seq<Option<Region>>, b: seq<Option<Region>>, id: nat, room: seq<nat>, lo: nat, hi: nat) returns (now: seq<nat>)
    requires id < |a| == |b| && Covers(room, a, lo, hi) && forall i :: 0 <= i < |a| && i != id ==> b[i] == a[i]
    ensures Covers(now, b, lo, hi) && AtLeast(now, room) && Total(now) <= Total(room) + Rise(Resident(a), Resident(b))
  {
    var more := Rise(ResidentAt(a[id]), ResidentAt(b[id]));
    now := room[id := room[id] + more];
    assert b == a[id := b[id]];
    ResidentUpdate(a, id, b[id]);
    TotalUpdate(room, id, room[id] + more);
  }

  lemma {:induction false} RunRoom(s: Sys, calls: seq<Request>, room: seq<nat>, lo: nat, hi: nat) returns (now: seq<nat>)
    requires Sound(s) && Covers(room, s.regions, lo, hi)
    ensures Covers(now, After(s, calls).regions, lo, hi) && AtLeast(now, room) && Total(now) <= Total(room) + Raised(s, calls)
    decreases calls
  {
    now := room;
    if calls != [] {
      Unfold(s, calls);
      now := CallRoom(s, calls[0].op, calls[0].ok, room, lo, hi);
      now := RunRoom(Step(s, calls[0].op, calls[0].ok).0, calls[1..], now, lo, hi);
    }
  }

  /** A counted candidate gives up its bytes. */
  lemma SpillRoom(s: Sys, c: Candidate, ok: bool, room: seq<nat>) returns (now: seq<nat>)
    requires Sound(s) && Covers(room, s.regions, 0, 0) && c.id < |room| && c.used <= room[c.id]
    ensures var (t, o) := SpillRegion(s, c.id, ok);
      && Covers(now, t.regions, 0, 0)
      && (forall i :: 0 <= i < |room| && (o.Err? || i != c.id) ==> now[i] == room[i])
      && Total(now) + (if o.Ok? then c.used else 0) == Total(room)
  {
    now := room;
    if SpillRegion(s, c.id, ok).1.Ok? {
      now := room[c.id := room[c.id] - c.used];
      TotalUpdate(room, c.id, room[c.id] - c.used);
    }
  }

  lemma TurnRoom(s: Sys, c: Candidate, turn: Turn, room: seq<nat>) returns (now: seq<nat>)
    requires Sound(s) && Covers(room, s.regions, 0, 0) && c.id < |room| && c.used <= room[c.id]
    ensures var (t, o) := Taken(s, c, turn);
      && Covers(now, t.regions, 0, 0) && |now| >= |room|
      && (forall i :: 0 <= i < |room| && i != c.id ==> now[i] >= room[i])
      && Total(now) + (if o.Ok? then c.used else 0) <= Total(room) + Raised(s, turn.before)
  {
    var between := RunRoom(s, turn.before, room, 0, 0);
    now := SpillRoom(After(s, turn.before), c, turn.ok, between);
  }

  /** What a report is worth: with `freed` counted and `current` believed resident when the loop goes on,
      and `end` resident when it stops, the bytes counted from here on and `end` fit in the ledger. */
  ghost predicate Worth(o: Result<Report>, end: nat, freed: nat, current: nat, target: nat, ledger: nat) {
    o.Ok? ==>
      var more := o.value.bytesFreed - freed;
      0 <= more <= current && (o.value.targetMet <==> current - more <= target) && end + more <= ledger
  }

  /** The ledger has room for every candidate. */
  ghost predicate Booked(q: seq<Candidate>, room: seq<nat>) {
    Distinct(q) && forall c :: c in q ==> c.id < |room| && c.used <= room[c.id]
  }

  lemma BookedMore(q: seq<Candidate>, room: seq<nat>, now: seq<nat>)
    requires Booked(q, room) && AtLeast(now, room)
    ensures Booked(q, now)
  {
  }

  lemma BookedRest(q: seq<Candidate>, room: seq<nat>, now: seq<nat>)
    requires q != [] && Booked(q, room) && |now| >= |room|
    requires forall i :: 0 <= i < |room| && i != q[0].id ==> now[i] >= room[i]
    ensures Booked(q[1..], now)
  {
    forall c | c in q[1..] ensures c.used <= now[c.id] { assert c in q; }
  }

  lemma HeadRoom(s: Sys, queue: seq<Candidate>, sch: Schedule, room: seq<nat>) returns (now: seq<nat>)
    requires Sound(s) && Covers(room, s.regions, 0, 0) && Booked(queue, room) && queue != []
    ensures var c := queue[0]; var (t, o) := Taken(s, c, sch.TurnOf(c.id));
      && Covers(now, t.regions, 0, 0) && Booked(queue[1..], now) && c.used + Sum(queue[1..]) == Sum(queue)
      && Total(now) + (if o.Ok? then c.used else 0) <= Total(room) + Raised(s, sch.TurnOf(c.id).before)
  {
    assert queue[0] in queue;
    now := TurnRoom(s, queue[0], sch.TurnOf(queue[0].id), room);
    BookedRest(queue, room, now);
  }

  /** The loop's report is worth what its ledger `room` and the calls of others say. */
  ghost predicate Settled(s: Sys, queue: seq<Candidate>, current: nat, target: nat, report: Report, sch: Schedule, room: nat)
    requires Sound(s)
  {
    var (t, o) := DemoteAmid(s, queue, current, target, report, sch);
    Worth(o, Resident(t.regions), report.bytesFreed, current, target, room + RaisedSpilling(s, queue, current, target, sch))
  }

  lemma CountedHead(s: Sys, queue: seq<Candidate>, current: nat, target: nat, report: Report, sch: Schedule, room: nat, now: nat)
    requires Sound(s) && queue != [] && target < current && queue[0].used <= current && report.bytesFreed + current <= U64_MAX
    requires var (t, o) := Taken(s, queue[0], sch.TurnOf(queue[0].id));
      && o.Ok? && now + queue[0].used <= room + Raised(s, sch.TurnOf(queue[0].id).before)
      && Settled(t, queue[1..], current - queue[0].used, target, Count(report, queue[0]), sch, now)
    ensures Settled(s, queue, current, target, report, sch, room)
  {
    UnfoldAmid(s, queue, current, target, report, sch);
    UnfoldRaised(s, queue, current, target, sch);
  }

  lemma SkippedHead(s: Sys, queue: seq<Candidate>, current: nat, target: nat, report: Report, sch: Schedule, room: nat, now: nat)
    requires Sound(s) && queue != [] && target < current
    requires var (t, o) := Taken(s, queue[0], sch.TurnOf(queue[0].id));
      && o.Err? && now <= room + Raised(s, sch.TurnOf(queue[0].id).before)
      && Settled(t, queue[1..], current, target, report, sch, now)
    ensures Settled(s, queue, current, target, report, sch, room)
  {
    UnfoldAmid(s, queue, current, target, report, sch);
    UnfoldRaised(s, queue, current, target, sch);
  }

  lemma IdleLoop(s: Sys, queue: seq<Candidate>, current: nat, target: nat, report: Report, sch: Schedule, room: seq<nat>)
    requires Sound(s) && Covers(room, s.regions, 0, 0) && (queue == [] || current <= target)
    ensures Settled(s, queue, current, target, report, sch, Total(room))
  {
    CoversTotal(room, s.regions);
  }

  /** Whatever is resident when the loop stops was in the ledger, or others raised it. */
  lemma {:induction false} DemoteLedger(s: Sys, queue: seq<Candidate>, current: nat, target: nat, report: Report, sch: Schedule, room: seq<nat>)
    requires Sound(s) && Covers(room, s.regions, 0, 0) && Booked(queue, room)
    requires Sum(queue) <= current && report.bytesFreed + current <= U64_MAX
    ensures Settled(s, queue, current, target, report, sch, Total(room))
    decreases queue
  {
    if queue == [] || current <= target { IdleLoop(s, queue, current, target, report, sch, room); } else {
      var c := queue[0];
      var (t, o) := Taken(s, c, sch.TurnOf(c.id));
      var now := HeadRoom(s, queue, sch, room);
      if o.Ok? {
        DemoteLedger(t, queue[1..], current - c.used, target, Count(report, c), sch, now);
        CountedHead(s, queue, current, target, report, sch, Total(room), Total(now));
      } else {
        DemoteLedger(t, queue[1..], current, target, report, sch, now);
        SkippedHead(s, queue, current, target, report, sch, Total(room), Total(now));
      }
    }
  }

  // ---------------------------------------------------------------------------------------------
  // The snapshot enters the ledger.
  // ---------------------------------------------------------------------------------------------

  function Zeros(n: nat): (r: seq<nat>)
    ensures |r| == n && Total(r) == 0
  {
    if n == 0 then [] else Zeros(n - 1) + [0]
  }

  function Sizes(regions: seq<Option<Region>>): (r: seq<nat>)
    ensures |r| == |regions| && Total(r) == Resident(regions)
    ensures forall i :: 0 <= i < |r| ==> r[i] == ResidentAt(regions[i])
  {
    if regions == [] then []
    else
      var rest := Sizes(regions[..|regions| - 1]);
      assert (rest + [ResidentAt(regions[|regions| - 1])])[..|rest|] == rest;
      rest + [ResidentAt(regions[|regions| - 1])]
  }

  /** Different regions together are no bigger than all. */
  lemma {:induction false} SumFits(q: seq<Candidate>, room: seq<nat>)
    requires Distinct(q) && forall c :: c in q ==> c.id < |room| && c.used <= room[c.id]
    ensures Sum(q) <= Total(room)
  {
    if q != [] {
      assert q[0] in q;
      TotalUpdate(room, q[0].id, 0);
      SumFits(q[1..], room[q[0].id := 0]);
    }
  }

  lemma ReadRoom(room: seq<nat>, regions: seq<Option<Region>>, snap: seq<Option<Region>>, n: nat, hi: nat) returns (now: seq<nat>)
    requires 0 < n <= hi <= |regions| && |snap| == n - 1 && Covers(room, regions, n - 1, hi)
    requires forall i :: 0 <= i < n - 1 ==> ResidentAt(snap[i]) <= room[i]
    ensures var more := snap + [regions[n - 1]];
      && Covers(now, regions, n, hi)
      && (forall i :: 0 <= i < n ==> ResidentAt(more[i]) <= now[i])
      && Total(now) - Resident(more) <= Total(room) - Resident(snap)
  {
    var x := ResidentAt(regions[n - 1]);
    now := room[n - 1 := x];
    TotalUpdate(room, n - 1, x);
    assert (snap + [regions[n - 1]])[..n - 1] == snap;
  }

  /** The ledger after `n` slots have been read. */
  ghost predicate Kept(room: seq<nat>, regions: seq<Option<Region>>, snap: seq<Option<Region>>, hi: nat, raised: nat) {
    && Covers(room, regions, |snap|, hi)
    && |snap| <= hi <= |room|
    && (forall i :: 0 <= i < |snap| ==> ResidentAt(snap[i]) <= room[i])
    && Total(room) <= Resident(snap) + raised
  }

  /** Others call, and the next slot is read. */
  lemma LookNext(t: Sys, snap: seq<Option<Region>>, calls: seq<Request>, room: seq<nat>, hi: nat, before: nat) returns (now: seq<nat>)
    requires Sound(t) && |snap| < hi && Kept(room, t.regions, snap, hi, before)
    ensures |snap| < |After(t, calls).regions|
    ensures Kept(now, After(t, calls).regions, snap + [After(t, calls).regions[|snap|]], hi, before + Raised(t, calls))
  {
    now := RunRoom(t, calls, room, |snap|, hi);
    now := ReadRoom(now, After(t, calls).regions, snap, |snap| + 1, hi);
  }

  lemma LookStep(s: Sys, n: nat, sch: Schedule)
    requires Sound(s) && 0 < n <= |s.regions|
    ensures var (t, snap) := Look(s, n - 1, sch); var u := After(t, sch.LookAt(n - 1));
      && n - 1 < |u.regions|
      && Look(s, n, sch) == (u, snap + [u.regions[n - 1]])
      && RaisedLooking(s, n, sch) == RaisedLooking(s, n - 1, sch) + Raised(t, sch.LookAt(n - 1))
  {
  }

  lemma {:induction false} LookLedger(s: Sys, n: nat, sch: Schedule) returns (room: seq<nat>)
    requires Sound(s) && n <= |s.regions|
    ensures Kept(room, Look(s, n, sch).0.regions, Look(s, n, sch).1, |s.regions|, RaisedLooking(s, n, sch))
  {
    if n == 0 { room := LookStart(s, sch); } else {
      var (t, snap) := Look(s, n - 1, sch);
      room := LookLedger(s, n - 1, sch);
      LookStep(s, n, sch);
      room := LookNext(t, snap, sch.LookAt(n - 1), room, |s.regions|, RaisedLooking(s, n - 1, sch));
    }
  }

  lemma LookStart(s: Sys, sch: Schedule) returns (room: seq<nat>)
    requires Sound(s)
    ensures Kept(room, Look(s, 0, sch).0.regions, Look(s, 0, sch).1, |s.regions|, RaisedLooking(s, 0, sch))
  {
    room := Zeros(|s.regions|);
  }

  // ---------------------------------------------------------------------------------------------
  // What the report is worth.
  // ---------------------------------------------------------------------------------------------

  /** For every schedule: the target counts as met exactly when what was read minus what was counted is at
      most the target, and then no more is resident than the target and what others have raised meanwhile. */
  lemma SharedAccounting(s: Sys, target: nat, policy: WithinTier, sch: Schedule)
    requires Sound(s)
    ensures var (t, o) := DemoteUntilAmid(s, target, policy, sch);
      var seen := Resident(Look(s, |s.regions|, sch).1); var raised := RaisedMeanwhile(s, target, policy, sch);
      o.Ok? ==>
        && o.value.bytesFreed <= seen
        && (o.value.targetMet <==> seen - o.value.bytesFreed <= target)
        && Resident(t.regions) + o.value.bytesFreed <= seen + raised
        && (o.value.targetMet ==> Resident(t.regions) <= target + raised)
  {
    var (t, snap) := Look(s, |s.regions|, sch);
    var room := LookLedger(s, |s.regions|, sch);
    LoopAccounting(t, snap, target, policy, sch, room, RaisedLooking(s, |s.regions|, sch));
  }

  lemma LoopAccounting(t: Sys, snap: seq<Option<Region>>, target: nat, policy: WithinTier, sch: Schedule, room: seq<nat>, before: nat)
    requires Sound(t) && Sound(Seen(snap)) && Kept(room, t.regions, snap, |snap|, before)
    ensures var seen := Resident(snap); var (u, o) := FromSnapshot(t, snap, target, policy, sch);
      Worth(o, Resident(u.regions), 0, seen, target, seen + before + RaisedSpilling(t, Queue(snap, policy), seen, target, sch))
  {
    SnapshotIsLoop(t, snap, target, policy, sch);
    SnapshotFits(snap, policy);
    BookedMore(Queue(snap, policy), Sizes(snap), room);
    DemoteLedger(t, Queue(snap, policy), Resident(snap), target, Report(0, 0, false), sch, room);
  }

  lemma SnapshotFits(snap: seq<Option<Region>>, policy: WithinTier)
    requires Sound(Seen(snap))
    ensures var q := Queue(snap, policy); Booked(q, Sizes(snap)) && Sum(q) <= Resident(snap) <= U64_MAX
  {
    QueueAdmissible(Seen(snap), policy);
    AdmissibleBooked(snap, Queue(snap, policy));
    ResidentFits(Seen(snap));
    SumFits(Queue(snap, policy), Sizes(snap));
  }

  lemma AdmissibleBooked(snap: seq<Option<Region>>, q: seq<Candidate>)
    requires Admissible(Seen(snap), q)
    ensures Booked(q, Sizes(snap))
  {
  }

  /** When a candidate counts: a region that others have spilled in the meantime counts too, with the size
      it had when it was read, although its turn takes nothing off the resident total any more. */
  lemma CountsIff(s: Sys, c: Candidate, turn: Turn)
    requires Sound(s)
    ensures var u := After(s, turn.before); var (t, o) := Taken(s, c, turn); var slot := u.Lookup(c.id);
      && (o.Ok? <==> slot.Some? && !slot.value.pinned && slot.value.spillable
                     && (slot.value.residency == Cold || (slot.value.memory.Some? && turn.ok)))
      && Resident(u.regions) - Resident(t.regions) == if o.Ok? then ResidentAt(slot) else 0
  {
    var u := After(s, turn.before);
    var t := Taken(s, c, turn).0;
    if u.Lookup(c.id).Some? {
      assert t.regions == u.regions[c.id := t.regions[c.id]];
      ResidentUpdate(u.regions, c.id, t.regions[c.id]);
    }
  }

  lemma {:induction false} UnmetTries(s: Sys, queue: seq<Candidate>, current: nat, target: nat, report: Report, sch: Schedule, k: nat)
    requires Sound(s) && k < |queue|
    ensures var o := DemoteAmid(s, queue, current, target, report, sch).1; var id := queue[k].id;
      o.Ok? && !o.value.targetMet ==> Request(DoSpill(id), sch.TurnOf(id).ok) in SpillCalls(s, queue, current, target, sch)
    decreases queue
  {
    if current > target {
      var d := queue[0];
      var (t, o) := Taken(s, d, sch.TurnOf(d.id));
      UnfoldAmid(s, queue, current, target, report, sch);
      UnfoldCalls(s, queue, current, target, sch);
      if k == 0 {
        assert Request(DoSpill(d.id), sch.TurnOf(d.id).ok) in TurnCalls(d, sch.TurnOf(d.id));
      } else if o.Ok? {
        UnmetTries(t, queue[1..], Saturating(current - d.used, U64_MAX), target, Count(report, d), sch, k - 1);
      } else if Skipped(o.error) {
        UnmetTries(t, queue[1..], current, target, report, sch, k - 1);
      }
    }
  }

  /** A call that misses its target has tried every region that was eligible when it was read. */
  lemma UnmetHasTriedAll(s: Sys, target: nat, policy: WithinTier, sch: Schedule, id: u16)
    requires Sound(s) && id < |s.regions| && EligibleAny(Look(s, |s.regions|, sch).1[id])
    ensures var o := DemoteUntilAmid(s, target, policy, sch).1;
      o.Ok? && !o.value.targetMet ==> Request(DoSpill(id), sch.TurnOf(id).ok) in AllCalls(s, target, policy, sch)
  {
    var (t, snap) := Look(s, |s.regions|, sch);
    var k := PlaceInQueue(snap, policy, id);
    SnapshotIsLoop(t, snap, target, policy, sch);
    UnmetTries(t, Queue(snap, policy), Resident(snap), target, Report(0, 0, false), sch, k);
  }

  lemma PlaceInQueue(snap: seq<Option<Region>>, policy: WithinTier, id: u16) returns (k: nat)
    requires |snap| <= U16_MAX + 1 && id < |snap| && EligibleAny(snap[id])
    ensures k < |Queue(snap, policy)| && Queue(snap, policy)[k].id == id
  {
    SortedBucket(snap, Warm, policy);
    SortedBucket(snap, Hot, policy);
    var c := Candidate(id, UsedBy(snap[id].value.alloc));
    assert c in Queue(snap, policy);
    k :| 0 <= k < |Queue(snap, policy)| && Queue(snap, policy)[k] == c;
  }

  // ---------------------------------------------------------------------------------------------
  // With nobody else.
  // ---------------------------------------------------------------------------------------------

  /** Nobody calls in between, and the store refuses the regions in `refused`. */
  ghost predicate Alone(sch: Schedule, refused: set<u16>) {
    && (forall i: nat :: sch.LookAt(i) == [])
    && (forall id: u16 :: sch.TurnOf(id).before == [] && (sch.TurnOf(id).ok <==> id !in refused))
  }

  lemma {:induction false} LookAlone(s: Sys, n: nat, sch: Schedule)
    requires Sound(s) && n <= |s.regions| && forall i: nat :: sch.LookAt(i) == []
    ensures Look(s, n, sch) == (s, s.regions[..n])
  {
    if n > 0 {
      LookAlone(s, n - 1, sch);
      assert s.regions[..n] == s.regions[..n - 1] + [s.regions[n - 1]];
    }
  }

  lemma {:induction false} DemoteAlone(s: Sys, queue: seq<Candidate>, current: nat, target: nat, report: Report, sch: Schedule, refused: set<u16>)
    requires Sound(s) && Alone(sch, refused)
    ensures DemoteAmid(s, queue, current, target, report, sch) == DemoteWith(s, queue, current, target, report, refused)
    decreases queue
  {
    if queue != [] && current > target {
      var c := queue[0];
      var (t, o) := Taken(s, c, sch.TurnOf(c.id));
      UnfoldAmid(s, queue, current, target, report, sch);
      UnfoldDemoteWith(s, queue, current, target, report, refused);
      if o.Ok? { DemoteAlone(t, queue[1..], Saturating(current - c.used, U64_MAX), target, Count(report, c), sch, refused); }
      else if Skipped(o.error) { DemoteAlone(t, queue[1..], current, target, report, sch, refused); }
    }
  }

  /** Without calls of others this is the loop of `Eviction`. */
  lemma SharedIsPlainAlone(s: Sys, target: nat, policy: WithinTier, sch: Schedule, refused: set<u16>)
    requires Sound(s) && Alone(sch, refused)
    ensures DemoteUntilAmid(s, target, policy, sch) == DemoteUntilWith(s, target, policy, refused)
  {
    LookAlone(s, |s.regions|, sch);
    assert s.regions[..|s.regions|] == s.regions;
    if Resident(s.regions) > target {
      DemoteAlone(s, Queue(s.regions, policy), Resident(s.regions), target, Report(0, 0, false), sch, refused);
    }
  }

  // ---------------------------------------------------------------------------------------------
  // Three runs that surprise.
  // ---------------------------------------------------------------------------------------------

  /** One turn, others first. */
  function OneTurnOf(calls: seq<Request>): Schedule { Schedule([], [Turn(calls, true)]) }

  lemma OneTry(s: Sys, c: Candidate, sch: Schedule)
    requires Sound(s) && c == Candidate(0, 1)
    ensures var (t, o) := Taken(s, c, sch.TurnOf(0));
      DemoteAmid(s, [c], 1, 0, Report(0, 0, false), sch) ==
      (t, if o.Ok? then Ok(Report(1, 1, true)) else if Skipped(o.error) then Ok(Report(0, 0, false)) else Err(o.error))
  {
    UnfoldAmid(s, [c], 1, 0, Report(0, 0, false), sch);
    assert [c][1..] == [];
  }

  /** One Hot region with one byte in use, and a target of nothing. */
  lemma OneTurn(s: Sys, slot: Option<Region>, calls: seq<Request>, u: Sys)
    requires Sound(s) && s.regions == [slot] && Eligible(slot, Hot) && UsedBy(slot.value.alloc) == 1 && u == After(s, calls)
    ensures var (t, o) := SpillRegion(u, 0, true);
      DemoteUntilAmid(s, 0, InsertionOrder, OneTurnOf(calls)) ==
      (t, if o.Ok? then Ok(Report(1, 1, true)) else if Skipped(o.error) then Ok(Report(0, 0, false)) else Err(o.error))
  {
    OneQueue(slot);
    LookAlone(s, 1, OneTurnOf(calls));
    assert s.regions[..1] == s.regions;
    OneTry(s, Candidate(0, 1), OneTurnOf(calls));
  }

  /** Another thread spills the region first; both calls count its byte. */
  lemma CountedTwice(s: Sys)
    requires OneByte(s)
    ensures Sound(s)
    ensures DemoteUntilAmid(s, 0, InsertionOrder, OneTurnOf([Request(DoSpill(0), true)])) == (SpillRegion(s, 0, true).0, Ok(Report(1, 1, true)))
  {
    OneByteIs(s);
    SpilledByOther(s, s.regions[0]);
  }

  lemma SpilledByOther(s: Sys, slot: Option<Region>)
    requires Sound(s) && s.regions == [slot] && Eligible(slot, Hot) && UsedBy(slot.value.alloc) == 1 && slot.value.memory.Some?
    ensures DemoteUntilAmid(s, 0, InsertionOrder, OneTurnOf([Request(DoSpill(0), true)])) == (SpillRegion(s, 0, true).0, Ok(Report(1, 1, true)))
  {
    OneCall(s, Request(DoSpill(0), true));
    OneTurn(s, slot, [Request(DoSpill(0), true)], SpillRegion(s, 0, true).0);
  }

  function CreateAndUse(): seq<Request> {
    [Request(DoCreate(PolicyFor(BlobArena), 1, BumpKind, [7]), true), Request(DoAlloc(1, 1, 1), true)]
  }

  /** Another thread creates a region and uses a byte of it: the target counts as met, and is not. */
  lemma MetYetAbove(s: Sys)
    requires OneByte(s)
    ensures Sound(s)
    ensures var (t, o) := DemoteUntilAmid(s, 0, InsertionOrder, OneTurnOf(CreateAndUse()));
      o == Ok(Report(1, 1, true)) && Resident(t.regions) == 1
  {
    OneByteIs(s);
    CreatedByOther(s, s.regions[0]);
  }

  lemma CreatedByOther(s: Sys, slot: Option<Region>)
    requires Sound(s) && s.regions == [slot] && Eligible(slot, Hot) && UsedBy(slot.value.alloc) == 1 && slot.value.memory.Some?
    ensures var (t, o) := DemoteUntilAmid(s, 0, InsertionOrder, OneTurnOf(CreateAndUse()));
      o == Ok(Report(1, 1, true)) && Resident(t.regions) == 1
  {
    var u := After(s, CreateAndUse());
    OneTurn(s, slot, CreateAndUse(), u);
    CreatedIs(s, slot);
    LastSpill(u, slot);
  }

  lemma LastSpill(t: Sys, slot: Option<Region>)
    requires |t.regions| == 2 && t.regions[0] == slot && ResidentAt(t.regions[1]) == 1
    requires Eligible(slot, Hot) && slot.value.memory.Some?
    ensures var (u, o) := SpillRegion(t, 0, true); o.Ok? && Resident(u.regions) == 1
  {
    TwoSlots(SpillRegion(t, 0, true).0.regions);
  }

  lemma TwoCalls(s: Sys, a: Request, b: Request)
    requires Sound(s)
    ensures Sound(Step(s, a.op, a.ok).0) && After(s, [a, b]) == Step(Step(s, a.op, a.ok).0, b.op, b.ok).0
  {
    Unfold(s, [a, b]);
    assert [a, b][1..] == [b];
    OneCall(Step(s, a.op, a.ok).0, b);
  }

  lemma CreatedIs(s: Sys, slot: Option<Region>)
    requires Sound(s) && s.regions == [slot]
    ensures After(s, CreateAndUse()).regions == [slot, Some(Region(1, 1, Hot, false, false, true, Some(Mem(s.nextStamp, [7])), Bump(1)))]
  {
    TwoCalls(s, CreateAndUse()[0], CreateAndUse()[1]);
    assert AlignUp(0, 1) == Some(0);
    var r := Region(1, 1, Hot, false, false, true, Some(Mem(s.nextStamp, [7])), Bump(0));
    assert [slot] + [Some(r)] == [slot, Some(r)];
    assert [slot, Some(r)][1 := Some(r.(alloc := Bump(1)))] == [slot, Some(r.(alloc := Bump(1)))];
  }

  lemma TwoSlots(regions: seq<Option<Region>>)
    requires |regions| == 2
    ensures Resident(regions) == ResidentAt(regions[0]) + ResidentAt(regions[1])
  {
    assert regions[..1] == [regions[0]] && [regions[0]][..0] == [];
    assert Resident([regions[0]]) == ResidentAt(regions[0]);
  }

  /** Another thread destroys the region: the target counts as missed, and is met. */
  lemma UnmetYetBelow(s: Sys)
    requires OneByte(s)
    ensures Sound(s)
    ensures var (t, o) := DemoteUntilAmid(s, 0, InsertionOrder, OneTurnOf([Request(DoDestroy(0), true)]));
      o == Ok(Report(0, 0, false)) && Resident(t.regions) == 0
  {
    OneByteIs(s);
    DestroyedByOther(s, s.regions[0]);
  }

  lemma DestroyedByOther(s: Sys, slot: Option<Region>)
    requires Sound(s) && s.regions == [slot] && Eligible(slot, Hot) && UsedBy(slot.value.alloc) == 1
    ensures var (t, o) := DemoteUntilAmid(s, 0, InsertionOrder, OneTurnOf([Request(DoDestroy(0), true)]));
      o == Ok(Report(0, 0, false)) && Resident(t.regions) == 0
  {
    var t := DestroyRegion(s, 0).0;
    OneCall(s, Request(DoDestroy(0), true));
    OneTurn(s, slot, [Request(DoDestroy(0), true)], t);
    assert t.regions == [None] && t.regions[..0] == [];
  }

  // ---------------------------------------------------------------------------------------------
  // The retry of `alloc_or_demote`.
  // ---------------------------------------------------------------------------------------------

  ghost predicate NoRoom(a: Alloc, capacity: u32, size: u32) {
    match a
    case Bump(top) => top + size > capacity
    case Freelist(live) => size == 0 || forall o: nat :: !Vacant(live, capacity, o, size)
  }

  lemma NoRoomIff(a: Alloc, capacity: u32, size: u32)
    ensures AllocIn(a, capacity, size, 1).1 == Err(AllocationFailed) <==> NoRoom(a, capacity, size)
  {
    assert GoodAlign(1);
    match a
    case Bump(top) =>
      AlignUpIsLeastMultiple(top, 1);
      assert top % 1 == 0;
    case Freelist(live) => forall o: nat ensures Fits(live, capacity, o, size, 1) <==> Vacant(live, capacity, o, size) {}
  }

  /** Calls that give a region room: they free in it, pack it, or remove it. */
  predicate MakesRoom(op: Op, id: u16) {
    (op.DoDealloc? && op.h.regionId == id) || (op.DoCompact? && op.id == id) || (op.DoDestroy? && op.id == id)
  }

  ghost predicate FullAt(s: Sys, id: u16, size: u32) {
    s.Lookup(id).Some? && NoRoom(s.Lookup(id).value.alloc, s.Lookup(id).value.capacity, size)
  }

  lemma FullIff(s: Sys, id: u16, size: u32)
    ensures AllocAligned(s, id, size, 1).1 == Err(AllocationFailed) <==> FullAt(s, id, size)
  {
    if s.Lookup(id).Some? { NoRoomIff(s.Lookup(id).value.alloc, s.Lookup(id).value.capacity, size); }
  }

  lemma StillLive(live: Live, now: Live, p: int)
    requires forall q :: q in live ==> q in now && now[q] == live[q]
    ensures LiveByte(live, p) ==> LiveByte(now, p)
  {
    if LiveByte(live, p) {
      var q :| q in live && q <= p < q + live[q];
      assert q in now;
    }
  }

  lemma MoreUsed(a: Alloc, capacity: u32, more: u32, align: u32, size: u32)
    requires AllocOk(a, capacity) && NoRoom(a, capacity, size)
    ensures NoRoom(AllocIn(a, capacity, more, align).0, capacity, size)
  {
    match a
    case Bump(top) => AlignUpIsLeastMultiple(top, align);
    case Freelist(live) =>
      if FirstFit(live, capacity, more, align).Ok? {
        FirstFitKeepsLiveOk(live, capacity, more, align);
        var now := live[FirstFit(live, capacity, more, align).value := more];
        forall o: nat | Vacant(now, capacity, o, size) ensures Vacant(live, capacity, o, size) {
          forall p | o <= p < o + size ensures !LiveByte(live, p) {
            assert !LiveByte(now, p);
            StillLive(live, now, p);
          }
        }
      }
  }

  lemma StepStaysFull(s: Sys, op: Op, ok: bool, id: u16, size: u32)
    requires Sound(s) && FullAt(s, id, size) && !MakesRoom(op, id)
    ensures FullAt(Step(s, op, ok).0, id, size)
  {
    var r := s.Lookup(id).value;
    if !op.DoCreate? {
      var subject := if Subject(s, op).Some? then Subject(s, op).value else id;
      StepIsLocal(s, op, ok, subject);
      if subject == id {
        if Tiers(op) { TierStepIsLocal(s, op, ok, id); }
        else if op.DoAlloc? { MoreUsed(r.alloc, r.capacity, op.size, op.align, size); }
      }
    }
  }

  lemma {:induction false} RunStaysFull(s: Sys, calls: seq<Request>, id: u16, size: u32)
    requires Sound(s) && FullAt(s, id, size) && forall c :: c in calls ==> !MakesRoom(c.op, id)
    ensures FullAt(After(s, calls), id, size)
    decreases calls
  {
    if calls != [] {
      assert calls[0] in calls;
      SlotsStay(s, calls[0].op, calls[0].ok);
      StepStaysFull(s, calls[0].op, calls[0].ok, id, size);
      RunStaysFull(Step(s, calls[0].op, calls[0].ok).0, calls[1..], id, size);
    }
  }

  /** Among other threads too, demoting never helps an allocation: the second attempt of `alloc_or_demote`
      fails as the first did, unless some other call has given that very region room. */
  lemma SharedRetryNeedsRoom(s: Sys, id: u16, size: u32, target: nat, policy: WithinTier, sch: Schedule, last: seq<Request>)
    requires Sound(s) && AllocAligned(s, id, size, 1).1 == Err(AllocationFailed)
    requires forall c :: c in AllCalls(s, target, policy, sch) + last ==> !MakesRoom(c.op, id)
    ensures var t := DemoteUntilAmid(s, target, policy, sch).0;
      Sound(t) && AllocAligned(After(t, last), id, size, 1).1 == Err(AllocationFailed)
  {
    var calls := AllCalls(s, target, policy, sch);
    SharedDemoteIsRun(s, target, policy, sch);
    AfterConcat(s, calls, last);
    FullIff(s, id, size);
    RunStaysFull(s, calls + last, id, size);
    FullIff(After(s, calls + last), id, size);
  }
}
