/**
 * The concurrent directory as a step machine: any number of threads, one mutex per region, and
 * byte-by-byte critical sections that other threads may interrupt. Every interleaving answers as
 * if the calls had run one at a time in the order in which they took their last lock.
 */
module Concurrent {
  import opened Core
  import D = Directory

  type Regions = seq<Option<D.Region>>

  datatype Call =
    | Alloc(id: u16, size: u32)
    | Dealloc(h: Handle)
    | Read(h: Handle, len: u32)
    | Write(h: Handle, data: bytes)
    | Copy(src: u16, srcOff: u32, dst: u16, dstOff: u32, len: u32)

  /** The region a call looks up first, and the other one if it needs two. */
  function First(c: Call): u16 {
    match c
    case Alloc(id, _) => id
    case Dealloc(h) => h.regionId
    case Read(h, _) => h.regionId
    case Write(h, _) => h.regionId
    case Copy(src, _, _, _, _) => src
  }

  function Second(c: Call): u16 { if c.Copy? then c.dst else First(c) }

  /** The entry locks of a call in the order it takes them: ascending region id. */
  function Locks(c: Call): (ls: seq<u16>)
    ensures 1 <= |ls| <= 2 && (|ls| == 2 ==> ls[0] < ls[1])
    ensures forall id :: id in ls <==> id == First(c) || id == Second(c)
  {
    if First(c) == Second(c) then [First(c)]
    else if First(c) < Second(c) then [First(c), Second(c)]
    else [Second(c), First(c)]
  }

  predicate Exists(rs: Regions, id: u16) { id < |rs| && rs[id].Some? }

  predicate Reachable(rs: Regions, c: Call) { Exists(rs, First(c)) && Exists(rs, Second(c)) }

  // ---------------------------------------------------------------------------------------------
  // Inside the critical section.
  // ---------------------------------------------------------------------------------------------

  /** Where a thread is between taking its last lock and releasing the first. */
  datatype Local =
    | Begin
    | Took(offset: u32)
    | Fetching(buf: bytes)
    | Fetched(buf: bytes)
    | Storing(data: bytes, k: nat)
    | Finished(outcome: D.Outcome)

  function Put(rs: Regions, id: u16, r: D.Region): Regions
    requires id < |rs|
  {
    rs[id := Some(r)]
  }

  /** `check_in_bounds`: the capacity check of both ends of an access. */
  predicate InBounds(r: D.Region, off: u32, len: nat) { off + len <= r.capacity }

  /** Checks before bytes move: capacity first, then residency, then the object's own length. */
  function Refusal(r: D.Region, off: u32, len: nat): Option<TvmError> {
    if !InBounds(r, off, len) then Some(OutOfBounds)
    else if r.memory.None? then Some(NotResident)
    else if off + len > |r.memory.value.data| then Some(OutOfBounds)
    else None
  }

  function FetchByte(r: D.Region, off: u32, buf: bytes): Local {
    if r.memory.None? then Finished(Err(NotResident))
    else if off + |buf| >= |r.memory.value.data| then Finished(Err(OutOfBounds))
    else Fetching(buf + [r.memory.value.data[off + |buf|]])
  }

  function StoreByte(r: D.Region, off: u32, data: bytes, k: nat): (Local, D.Region)
    requires k < |data|
  {
    if r.memory.None? then (Finished(Err(NotResident)), r)
    else if off + k >= |r.memory.value.data| then (Finished(Err(OutOfBounds)), r)
    else
      var m := r.memory.value;
      (Storing(data, k + 1), r.(memory := Some(m.(data := m.data[off + k := data[k]]))))
  }

  /** One uninterrupted step of a call that holds its locks. */
  function Micro(c: Call, l: Local, rs: Regions): (Local, Regions)
    requires Reachable(rs, c)
  {
    var a := rs[First(c)].value;
    match (c, l)
    case (Alloc(id, size), Begin) =>
      var (alloc, o) := D.AllocIn(a.alloc, a.capacity, size, 1);
      if o.Err? then (Finished(Err(o.error)), rs) else (Took(o.value), Put(rs, id, a.(alloc := alloc)))
    case (Alloc(id, _), Took(offset)) => (Finished(Ok(D.Allocated(Handle(id, a.generation, offset)))), rs)
    case (Dealloc(h), Begin) =>
      if a.generation != h.generation then (Finished(Err(StaleHandle)), rs)
      else
        var (alloc, o) := D.DeallocIn(a.alloc, h.offset);
        if o.Err? then (Finished(Err(o.error)), rs) else (Finished(Ok(D.Done)), Put(rs, h.regionId, a.(alloc := alloc)))
    case (Read(h, len), Begin) =>
      if a.generation != h.generation then (Finished(Err(StaleHandle)), rs)
      else if a.memory.None? then (Finished(Err(NotResident)), rs)
      else if !InBounds(a, h.offset, len) || h.offset + len > |a.memory.value.data| then (Finished(Err(OutOfBounds)), rs)
      else (Fetching([]), rs)
    case (Read(h, len), Fetching(buf)) =>
      (if |buf| < len then FetchByte(a, h.offset, buf) else Finished(Ok(D.Data(buf))), rs)
    case (Write(h, data), Begin) =>
      if a.generation != h.generation then (Finished(Err(StaleHandle)), rs)
      else if Refusal(a, h.offset, |data|).Some? then (Finished(Err(Refusal(a, h.offset, |data|).value)), rs)
      else (Storing(data, 0), rs)
    case (Write(h, _), Storing(data, k)) => MicroStore(h.regionId, h.offset, data, k, rs)
    case (Copy(_, srcOff, _, _, len), Begin) =>
      if Refusal(a, srcOff, len).Some? then (Finished(Err(Refusal(a, srcOff, len).value)), rs) else (Fetching([]), rs)
    case (Copy(_, srcOff, _, _, len), Fetching(buf)) =>
      (if |buf| < len then FetchByte(a, srcOff, buf) else Fetched(buf), rs)
    case (Copy(_, _, dst, dstOff, _), Fetched(buf)) =>
      var b := rs[dst].value;
      if Refusal(b, dstOff, |buf|).Some? then (Finished(Err(Refusal(b, dstOff, |buf|).value)), rs) else (Storing(buf, 0), rs)
    case (Copy(_, _, dst, dstOff, _), Storing(data, k)) => MicroStore(dst, dstOff, data, k, rs)
    case _ => (Finished(Err(NotResident)), rs)
  }

  function MicroStore(id: u16, off: u32, data: bytes, k: nat, rs: Regions): (Local, Regions)
    requires Exists(rs, id)
  {
    if k >= |data| then (Finished(Ok(D.Done)), rs)
    else
      var (l, r) := StoreByte(rs[id].value, off, data, k);
      (l, Put(rs, id, r))
  }

  function Less(a: nat, b: nat): nat { if a < b then b - a else 0 }

  /** How many micro steps a call has left at most. */
  function Cost(c: Call, l: Local): nat {
    match l
    case Begin => (match c case Read(_, len) => len + 2 case Write(_, data) => |data| + 2 case Copy(_, _, _, _, len) => 2 * len + 4 case _ => 2)
    case Took(_) => 1
    case Fetching(buf) => (match c case Copy(_, _, _, _, len) => 2 * Less(|buf|, len) + |buf| + 3 case Read(_, len) => Less(|buf|, len) + 1 case _ => 1)
    case Fetched(buf) => |buf| + 2
    case Storing(data, k) => Less(k, |data|) + 1
    case Finished(_) => 0
  }

  lemma MicroCost(c: Call, l: Local, rs: Regions)
    requires Reachable(rs, c) && !l.Finished?
    ensures Cost(c, Micro(c, l, rs).0) < Cost(c, l)
  {
  }

  // ---------------------------------------------------------------------------------------------
  // A critical section touches its own regions only.
  // ---------------------------------------------------------------------------------------------

  ghost predicate SameShape(a: Regions, b: Regions) {
    |a| == |b| && forall i :: 0 <= i < |a| ==> (a[i].Some? <==> b[i].Some?)
  }

  ghost predicate Agree(c: Call, a: Regions, b: Regions) {
    Reachable(a, c) && Reachable(b, c) && a[First(c)] == b[First(c)] && a[Second(c)] == b[Second(c)]
  }

  lemma MicroFrame(c: Call, l: Local, rs: Regions)
    requires Reachable(rs, c)
    ensures var t := Micro(c, l, rs).1;
      SameShape(rs, t) && forall id :: 0 <= id < |rs| && id != First(c) && id != Second(c) ==> t[id] == rs[id]
  {
  }

  lemma MicroLocal(c: Call, l: Local, a: Regions, b: Regions)
    requires Agree(c, a, b)
    ensures Micro(c, l, a).0 == Micro(c, l, b).0 && Agree(c, Micro(c, l, a).1, Micro(c, l, b).1)
  {
  }

  /** The rest of a call, run without interruption. */
  function Finish(c: Call, l: Local, rs: Regions): (Regions, D.Outcome)
    requires Reachable(rs, c)
    decreases Cost(c, l)
  {
    match l
    case Finished(outcome) => (rs, outcome)
    case _ =>
      MicroFrame(c, l, rs);
      MicroCost(c, l, rs);
      var (m, t) := Micro(c, l, rs);
      Finish(c, m, t)
  }

  lemma {:induction false} FinishFrame(c: Call, l: Local, rs: Regions)
    requires Reachable(rs, c)
    ensures var t := Finish(c, l, rs).0;
      SameShape(rs, t) && forall id :: 0 <= id < |rs| && id != First(c) && id != Second(c) ==> t[id] == rs[id]
    decreases Cost(c, l)
  {
    if !l.Finished? {
      MicroFrame(c, l, rs);
      MicroCost(c, l, rs);
      FinishFrame(c, Micro(c, l, rs).0, Micro(c, l, rs).1);
    }
  }

  lemma {:induction false} FinishLocal(c: Call, l: Local, a: Regions, b: Regions)
    requires Agree(c, a, b)
    ensures Finish(c, l, a).1 == Finish(c, l, b).1 && Agree(c, Finish(c, l, a).0, Finish(c, l, b).0)
    decreases Cost(c, l)
  {
    if !l.Finished? {
      MicroLocal(c, l, a, b);
      MicroCost(c, l, a);
      FinishLocal(c, Micro(c, l, a).0, Micro(c, l, a).1, Micro(c, l, b).1);
    }
  }

  // ---------------------------------------------------------------------------------------------
  // One call at a time.
  // ---------------------------------------------------------------------------------------------

  /** A call run alone: look up its regions, then run the critical section. */
  function Alone(rs: Regions, c: Call): (Regions, D.Outcome) {
    if !Exists(rs, First(c)) then (rs, Err(RegionNotFound(First(c))))
    else if !Exists(rs, Second(c)) then (rs, Err(RegionNotFound(Second(c))))
    else Finish(c, Begin, rs)
  }

  /** A call and the thread that made it, in the order of last locks. */
  datatype Logged = Logged(tid: nat, call: Call)

  function Replay(rs: Regions, log: seq<Logged>): Regions {
    if log == [] then rs else Alone(Replay(rs, log[..|log| - 1]), log[|log| - 1].call).0
  }

  datatype Answered = Answered(call: Call, outcome: D.Outcome)

  /** What the one-at-a-time run answers to thread `tid`, in order. */
  function Answers(rs: Regions, log: seq<Logged>, tid: nat): seq<Answered> {
    if log == [] then []
    else
      var before := log[..|log| - 1];
      var last := log[|log| - 1];
      Answers(rs, before, tid) + (if last.tid == tid then [Answered(last.call, Alone(Replay(rs, before), last.call).1)] else [])
  }

  lemma ReplayStep(rs: Regions, log: seq<Logged>, tid: nat, c: Call, other: nat)
    ensures var now := log + [Logged(tid, c)]; var (t, o) := Alone(Replay(rs, log), c);
      && Replay(rs, now) == t
      && Answers(rs, now, tid) == Answers(rs, log, tid) + [Answered(c, o)]
      && (other != tid ==> Answers(rs, now, other) == Answers(rs, log, other))
  {
    assert (log + [Logged(tid, c)])[..|log|] == log;
  }

  lemma AloneShape(rs: Regions, c: Call)
    ensures SameShape(rs, Alone(rs, c).0)
    ensures forall id :: 0 <= id < |rs| && id != First(c) && id != Second(c) ==> Alone(rs, c).0[id] == rs[id]
  {
    if Reachable(rs, c) { FinishFrame(c, Begin, rs); }
  }

  lemma {:induction false} ReplayShape(rs: Regions, log: seq<Logged>)
    ensures SameShape(rs, Replay(rs, log))
  {
    if log != [] {
      ReplayShape(rs, log[..|log| - 1]);
      AloneShape(Replay(rs, log[..|log| - 1]), log[|log| - 1].call);
    }
  }

  // ---------------------------------------------------------------------------------------------
  // Threads.
  // ---------------------------------------------------------------------------------------------

  datatype Phase =
    | Idle
    | Looking(call: Call)
    | LookingTwice(call: Call)
    | Locking(call: Call, need: seq<u16>)
    | Inside(call: Call, local: Local)
    | Leaving(call: Call, outcome: D.Outcome, held: seq<u16>)

  datatype Thread = Thread(todo: seq<Call>, phase: Phase, done: seq<Answered>)

  /** `owner` maps each held entry lock to its thread; `log` records who took a last lock when. */
  datatype State = State(regions: Regions, owner: map<u16, nat>, threads: seq<Thread>, log: seq<Logged>)

  function SetThread(s: State, t: nat, th: Thread): State
    requires t < |s.threads|
  {
    s.(threads := s.threads[t := th])
  }

  function Refuse(s: State, t: nat, c: Call, id: u16): State
    requires t < |s.threads|
  {
    var th := s.threads[t];
    SetThread(s, t, th.(phase := Idle, done := th.done + [Answered(c, Err(RegionNotFound(id)))])).(log := s.log + [Logged(t, c)])
  }

  function TakeLow(s: State, t: nat, c: Call, need: seq<u16>): State
    requires t < |s.threads| && need != []
  {
    SetThread(s, t, s.threads[t].(phase := Locking(c, need[1..]))).(owner := s.owner[need[0] := t])
  }

  function TakeLast(s: State, t: nat, c: Call, id: u16): State
    requires t < |s.threads|
  {
    SetThread(s, t, s.threads[t].(phase := Inside(c, Begin))).(owner := s.owner[id := t], log := s.log + [Logged(t, c)])
  }

  /** Thread `t` takes its next step if it can; a thread whose next lock is taken waits. */
  function Step(s: State, t: nat): State {
    if t >= |s.threads| then s
    else
      var th := s.threads[t];
      match th.phase
      case Idle =>
        if th.todo == [] then s else SetThread(s, t, Thread(th.todo[1..], Looking(th.todo[0]), th.done))
      case Looking(c) =>
        if !Exists(s.regions, First(c)) then Refuse(s, t, c, First(c))
        else if First(c) == Second(c) then SetThread(s, t, th.(phase := Locking(c, Locks(c))))
        else SetThread(s, t, th.(phase := LookingTwice(c)))
      case LookingTwice(c) =>
        if !Exists(s.regions, Second(c)) then Refuse(s, t, c, Second(c))
        else SetThread(s, t, th.(phase := Locking(c, Locks(c))))
      case Locking(c, need) =>
        if need == [] || need[0] in s.owner then s
        else if |need| == 1 then TakeLast(s, t, c, need[0])
        else TakeLow(s, t, c, need)
      case Inside(c, l) =>
        if l.Finished? then SetThread(s, t, th.(phase := Leaving(c, l.outcome, Locks(c))))
        else if !Reachable(s.regions, c) then s
        else
          var (m, rs) := Micro(c, l, s.regions);
          SetThread(s, t, th.(phase := Inside(c, m))).(regions := rs)
      case Leaving(c, outcome, held) =>
        if held == [] then SetThread(s, t, Thread(th.todo, Idle, th.done + [Answered(c, outcome)]))
        else SetThread(s, t, th.(phase := Leaving(c, outcome, held[1..]))).(owner := s.owner - {held[0]})
  }

  function Run(s: State, schedule: seq<nat>): State {
    if schedule == [] then s else Step(Run(s, schedule[..|schedule| - 1]), schedule[|schedule| - 1])
  }

  // ---------------------------------------------------------------------------------------------
  // Invariant.
  // ---------------------------------------------------------------------------------------------

  /** Whether a thread in this phase holds an entry lock. */
  predicate Holds(p: Phase, id: u16) {
    match p
    case Locking(c, need) => id in Locks(c) && id !in need
    case Inside(c, _) => id in Locks(c)
    case Leaving(_, _, held) => id in held
    case _ => false
  }

  ghost predicate OwnersHold(s: State) {
    forall id :: id in s.owner ==> s.owner[id] < |s.threads| && Holds(s.threads[s.owner[id]].phase, id)
  }

  ghost predicate HoldersOwn(s: State) {
    forall t, id :: 0 <= t < |s.threads| && Holds(s.threads[t].phase, id) ==> id in s.owner && s.owner[id] == t
  }

  ghost predicate LocksOk(s: State) { OwnersHold(s) && HoldersOwn(s) }

  /** A region some thread is in the middle of changing. */
  predicate Busy(s: State, id: u16) {
    id in s.owner && s.owner[id] < |s.threads| && s.threads[s.owner[id]].phase.Inside?
  }

  /** Every other region is as the one-at-a-time run has it. */
  ghost predicate QuietAgree(s: State, rs0: Regions) {
    && SameShape(rs0, s.regions)
    && forall id: u16 :: id < |s.regions| && !Busy(s, id) ==> s.regions[id] == At(Replay(rs0, s.log), id)
  }

  function At(rs: Regions, id: u16): Option<D.Region> { if id < |rs| then rs[id] else None }

  /** Where a thread stands, given what the one-at-a-time run has answered to it. */
  ghost predicate PhaseOk(p: Phase, done: seq<Answered>, answers: seq<Answered>, conc: Regions, abs: Regions) {
    match p
    case Idle => answers == done
    case Looking(_) => answers == done
    case LookingTwice(c) => answers == done && Exists(conc, First(c)) && First(c) != Second(c)
    case Locking(c, need) =>
      && answers == done && Reachable(conc, c)
      && (need == Locks(c) || (|Locks(c)| == 2 && need == Locks(c)[1..]))
    case Inside(c, l) =>
      && Reachable(conc, c) && Reachable(abs, c)
      && var (rs, o) := Finish(c, l, conc);
      && answers == done + [Answered(c, o)]
      && At(rs, First(c)) == abs[First(c)] && At(rs, Second(c)) == abs[Second(c)]
    case Leaving(c, outcome, held) => answers == done + [Answered(c, outcome)] && (|held| == 2 ==> held[0] != held[1]) && |held| <= 2
  }

  ghost predicate ThreadOk(s: State, rs0: Regions, t: nat)
    requires t < |s.threads|
  {
    PhaseOk(s.threads[t].phase, s.threads[t].done, Answers(rs0, s.log, t), s.regions, Replay(rs0, s.log))
  }

  ghost predicate Inv(s: State, rs0: Regions) {
    LocksOk(s) && QuietAgree(s, rs0) && forall t :: 0 <= t < |s.threads| ==> ThreadOk(s, rs0, t)
  }

  // ---------------------------------------------------------------------------------------------
  // One step.
  // ---------------------------------------------------------------------------------------------

  /** What a step of `t` does to the others: nothing outside `touched`, which none of them holds. */
  ghost predicate Frame(s: State, s': State, rs0: Regions, t: nat, touched: set<u16>) {
    && t < |s.threads| && |s'.threads| == |s.threads|
    && (forall u :: 0 <= u < |s.threads| && u != t ==> s'.threads[u] == s.threads[u] && Answers(rs0, s'.log, u) == Answers(rs0, s.log, u))
    && SameShape(s.regions, s'.regions)
    && (forall id: u16 :: id !in touched ==>
          At(s'.regions, id) == At(s.regions, id) && At(Replay(rs0, s'.log), id) == At(Replay(rs0, s.log), id))
    && (forall id :: id in touched ==> Holds(s.threads[t].phase, id) || id !in s.owner)
  }

  lemma OtherOk(s: State, s': State, rs0: Regions, t: nat, u: nat, touched: set<u16>)
    requires Inv(s, rs0) && Frame(s, s', rs0, t, touched) && u < |s.threads| && u != t
    ensures ThreadOk(s', rs0, u)
  {
    assert ThreadOk(s, rs0, u);
    var p := s.threads[u].phase;
    if p.Inside? {
      ReplayShape(rs0, s'.log);
      HeldElsewhere(s, t, u, First(p.call), touched);
      HeldElsewhere(s, t, u, Second(p.call), touched);
      assert At(s.regions, First(p.call)) == At(s'.regions, First(p.call));
      assert At(s.regions, Second(p.call)) == At(s'.regions, Second(p.call));
      FinishLocal(p.call, p.local, s.regions, s'.regions);
    }
  }

  lemma HeldElsewhere(s: State, t: nat, u: nat, id: u16, touched: set<u16>)
    requires LocksOk(s) && t < |s.threads| && u < |s.threads| && u != t && Holds(s.threads[u].phase, id)
    requires forall x :: x in touched ==> Holds(s.threads[t].phase, x) || x !in s.owner
    ensures id !in touched
  {
    assert id in s.owner && s.owner[id] == u;
  }

  /** `t` keeps exactly the locks it had. */
  lemma LocksKept(s: State, s': State, t: nat)
    requires LocksOk(s) && t < |s.threads| && s'.owner == s.owner && |s'.threads| == |s.threads|
    requires forall u :: 0 <= u < |s.threads| && u != t ==> s'.threads[u] == s.threads[u]
    requires forall id :: Holds(s'.threads[t].phase, id) <==> Holds(s.threads[t].phase, id)
    ensures LocksOk(s')
  {
  }

  lemma LockTaken(s: State, s': State, t: nat, id: u16)
    requires LocksOk(s) && t < |s.threads| && id !in s.owner && s'.owner == s.owner[id := t] && |s'.threads| == |s.threads|
    requires forall u :: 0 <= u < |s.threads| && u != t ==> s'.threads[u] == s.threads[u]
    requires forall x :: Holds(s'.threads[t].phase, x) <==> Holds(s.threads[t].phase, x) || x == id
    ensures LocksOk(s')
  {
  }

  /** `t` gives up `id` and nothing else. */
  ghost predicate Drops(s: State, s': State, t: nat, id: u16) {
    && t < |s.threads| == |s'.threads| && s'.owner == s.owner - {id} && Holds(s.threads[t].phase, id)
    && (forall u :: 0 <= u < |s.threads| && u != t ==> s'.threads[u] == s.threads[u])
    && (forall x :: Holds(s'.threads[t].phase, x) <==> Holds(s.threads[t].phase, x) && x != id)
  }

  lemma OwnersAfterDrop(s: State, s': State, t: nat, id: u16)
    requires OwnersHold(s) && Drops(s, s', t, id)
    ensures OwnersHold(s')
  {
    forall x | x in s'.owner ensures s'.owner[x] < |s'.threads| && Holds(s'.threads[s'.owner[x]].phase, x) {
      assert x in s.owner && Holds(s.threads[s.owner[x]].phase, x);
    }
  }

  lemma HoldersAfterDrop(s: State, s': State, t: nat, id: u16)
    requires HoldersOwn(s) && Drops(s, s', t, id)
    ensures HoldersOwn(s')
  {
    forall u, x | 0 <= u < |s'.threads| && Holds(s'.threads[u].phase, x) ensures x in s'.owner && s'.owner[x] == u {
      assert Holds(s.threads[u].phase, x);
      assert s.owner[id] == t;
    }
  }

  /** The invariant after a step, once the stepping thread's own part is known. */
  lemma InvAfter(s: State, s': State, rs0: Regions, t: nat, touched: set<u16>)
    requires Inv(s, rs0) && Frame(s, s', rs0, t, touched) && LocksOk(s') && ThreadOk(s', rs0, t)
    requires forall id: u16 :: id !in touched && !Busy(s', id) ==> !Busy(s, id)
    requires forall id: u16 :: id in touched && id < |s'.regions| && !Busy(s', id) ==> s'.regions[id] == At(Replay(rs0, s'.log), id)
    ensures Inv(s', rs0)
  {
    forall u | 0 <= u < |s'.threads| ensures ThreadOk(s', rs0, u) {
      if u != t { OtherOk(s, s', rs0, t, u, touched); }
    }
    forall id: u16 | id < |s'.regions| && !Busy(s', id) ensures s'.regions[id] == At(Replay(rs0, s'.log), id) {
      if id !in touched { assert At(s'.regions, id) == At(s.regions, id); }
    }
  }

  /** Steps that change nothing but the thread's own phase, among phases that are not inside. */
  lemma PhaseStep(s: State, s': State, rs0: Regions, t: nat)
    requires Inv(s, rs0) && t < |s.threads| == |s'.threads| && s' == SetThread(s, t, s'.threads[t])
    requires forall id :: Holds(s'.threads[t].phase, id) <==> Holds(s.threads[t].phase, id)
    requires !s.threads[t].phase.Inside? && ThreadOk(s', rs0, t)
    ensures Inv(s', rs0)
  {
    LocksKept(s, s', t);
    InvAfter(s, s', rs0, t, {});
  }

  lemma RefuseStep(s: State, rs0: Regions, t: nat, c: Call, id: u16)
    requires Inv(s, rs0) && t < |s.threads| && (s.threads[t].phase == Looking(c) || s.threads[t].phase == LookingTwice(c))
    requires if s.threads[t].phase.Looking? then id == First(c) else id == Second(c)
    requires !Exists(s.regions, id)
    ensures Inv(Refuse(s, t, c, id), rs0)
  {
    var s' := Refuse(s, t, c, id);
    ReplayShape(rs0, s.log);
    assert ThreadOk(s, rs0, t);
    assert Alone(Replay(rs0, s.log), c) == (Replay(rs0, s.log), Err(RegionNotFound(id)));
    ReplayStep(rs0, s.log, t, c, t);
    forall u | 0 <= u < |s.threads| && u != t ensures Answers(rs0, s'.log, u) == Answers(rs0, s.log, u) {
      ReplayStep(rs0, s.log, t, c, u);
    }
    LocksKept(s, s', t);
    InvAfter(s, s', rs0, t, {});
  }

  /** Taking the lower of two locks. */
  lemma LowLockStep(s: State, rs0: Regions, t: nat, c: Call, need: seq<u16>)
    requires Inv(s, rs0) && t < |s.threads| && s.threads[t].phase == Locking(c, need) && |need| == 2 && need[0] !in s.owner
    ensures Inv(TakeLow(s, t, c, need), rs0)
  {
    var s' := TakeLow(s, t, c, need);
    assert ThreadOk(s, rs0, t);
    LockTaken(s, s', t, need[0]);
    InvAfter(s, s', rs0, t, {});
  }

  lemma HeldAfterLast(c: Call, need: seq<u16>)
    requires |need| == 1 && (need == Locks(c) || (|Locks(c)| == 2 && need == Locks(c)[1..]))
    ensures forall x :: Holds(Inside(c, Begin), x) <==> Holds(Locking(c, need), x) || x == need[0]
  {
  }

  /** Taking the last lock: the moment at which the call takes effect in the one-at-a-time run. */
  lemma LastLockStep(s: State, rs0: Regions, t: nat, c: Call, need: seq<u16>)
    requires Inv(s, rs0) && t < |s.threads| && s.threads[t].phase == Locking(c, need) && |need| == 1 && need[0] !in s.owner
    ensures Inv(TakeLast(s, t, c, need[0]), rs0)
  {
    var s' := TakeLast(s, t, c, need[0]);
    LastLockLocks(s, rs0, t, c, need);
    EffectAtLastLock(s, rs0, t, c, need);
    LastLockFrame(s, rs0, t, c, need);
    InvAfter(s, s', rs0, t, set id | id in Locks(c));
  }

  lemma LastLockLocks(s: State, rs0: Regions, t: nat, c: Call, need: seq<u16>)
    requires Inv(s, rs0) && t < |s.threads| && s.threads[t].phase == Locking(c, need) && |need| == 1 && need[0] !in s.owner
    ensures LocksOk(TakeLast(s, t, c, need[0]))
    ensures forall id :: id in Locks(c) ==> Busy(TakeLast(s, t, c, need[0]), id)
    ensures forall id :: Busy(s, id) ==> Busy(TakeLast(s, t, c, need[0]), id)
  {
    var s' := TakeLast(s, t, c, need[0]);
    assert ThreadOk(s, rs0, t);
    HeldAfterLast(c, need);
    LockTaken(s, s', t, need[0]);
    forall id | id in Locks(c) ensures Busy(s', id) { assert Holds(s'.threads[t].phase, id); }
  }

  lemma LastLockFrame(s: State, rs0: Regions, t: nat, c: Call, need: seq<u16>)
    requires Inv(s, rs0) && t < |s.threads| && s.threads[t].phase == Locking(c, need) && |need| == 1 && need[0] !in s.owner
    ensures Frame(s, TakeLast(s, t, c, need[0]), rs0, t, set id | id in Locks(c))
  {
    var s' := TakeLast(s, t, c, need[0]);
    assert ThreadOk(s, rs0, t);
    HeldAfterLast(c, need);
    ReplayOutside(rs0, s.log, t, c);
    forall u | 0 <= u < |s.threads| && u != t ensures Answers(rs0, s'.log, u) == Answers(rs0, s.log, u) {
      ReplayStep(rs0, s.log, t, c, u);
    }
    forall id | id in Locks(c) ensures Holds(s.threads[t].phase, id) || id !in s.owner {
      assert Holds(Inside(c, Begin), id);
    }
  }

  lemma ReplayOutside(rs0: Regions, log: seq<Logged>, t: nat, c: Call)
    ensures forall id: u16 :: id !in Locks(c) ==> At(Replay(rs0, log + [Logged(t, c)]), id) == At(Replay(rs0, log), id)
  {
    ReplayStep(rs0, log, t, c, t);
    AloneShape(Replay(rs0, log), c);
  }

  /** With all its locks, the call would finish as the replay says. */
  lemma EffectAtLastLock(s: State, rs0: Regions, t: nat, c: Call, need: seq<u16>)
    requires Inv(s, rs0) && t < |s.threads| && s.threads[t].phase == Locking(c, need) && |need| == 1 && need[0] !in s.owner
    ensures var log := s.log + [Logged(t, c)];
      PhaseOk(Inside(c, Begin), s.threads[t].done, Answers(rs0, log, t), s.regions, Replay(rs0, log))
  {
    assert ThreadOk(s, rs0, t);
    ReplayShape(rs0, s.log);
    NotBusy(s, rs0, t, c, need, First(c));
    NotBusy(s, rs0, t, c, need, Second(c));
    FinishLocal(c, Begin, s.regions, Replay(rs0, s.log));
    ReplayStep(rs0, s.log, t, c, t);
    AloneShape(Replay(rs0, s.log), c);
  }

  /** A region whose lock is free, or held by a thread still waiting, is as the replay has it. */
  lemma NotBusy(s: State, rs0: Regions, t: nat, c: Call, need: seq<u16>, id: u16)
    requires Inv(s, rs0) && t < |s.threads| && s.threads[t].phase == Locking(c, need) && |need| == 1 && need[0] !in s.owner
    requires id in Locks(c)
    ensures At(s.regions, id) == At(Replay(rs0, s.log), id)
  {
    assert ThreadOk(s, rs0, t);
    if id in s.owner { assert Holds(s.threads[t].phase, id); }
    assert !Busy(s, id);
    ReplayShape(rs0, s.log);
  }

  /** A step of a thread that holds the same locks afterwards and touches only those regions. */
  lemma HoldingStep(s: State, s': State, rs0: Regions, t: nat, c: Call)
    requires Inv(s, rs0) && t < |s.threads| && s.threads[t].phase.Inside? && s.threads[t].phase.call == c
    requires Frame(s, s', rs0, t, set id | id in Locks(c)) && s'.owner == s.owner && ThreadOk(s', rs0, t)
    requires forall id :: Holds(s'.threads[t].phase, id) <==> id in Locks(c)
    requires forall id: u16 :: id in Locks(c) && id < |s'.regions| && !Busy(s', id) ==> s'.regions[id] == At(Replay(rs0, s'.log), id)
    ensures Inv(s', rs0)
  {
    LocksKept(s, s', t);
    InvAfter(s, s', rs0, t, set id | id in Locks(c));
  }

  lemma MicroFacts(s: State, rs0: Regions, t: nat, c: Call)
    requires Inv(s, rs0) && t < |s.threads| && s.threads[t].phase.Inside? && !s.threads[t].phase.local.Finished?
    requires s.threads[t].phase.call == c
    ensures var s' := Step(s, t); t < |s'.threads| && ThreadOk(s', rs0, t) && Frame(s, s', rs0, t, set id | id in Locks(c))
  {
    assert ThreadOk(s, rs0, t);
    MicroFrame(c, s.threads[t].phase.local, s.regions);
  }

  /** Inside its locks the thread stays inside them. */
  lemma MicroBusy(s: State, t: nat, c: Call)
    requires LocksOk(s) && t < |s.threads| && s.threads[t].phase.Inside? && !s.threads[t].phase.local.Finished?
    requires s.threads[t].phase.call == c && Reachable(s.regions, c)
    ensures var s' := Step(s, t);
      && s'.owner == s.owner && t < |s'.threads|
      && (forall id :: Holds(s'.threads[t].phase, id) <==> id in Locks(c))
      && (forall id: u16 :: id in Locks(c) ==> Busy(s', id))
  {
    forall id: u16 | id in Locks(c) ensures Busy(Step(s, t), id) { assert Holds(s.threads[t].phase, id); }
  }

  lemma MicroStep(s: State, rs0: Regions, t: nat)
    requires Inv(s, rs0) && t < |s.threads| && s.threads[t].phase.Inside? && !s.threads[t].phase.local.Finished?
    ensures Inv(Step(s, t), rs0)
  {
    var c := s.threads[t].phase.call;
    assert ThreadOk(s, rs0, t);
    MicroFacts(s, rs0, t, c);
    MicroBusy(s, t, c);
    HoldingStep(s, Step(s, t), rs0, t, c);
  }

  lemma LeaveFacts(s: State, rs0: Regions, t: nat, c: Call)
    requires Inv(s, rs0) && t < |s.threads| && s.threads[t].phase.Inside? && s.threads[t].phase.local.Finished?
    requires s.threads[t].phase.call == c
    ensures var s' := Step(s, t); t < |s'.threads| && ThreadOk(s', rs0, t) && Frame(s, s', rs0, t, set id | id in Locks(c))
    ensures var s' := Step(s, t); s'.owner == s.owner && s'.regions == s.regions && s'.log == s.log
    ensures forall id :: Holds(Step(s, t).threads[t].phase, id) <==> id in Locks(c)
  {
    assert ThreadOk(s, rs0, t);
  }

  /** A finished call has left its regions as the replay has them. */
  lemma LeaveRegions(s: State, rs0: Regions, t: nat, c: Call, id: u16)
    requires Inv(s, rs0) && t < |s.threads| && s.threads[t].phase.Inside? && s.threads[t].phase.local.Finished?
    requires s.threads[t].phase.call == c && id in Locks(c) && id < |s.regions|
    ensures s.regions[id] == At(Replay(rs0, s.log), id)
  {
    assert ThreadOk(s, rs0, t);
    ReplayShape(rs0, s.log);
  }

  lemma LeaveStep(s: State, rs0: Regions, t: nat)
    requires Inv(s, rs0) && t < |s.threads| && s.threads[t].phase.Inside? && s.threads[t].phase.local.Finished?
    ensures Inv(Step(s, t), rs0)
  {
    var c := s.threads[t].phase.call;
    LeaveFacts(s, rs0, t, c);
    forall id: u16 | id in Locks(c) && id < |s.regions| ensures s.regions[id] == At(Replay(rs0, s.log), id) {
      LeaveRegions(s, rs0, t, c, id);
    }
    HoldingStep(s, Step(s, t), rs0, t, c);
  }

  /** A thread that is leaving makes no region busy, so giving up a lock changes none. */
  lemma ReleaseBusy(s: State, t: nat, id: u16)
    requires LocksOk(s) && t < |s.threads| && s.threads[t].phase.Leaving? && s.threads[t].phase.held != [] && Busy(s, id)
    ensures Busy(Step(s, t), id)
  {
    var x := s.threads[t].phase.held[0];
    assert Holds(s.threads[t].phase, x);
    assert x in s.owner && s.owner[x] == t;
  }

  lemma ReleaseFacts(s: State, rs0: Regions, t: nat)
    requires Inv(s, rs0) && t < |s.threads| && s.threads[t].phase.Leaving? && s.threads[t].phase.held != []
    ensures var s' := Step(s, t);
      && Drops(s, s', t, s.threads[t].phase.held[0]) && Frame(s, s', rs0, t, {}) && ThreadOk(s', rs0, t)
      && forall id: u16 :: !Busy(s', id) ==> !Busy(s, id)
  {
    assert ThreadOk(s, rs0, t);
    forall id: u16 | Busy(s, id) ensures Busy(Step(s, t), id) { ReleaseBusy(s, t, id); }
  }

  lemma ReleaseStep(s: State, rs0: Regions, t: nat)
    requires Inv(s, rs0) && t < |s.threads| && s.threads[t].phase.Leaving? && s.threads[t].phase.held != []
    ensures Inv(Step(s, t), rs0)
  {
    var s' := Step(s, t);
    var held := s.threads[t].phase.held;
    ReleaseFacts(s, rs0, t);
    OwnersAfterDrop(s, s', t, held[0]);
    HoldersAfterDrop(s, s', t, held[0]);
    InvAfter(s, s', rs0, t, {});
  }

  lemma StepKeepsInv(s: State, rs0: Regions, t: nat)
    requires Inv(s, rs0)
    ensures Inv(Step(s, t), rs0)
  {
    if t < |s.threads| {
      var s' := Step(s, t);
      assert ThreadOk(s, rs0, t);
      match s.threads[t].phase
      case Idle => if s.threads[t].todo != [] { PhaseStep(s, s', rs0, t); }
      case Looking(c) => if !Exists(s.regions, First(c)) { RefuseStep(s, rs0, t, c, First(c)); } else { PhaseStep(s, s', rs0, t); }
      case LookingTwice(c) => if !Exists(s.regions, Second(c)) { RefuseStep(s, rs0, t, c, Second(c)); } else { PhaseStep(s, s', rs0, t); }
      case Locking(c, need) =>
        if need[0] !in s.owner { if |need| == 1 { LastLockStep(s, rs0, t, c, need); } else { LowLockStep(s, rs0, t, c, need); } }
      case Inside(c, l) => if l.Finished? { LeaveStep(s, rs0, t); } else { MicroStep(s, rs0, t); }
      case Leaving(c, outcome, held) => if held == [] { PhaseStep(s, s', rs0, t); } else { ReleaseStep(s, rs0, t); }
    }
  }

  // ---------------------------------------------------------------------------------------------
  // Every schedule.
  // ---------------------------------------------------------------------------------------------

  /** Threads that have not started, on any regions. */
  ghost predicate Fresh(s: State) {
    s.owner == map[] && s.log == [] && forall t :: 0 <= t < |s.threads| ==> s.threads[t].phase == Idle && s.threads[t].done == []
  }

  lemma FreshInv(s: State)
    requires Fresh(s)
    ensures Inv(s, s.regions)
  {
    forall t | 0 <= t < |s.threads| ensures ThreadOk(s, s.regions, t) {}
  }

  lemma {:induction false} RunKeepsInv(s: State, schedule: seq<nat>)
    requires Fresh(s)
    ensures Inv(Run(s, schedule), s.regions)
  {
    if schedule == [] { FreshInv(s); } else {
      RunKeepsInv(s, schedule[..|schedule| - 1]);
      StepKeepsInv(Run(s, schedule[..|schedule| - 1]), s.regions, schedule[|schedule| - 1]);
    }
  }

  function CallsOf(done: seq<Answered>): seq<Call> {
    if done == [] then [] else CallsOf(done[..|done| - 1]) + [done[|done| - 1].call]
  }

  /** The calls of a thread, finished, under way and to come. */
  function Program(th: Thread): seq<Call> {
    CallsOf(th.done) + (if th.phase.Idle? then [] else [th.phase.call]) + th.todo
  }

  lemma OtherThreads(s: State, t: nat)
    ensures |Step(s, t).threads| == |s.threads|
    ensures forall u :: 0 <= u < |s.threads| && u != t ==> Step(s, t).threads[u] == s.threads[u]
  {
  }

  lemma CallsAppend(done: seq<Answered>, a: Answered)
    ensures CallsOf(done + [a]) == CallsOf(done) + [a.call]
  {
    assert (done + [a])[..|done|] == done;
  }

  /** The stepping thread: its call, if any, stays the same until it is answered. */
  lemma OwnThread(s: State, t: nat)
    requires t < |s.threads|
    ensures |Step(s, t).threads| == |s.threads|
    ensures var th := s.threads[t]; var th' := Step(s, t).threads[t];
      || (th.phase.Idle? && th'.phase.Idle? && th' == th)
      || (th.phase.Idle? && th'.phase.Looking? && th.todo == [th'.phase.call] + th'.todo && th'.done == th.done)
      || (!th.phase.Idle? && !th'.phase.Idle? && th'.phase.call == th.phase.call && th'.todo == th.todo && th'.done == th.done)
      || (!th.phase.Idle? && th'.phase.Idle? && th'.todo == th.todo && exists o :: th'.done == th.done + [Answered(th.phase.call, o)])
  {
    var th := s.threads[t];
    match th.phase
    case Idle =>
    case Looking(c) => if !Exists(s.regions, First(c)) { assert Refuse(s, t, c, First(c)).threads[t].done == th.done + [Answered(c, Err(RegionNotFound(First(c))))]; }
    case LookingTwice(c) => if !Exists(s.regions, Second(c)) { assert Refuse(s, t, c, Second(c)).threads[t].done == th.done + [Answered(c, Err(RegionNotFound(Second(c))))]; }
    case Leaving(c, outcome, held) => if held == [] { assert Step(s, t).threads[t].done == th.done + [Answered(c, outcome)]; }
    case _ =>
  }

  lemma StepKeepsProgram(s: State, t: nat, u: nat)
    requires u < |s.threads|
    ensures |Step(s, t).threads| == |s.threads| && Program(Step(s, t).threads[u]) == Program(s.threads[u])
  {
    OtherThreads(s, t);
    if u == t {
      OwnThread(s, t);
      var th, th' := s.threads[t], Step(s, t).threads[t];
      ProgramStep(th, th');
    }
  }

  lemma ProgramStep(th: Thread, th': Thread)
    requires
      || (th.phase.Idle? && th'.phase.Idle? && th' == th)
      || (th.phase.Idle? && th'.phase.Looking? && th.todo == [th'.phase.call] + th'.todo && th'.done == th.done)
      || (!th.phase.Idle? && !th'.phase.Idle? && th'.phase.call == th.phase.call && th'.todo == th.todo && th'.done == th.done)
      || (!th.phase.Idle? && th'.phase.Idle? && th'.todo == th.todo && exists o :: th'.done == th.done + [Answered(th.phase.call, o)])
    ensures Program(th') == Program(th)
  {
    if !th.phase.Idle? && th'.phase.Idle? {
      var o :| th'.done == th.done + [Answered(th.phase.call, o)];
      CallsAppend(th.done, Answered(th.phase.call, o));
    }
  }

  lemma {:induction false} RunKeepsProgram(s: State, schedule: seq<nat>, u: nat)
    requires u < |s.threads|
    ensures |Run(s, schedule).threads| == |s.threads| && Program(Run(s, schedule).threads[u]) == Program(s.threads[u])
  {
    if schedule != [] {
      var before := Run(s, schedule[..|schedule| - 1]);
      RunKeepsProgram(s, schedule[..|schedule| - 1], u);
      StepKeepsProgram(before, schedule[|schedule| - 1], u);
    }
  }

  /** Whatever the schedule, each thread has been answered what the one-at-a-time run in last-lock
      order answers to it, its calls come in its own order, and once no call is under way the
      regions are the ones that run leaves. */
  lemma Linearizable(s: State, schedule: seq<nat>)
    requires Fresh(s) && |s.regions| <= U16_MAX + 1
    ensures var e := Run(s, schedule);
      && |e.threads| == |s.threads|
      && (forall t :: 0 <= t < |s.threads| ==> AsIfAlone(e.threads[t], s.threads[t].todo, Answers(s.regions, e.log, t)))
      && ((forall t :: 0 <= t < |s.threads| ==> e.threads[t].phase.Idle?) ==> e.regions == Replay(s.regions, e.log))
  {
    var e := Run(s, schedule);
    RunWidth(s, schedule);
    RunKeepsInv(s, schedule);
    forall t | 0 <= t < |s.threads| ensures AsIfAlone(e.threads[t], s.threads[t].todo, Answers(s.regions, e.log, t)) {
      RunKeepsProgram(s, schedule, t);
      ProgramAtStart(s.threads[t]);
      ThreadAnswered(e, s.regions, t);
    }
    if forall t :: 0 <= t < |s.threads| ==> e.threads[t].phase.Idle? { QuietRegions(e, s.regions); }
  }

  /** A thread that was to make the calls `program` has got these answers so far, at most one of
      which it has yet to report. */
  ghost predicate AsIfAlone(th: Thread, program: seq<Call>, answers: seq<Answered>) {
    && Program(th) == program
    && (answers == th.done || exists c, o :: !th.phase.Idle? && c == th.phase.call && answers == th.done + [Answered(c, o)])
  }

  lemma ProgramAtStart(th: Thread)
    requires th.phase == Idle && th.done == []
    ensures Program(th) == th.todo
  {
  }

  lemma ThreadAnswered(e: State, rs0: Regions, t: nat)
    requires t < |e.threads| && ThreadOk(e, rs0, t)
    ensures AsIfAlone(e.threads[t], Program(e.threads[t]), Answers(rs0, e.log, t))
  {
    match e.threads[t].phase
    case Inside(c, l) => assert Answers(rs0, e.log, t) == e.threads[t].done + [Answered(c, Finish(c, l, e.regions).1)];
    case Leaving(c, outcome, _) => assert Answers(rs0, e.log, t) == e.threads[t].done + [Answered(c, outcome)];
    case _ =>
  }

  lemma QuietRegions(e: State, rs0: Regions)
    requires Inv(e, rs0) && |rs0| <= U16_MAX + 1
    requires forall t :: 0 <= t < |e.threads| ==> e.threads[t].phase.Idle?
    ensures e.regions == Replay(rs0, e.log)
  {
    ReplayShape(rs0, e.log);
    forall i | 0 <= i < |e.regions| ensures e.regions[i] == Replay(rs0, e.log)[i] {
      var id: u16 := i;
      assert !Busy(e, id);
    }
  }

  lemma {:induction false} RunWidth(s: State, schedule: seq<nat>)
    ensures |Run(s, schedule).threads| == |s.threads|
  {
    if schedule != [] { RunWidth(s, schedule[..|schedule| - 1]); }
  }

  // ---------------------------------------------------------------------------------------------
  // Progress.
  // ---------------------------------------------------------------------------------------------

  predicate Unfinished(th: Thread) { !th.phase.Idle? || th.todo != [] }

  /** A thread not waiting for a taken lock can step. */
  lemma CanStep(s: State, rs0: Regions, t: nat)
    requires Inv(s, rs0) && t < |s.threads| && Unfinished(s.threads[t])
    requires s.threads[t].phase.Locking? ==> s.threads[t].phase.need != [] && s.threads[t].phase.need[0] !in s.owner
    ensures Step(s, t) != s
  {
    assert ThreadOk(s, rs0, t);
    var th := s.threads[t];
    OwnThread(s, t);
    assert Step(s, t) == s ==> Step(s, t).threads[t] == th;
    match th.phase
    case Inside(c, l) => if !l.Finished? { MicroCost(c, l, s.regions); }
    case _ =>
  }

  /** Following a waiting thread to the holder of the lock it waits for climbs in region id. */
  lemma {:induction false} SomeoneCanStep(s: State, rs0: Regions, t: nat) returns (u: nat)
    requires Inv(s, rs0) && t < |s.threads| && Unfinished(s.threads[t])
    ensures Step(s, u) != s
    decreases if s.threads[t].phase.Locking? && s.threads[t].phase.need != [] then U16_MAX - s.threads[t].phase.need[0] else U16_MAX + 1
  {
    assert ThreadOk(s, rs0, t);
    if s.threads[t].phase.Locking? && s.threads[t].phase.need[0] in s.owner {
      var id := s.threads[t].phase.need[0];
      var v := s.owner[id];
      assert Holds(s.threads[v].phase, id) && ThreadOk(s, rs0, v);
      if s.threads[v].phase.Locking? { WaitsHigher(s.threads[v].phase.call, s.threads[v].phase.need, id); }
      if s.threads[v].phase.Locking? { u := SomeoneCanStep(s, rs0, v); } else { u := v; CanStep(s, rs0, v); }
    } else {
      u := t;
      CanStep(s, rs0, t);
    }
  }

  lemma WaitsHigher(c: Call, need: seq<u16>, id: u16)
    requires need == Locks(c) || (|Locks(c)| == 2 && need == Locks(c)[1..])
    requires id in Locks(c) && id !in need
    ensures need[0] > id
  {
  }

  /** No schedule leads to a deadlock: while some call is unfinished, some thread can step. */
  lemma NoDeadlock(s: State, schedule: seq<nat>, t: nat)
    requires Fresh(s) && t < |Run(s, schedule).threads| && Unfinished(Run(s, schedule).threads[t])
    ensures exists u :: Step(Run(s, schedule), u) != Run(s, schedule)
  {
    RunKeepsInv(s, schedule);
    var u := SomeoneCanStep(Run(s, schedule), s.regions, t);
  }

  // ---------------------------------------------------------------------------------------------
  // A call alone is the single-threaded call.
  // ---------------------------------------------------------------------------------------------

  function AsSys(rs: Regions): D.Sys { D.Sys(rs, [], 1, map[]) }

  lemma OneMore(c: Call, l: Local, rs: Regions)
    requires Reachable(rs, c) && !l.Finished?
    ensures var (m, t) := Micro(c, l, rs);
      && Reachable(t, c) && Finish(c, l, rs) == Finish(c, m, t)
      && (m.Finished? ==> Finish(c, l, rs) == (t, m.outcome))
  {
    MicroFrame(c, l, rs);
  }

  lemma AloneAlloc(rs: Regions, id: u16, size: u32)
    ensures var (t, o) := D.AllocAligned(AsSys(rs), id, size, 1); Alone(rs, Alloc(id, size)) == (t.regions, o)
  {
    var c := Alloc(id, size);
    if Reachable(rs, c) {
      OneMore(c, Begin, rs);
      var (l, t) := Micro(c, Begin, rs);
      if l.Took? { OneMore(c, l, t); }
    }
  }

  lemma AloneDealloc(rs: Regions, h: Handle)
    ensures var (t, o) := D.Dealloc(AsSys(rs), h); Alone(rs, Dealloc(h)) == (t.regions, o)
  {
    if Reachable(rs, Dealloc(h)) { OneMore(Dealloc(h), Begin, rs); }
  }

  lemma SliceStep(data: bytes, at: nat, n: nat)
    requires at + n < |data|
    ensures data[at..at + n] + [data[at + n]] == data[at..at + n + 1]
  {
  }

  /** The bytes fetched so far, completed one at a time, are the slice. */
  lemma {:induction false} FetchAll(c: Call, off: u32, len: u32, buf: bytes, rs: Regions)
    requires Reachable(rs, c)
    requires (c.Read? && c.h.offset == off && c.len == len) || (c.Copy? && c.srcOff == off && c.len == len)
    requires rs[First(c)].value.memory.Some? && off + len <= |rs[First(c)].value.memory.value.data|
    requires |buf| <= len && buf == rs[First(c)].value.memory.value.data[off..off + |buf|]
    ensures var all := Slice(rs[First(c)].value.memory.value.data, off, len);
      Finish(c, Fetching(buf), rs) == if c.Read? then (rs, Ok(D.Data(all))) else Finish(c, Fetched(all), rs)
    decreases len - |buf|
  {
    if |buf| < len {
      var data := rs[First(c)].value.memory.value.data;
      var next := buf + [data[off + |buf|]];
      SliceStep(data, off, |buf|);
      FetchAll(c, off, len, next, rs);
    }
  }

  lemma SpliceStep(mem: bytes, at: nat, data: bytes, k: nat)
    requires k < |data| && at + |data| <= |mem|
    ensures Splice(mem[at + k := data[k]], at + k + 1, data[k + 1..]) == Splice(mem, at + k, data[k..])
  {
  }

  lemma {:induction false} StoreAll(c: Call, id: u16, off: u32, data: bytes, k: nat, rs: Regions)
    requires Reachable(rs, c) && k <= |data|
    requires (c.Write? && c.h.regionId == id && c.h.offset == off) || (c.Copy? && c.dst == id && c.dstOff == off)
    requires rs[id].value.memory.Some? && off + |data| <= |rs[id].value.memory.value.data|
    ensures var r := rs[id].value; var m := r.memory.value;
      Finish(c, Storing(data, k), rs) ==
      (Put(rs, id, r.(memory := Some(m.(data := Splice(m.data, off + k, data[k..]))))), Ok(D.Done))
    decreases |data| - k
  {
    var r := rs[id].value;
    var m := r.memory.value;
    if k < |data| {
      var (l, t) := MicroStore(id, off, data, k, rs);
      StoreAll(c, id, off, data, k + 1, t);
      SpliceStep(m.data, off, data, k);
      assert Put(t, id, r) == Put(rs, id, r);
      PutTwice(rs, id, t[id].value, r.(memory := Some(m.(data := Splice(m.data, off + k, data[k..])))));
    } else {
      assert Splice(m.data, off + k, data[k..]) == m.data;
      assert Put(rs, id, r) == rs;
    }
  }

  lemma PutTwice(rs: Regions, id: u16, a: D.Region, b: D.Region)
    requires id < |rs|
    ensures Put(Put(rs, id, a), id, b) == Put(rs, id, b)
  {
  }

  lemma AloneRead(rs: Regions, h: Handle, len: u32)
    ensures Alone(rs, Read(h, len)) == (rs, D.Read(AsSys(rs), h, len))
  {
    var c := Read(h, len);
    if Reachable(rs, c) {
      OneMore(c, Begin, rs);
      if Micro(c, Begin, rs).0.Fetching? { FetchAll(c, h.offset, len, [], rs); }
    }
  }

  /** Writes differ only in which error wins when a region is both too small and not resident. */
  lemma AloneWrite(rs: Regions, h: Handle, data: bytes)
    ensures var (t, o) := D.Write(AsSys(rs), h, data); var (u, p) := Alone(rs, Write(h, data));
      && u == t.regions
      && (p == o || (o == Err(NotResident) && p == Err(OutOfBounds)))
  {
    var c := Write(h, data);
    if Reachable(rs, c) {
      OneMore(c, Begin, rs);
      assert data[0..] == data;
      if Micro(c, Begin, rs).0.Storing? { StoreAll(c, h.regionId, h.offset, data, 0, rs); }
    }
  }

  /** A copy alone is the single-threaded copy, up to which error is reported: the concurrent code
      looks up both regions before it looks at either, and checks bounds before residency. */
  lemma AloneCopy(rs: Regions, src: u16, srcOff: u32, dst: u16, dstOff: u32, len: u32)
    ensures var (t, o) := D.CrossRegionCopy(AsSys(rs), src, srcOff, dst, dstOff, len);
      var (u, p) := Alone(rs, Copy(src, srcOff, dst, dstOff, len));
      u == t.regions && (p == o || (p.Err? && o.Err?))
  {
    var c := Copy(src, srcOff, dst, dstOff, len);
    if Reachable(rs, c) {
      OneMore(c, Begin, rs);
      if Micro(c, Begin, rs).0.Fetching? {
        var data := rs[src].value.memory.value.data;
        var all := Slice(data, srcOff, len);
        FetchAll(c, srcOff, len, [], rs);
        OneMore(c, Fetched(all), rs);
        if Micro(c, Fetched(all), rs).0.Storing? {
          StoreAll(c, dst, dstOff, all, 0, rs);
          assert all[0..] == all;
        }
      }
    }
  }
}
