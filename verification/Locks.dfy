/**
 * Lock order. Every call of the concurrent directory and of the host around it is a script of lock
 * events; every script obeys the documented rules, and threads running such scripts never
 * deadlock, whether or not the outer lock prefers writers.
 */
module Locks {
  import opened Core

  datatype Lock = Backing | Outer | Entry(id: u16) | Lru | CacheLock | DefaultAllocator

  datatype Mode = Shared | Exclusive

  datatype Event = Take(lock: Lock, mode: Mode) | Drop(lock: Lock)

  type Script = seq<Event>

  // ---------------------------------------------------------------------------------------------
  // The rules.
  // ---------------------------------------------------------------------------------------------

  /** What a thread may hold when it takes a lock. */
  ghost predicate Allowed(l: Lock, held: set<Lock>) {
    match l
    case Backing => held == {}
    case Outer => held <= {Backing}
    case Entry(id) => forall h :: h in held ==> h == Backing || (h.Entry? && h.id < id)
    case Lru => held <= {Backing}
    case CacheLock => held == {}
    case DefaultAllocator => held == {}
  }

  /** From `held`, the script takes only what it may, drops only what it has, and ends with `out`. */
  ghost predicate Obeys(s: Script, held: set<Lock>, out: set<Lock>)
    decreases s
  {
    if s == [] then held == out
    else
      match s[0]
      case Take(l, _) => Allowed(l, held) && Obeys(s[1..], held + {l}, out)
      case Drop(l) => l in held && Obeys(s[1..], held - {l}, out)
  }

  lemma {:induction false} ObeysConcat(a: Script, b: Script, held: set<Lock>, mid: set<Lock>, out: set<Lock>)
    requires Obeys(a, held, mid) && Obeys(b, mid, out)
    ensures Obeys(a + b, held, out)
    decreases a
  {
    if a == [] {
      assert a + b == b;
    } else {
      assert (a + b)[1..] == a[1..] + b;
      match a[0]
      case Take(l, _) => ObeysConcat(a[1..], b, held + {l}, mid, out);
      case Drop(l) => ObeysConcat(a[1..], b, held - {l}, mid, out);
    }
  }

  // ---------------------------------------------------------------------------------------------
  // Scripts of the calls.
  // ---------------------------------------------------------------------------------------------

  /** A lock taken and released around work that takes no other lock. */
  function Around(l: Lock, m: Mode): Script { [Take(l, m), Drop(l)] }

  /** `entry_arc`: a clone of the entry pointer under the outer read lock. */
  const LOOKUP: Script := Around(Outer, Shared)

  /** alloc, dealloc, read, write, info, pin, unpin, compact, load. */
  function OneEntry(id: u16, found: bool): Script {
    LOOKUP + if found then Around(Entry(id), Exclusive) else []
  }

  function Spill(id: u16, found: bool, spilled: bool): Script {
    OneEntry(id, found) + if found && spilled then Around(Lru, Exclusive) else []
  }

  /** create and destroy: the outer write lock, then perhaps the list. */
  function Membership(touchesLru: bool): Script {
    Around(Outer, Exclusive) + if touchesLru then Around(Lru, Exclusive) else []
  }

  function TwoEntries(lo: u16, hi: u16): Script {
    [Take(Entry(lo), Exclusive), Take(Entry(hi), Exclusive), Drop(Entry(hi)), Drop(Entry(lo))]
  }

  function CrossRegionCopy(src: u16, dst: u16, foundSrc: bool, foundDst: bool): Script {
    if !foundSrc then LOOKUP
    else if src == dst then LOOKUP + Around(Entry(src), Exclusive)
    else if !foundDst then LOOKUP + LOOKUP
    else LOOKUP + LOOKUP + TwoEntries(if src < dst then src else dst, if src < dst then dst else src)
  }

  function EachEntry(ids: seq<u16>): Script {
    if ids == [] then [] else Around(Entry(ids[0]), Exclusive) + EachEntry(ids[1..])
  }

  function ListRegions(ids: seq<u16>): Script { LOOKUP + EachEntry(ids) }

  datatype Attempt = Attempt(id: u16, found: bool, spilled: bool)

  function EachSpill(attempts: seq<Attempt>): Script {
    if attempts == [] then [] else Spill(attempts[0].id, attempts[0].found, attempts[0].spilled) + EachSpill(attempts[1..])
  }

  function DemoteUntil(ids: seq<u16>, attempts: seq<Attempt>): Script { ListRegions(ids) + EachSpill(attempts) }

  function AllocOrDemote(id: u16, found: bool, retry: bool, ids: seq<u16>, attempts: seq<Attempt>): Script {
    OneEntry(id, found) + if retry then DemoteUntil(ids, attempts) + OneEntry(id, found) else []
  }

  datatype DirectoryCall =
    | CallEntry(id: u16, found: bool)
    | CallSpill(id: u16, found: bool, spilled: bool)
    | CallMembership(touchesLru: bool)
    | CallCopy(src: u16, dst: u16, foundSrc: bool, foundDst: bool)
    | CallList(ids: seq<u16>)
    | CallDemoteUntil(ids: seq<u16>, attempts: seq<Attempt>)
    | CallAllocOrDemote(id: u16, found: bool, retry: bool, ids: seq<u16>, attempts: seq<Attempt>)

  function DirectoryScript(c: DirectoryCall): Script {
    match c
    case CallEntry(id, found) => OneEntry(id, found)
    case CallSpill(id, found, spilled) => Spill(id, found, spilled)
    case CallMembership(touchesLru) => Membership(touchesLru)
    case CallCopy(src, dst, foundSrc, foundDst) => CrossRegionCopy(src, dst, foundSrc, foundDst)
    case CallList(ids) => ListRegions(ids)
    case CallDemoteUntil(ids, attempts) => DemoteUntil(ids, attempts)
    case CallAllocOrDemote(id, found, retry, ids, attempts) => AllocOrDemote(id, found, retry, ids, attempts)
  }

  /** Host calls: straight through, after an invalidation, after reading the default allocator, or
      with the backing store locked around a tier change. */
  datatype HostCall =
    | Direct(call: DirectoryCall)
    | Invalidating(call: DirectoryCall)
    | Creating(call: DirectoryCall)
    | Tiering(backed: bool, call: DirectoryCall)

  function HostScript(c: HostCall): Script {
    match c
    case Direct(d) => DirectoryScript(d)
    case Invalidating(d) => Around(CacheLock, Exclusive) + DirectoryScript(d)
    case Creating(d) => Around(DefaultAllocator, Exclusive) + DirectoryScript(d)
    case Tiering(backed, d) =>
      Around(CacheLock, Exclusive) + ([Take(Backing, Exclusive)] + (if backed then DirectoryScript(d) else []) + [Drop(Backing)])
  }

  lemma AroundObeys(l: Lock, m: Mode, held: set<Lock>)
    requires Allowed(l, held) && l !in held
    ensures Obeys(Around(l, m), held, held)
  {
    var s := Around(l, m);
    assert s[1..] == [Drop(l)] && s[1..][1..] == [];
    assert held + {l} - {l} == held;
    assert Obeys([Drop(l)], held + {l}, held);
  }

  lemma LookupObeys(held: set<Lock>)
    requires held <= {Backing}
    ensures Obeys(LOOKUP, held, held)
  {
    AroundObeys(Outer, Shared, held);
  }

  lemma OneEntryObeys(id: u16, found: bool, held: set<Lock>)
    requires held <= {Backing}
    ensures Obeys(OneEntry(id, found), held, held)
  {
    LookupObeys(held);
    AroundObeys(Entry(id), Exclusive, held);
    ObeysConcat(LOOKUP, if found then Around(Entry(id), Exclusive) else [], held, held, held);
  }

  lemma SpillObeys(id: u16, found: bool, spilled: bool, held: set<Lock>)
    requires held <= {Backing}
    ensures Obeys(Spill(id, found, spilled), held, held)
  {
    OneEntryObeys(id, found, held);
    AroundObeys(Lru, Exclusive, held);
    ObeysConcat(OneEntry(id, found), if found && spilled then Around(Lru, Exclusive) else [], held, held, held);
  }

  lemma MembershipObeys(touchesLru: bool, held: set<Lock>)
    requires held <= {Backing}
    ensures Obeys(Membership(touchesLru), held, held)
  {
    AroundObeys(Outer, Exclusive, held);
    AroundObeys(Lru, Exclusive, held);
    ObeysConcat(Around(Outer, Exclusive), if touchesLru then Around(Lru, Exclusive) else [], held, held, held);
  }

  lemma TwoEntriesObeys(lo: u16, hi: u16, held: set<Lock>)
    requires held <= {Backing} && lo < hi
    ensures Obeys(TwoEntries(lo, hi), held, held)
  {
    var s := TwoEntries(lo, hi);
    assert s == [Take(Entry(lo), Exclusive)] + Around(Entry(hi), Exclusive) + [Drop(Entry(lo))];
    AroundObeys(Entry(hi), Exclusive, held + {Entry(lo)});
    assert Obeys([Take(Entry(lo), Exclusive)], held, held + {Entry(lo)});
    assert held + {Entry(lo)} - {Entry(lo)} == held;
    assert Obeys([Drop(Entry(lo))], held + {Entry(lo)}, held);
    ObeysConcat([Take(Entry(lo), Exclusive)], Around(Entry(hi), Exclusive), held, held + {Entry(lo)}, held + {Entry(lo)});
    ObeysConcat([Take(Entry(lo), Exclusive)] + Around(Entry(hi), Exclusive), [Drop(Entry(lo))], held, held + {Entry(lo)}, held);
  }

  lemma CopyObeys(src: u16, dst: u16, foundSrc: bool, foundDst: bool, held: set<Lock>)
    requires held <= {Backing}
    ensures Obeys(CrossRegionCopy(src, dst, foundSrc, foundDst), held, held)
  {
    LookupObeys(held);
    ObeysConcat(LOOKUP, LOOKUP, held, held, held);
    AroundObeys(Entry(src), Exclusive, held);
    ObeysConcat(LOOKUP, Around(Entry(src), Exclusive), held, held, held);
    if src != dst {
      var lo, hi := if src < dst then src else dst, if src < dst then dst else src;
      TwoEntriesObeys(lo, hi, held);
      ObeysConcat(LOOKUP + LOOKUP, TwoEntries(lo, hi), held, held, held);
    }
  }

  lemma {:induction false} EachEntryObeys(ids: seq<u16>, held: set<Lock>)
    requires held <= {Backing}
    ensures Obeys(EachEntry(ids), held, held)
  {
    if ids != [] {
      AroundObeys(Entry(ids[0]), Exclusive, held);
      EachEntryObeys(ids[1..], held);
      ObeysConcat(Around(Entry(ids[0]), Exclusive), EachEntry(ids[1..]), held, held, held);
    }
  }

  lemma {:induction false} EachSpillObeys(attempts: seq<Attempt>, held: set<Lock>)
    requires held <= {Backing}
    ensures Obeys(EachSpill(attempts), held, held)
  {
    if attempts != [] {
      var a := attempts[0];
      SpillObeys(a.id, a.found, a.spilled, held);
      EachSpillObeys(attempts[1..], held);
      ObeysConcat(Spill(a.id, a.found, a.spilled), EachSpill(attempts[1..]), held, held, held);
    }
  }

  lemma DemoteUntilObeys(ids: seq<u16>, attempts: seq<Attempt>, held: set<Lock>)
    requires held <= {Backing}
    ensures Obeys(ListRegions(ids), held, held) && Obeys(DemoteUntil(ids, attempts), held, held)
  {
    LookupObeys(held);
    EachEntryObeys(ids, held);
    ObeysConcat(LOOKUP, EachEntry(ids), held, held, held);
    EachSpillObeys(attempts, held);
    ObeysConcat(ListRegions(ids), EachSpill(attempts), held, held, held);
  }

  lemma AllocOrDemoteObeys(id: u16, found: bool, retry: bool, ids: seq<u16>, attempts: seq<Attempt>, held: set<Lock>)
    requires held <= {Backing}
    ensures Obeys(AllocOrDemote(id, found, retry, ids, attempts), held, held)
  {
    OneEntryObeys(id, found, held);
    DemoteUntilObeys(ids, attempts, held);
    ObeysConcat(DemoteUntil(ids, attempts), OneEntry(id, found), held, held, held);
    ObeysConcat(OneEntry(id, found), if retry then DemoteUntil(ids, attempts) + OneEntry(id, found) else [], held, held, held);
  }

  /** Every directory call obeys the rules, alone or with the host's backing lock held around it. */
  lemma DirectoryObeys(c: DirectoryCall, held: set<Lock>)
    requires held <= {Backing}
    ensures Obeys(DirectoryScript(c), held, held)
  {
    match c
    case CallEntry(id, found) => OneEntryObeys(id, found, held);
    case CallSpill(id, found, spilled) => SpillObeys(id, found, spilled, held);
    case CallMembership(touchesLru) => MembershipObeys(touchesLru, held);
    case CallCopy(src, dst, foundSrc, foundDst) => CopyObeys(src, dst, foundSrc, foundDst, held);
    case CallList(ids) => DemoteUntilObeys(ids, [], held);
    case CallDemoteUntil(ids, attempts) => DemoteUntilObeys(ids, attempts, held);
    case CallAllocOrDemote(id, found, retry, ids, attempts) => AllocOrDemoteObeys(id, found, retry, ids, attempts, held);
  }

  lemma HostObeys(c: HostCall)
    ensures Obeys(HostScript(c), {}, {})
  {
    AroundObeys(CacheLock, Exclusive, {});
    AroundObeys(DefaultAllocator, Exclusive, {});
    match c
    case Direct(d) => DirectoryObeys(d, {});
    case Invalidating(d) =>
      DirectoryObeys(d, {});
      ObeysConcat(Around(CacheLock, Exclusive), DirectoryScript(d), {}, {}, {});
    case Creating(d) =>
      DirectoryObeys(d, {});
      ObeysConcat(Around(DefaultAllocator, Exclusive), DirectoryScript(d), {}, {}, {});
    case Tiering(backed, d) =>
      DirectoryObeys(d, {Backing});
      var inner := if backed then DirectoryScript(d) else [];
      WrappedObeys(inner);
      ObeysConcat(Around(CacheLock, Exclusive), [Take(Backing, Exclusive)] + inner + [Drop(Backing)], {}, {}, {});
  }

  lemma WrappedObeys(inner: Script)
    requires Obeys(inner, {Backing}, {Backing})
    ensures Obeys([Take(Backing, Exclusive)] + inner + [Drop(Backing)], {}, {})
  {
    var none: set<Lock> := {};
    assert none + {Backing} == {Backing} && {Backing} - {Backing} == none;
    assert Obeys([Take(Backing, Exclusive)], none, {Backing});
    assert Obeys([Drop(Backing)], {Backing}, none);
    ObeysConcat([Take(Backing, Exclusive)], inner, none, {Backing}, {Backing});
    ObeysConcat([Take(Backing, Exclusive)] + inner, [Drop(Backing)], none, {Backing}, none);
  }

  /** Any list of calls made by one thread. */
  function Program(calls: seq<HostCall>): Script {
    if calls == [] then [] else HostScript(calls[0]) + Program(calls[1..])
  }

  lemma {:induction false} ProgramObeys(calls: seq<HostCall>)
    ensures Obeys(Program(calls), {}, {})
  {
    if calls != [] {
      HostObeys(calls[0]);
      ProgramObeys(calls[1..]);
      ObeysConcat(HostScript(calls[0]), Program(calls[1..]), {}, {}, {});
    }
  }

  // ---------------------------------------------------------------------------------------------
  // Threads.
  // ---------------------------------------------------------------------------------------------

  datatype Thread = Thread(held: map<Lock, Mode>, script: Script)

  type Threads = seq<Thread>

  predicate Clashes(a: Mode, b: Mode) { a.Exclusive? || b.Exclusive? }

  /** Another thread holds the lock in a clashing mode. */
  predicate Taken(ts: Threads, t: nat, l: Lock, m: Mode) {
    exists u :: 0 <= u < |ts| && u != t && l in ts[u].held && Clashes(m, ts[u].held[l])
  }

  /** Another thread waits to write. */
  predicate WriterWaits(ts: Threads, t: nat, l: Lock) {
    exists u :: 0 <= u < |ts| && u != t && ts[u].script != [] && ts[u].script[0] == Take(l, Exclusive)
  }

  /** Whether thread `t` may take its next step; with `polite`, readers let waiting writers go first. */
  predicate Enabled(ts: Threads, t: nat, polite: bool) {
    && t < |ts| && ts[t].script != []
    && match ts[t].script[0]
       case Drop(_) => true
       case Take(l, m) => !Taken(ts, t, l, m) && (polite && m == Shared ==> !WriterWaits(ts, t, l))
  }

  function Step(ts: Threads, t: nat, polite: bool): Threads {
    if !Enabled(ts, t, polite) then ts
    else
      var th := ts[t];
      match th.script[0]
      case Take(l, m) => ts[t := Thread(th.held[l := m], th.script[1..])]
      case Drop(l) => ts[t := Thread(th.held - {l}, th.script[1..])]
  }

  function Run(ts: Threads, schedule: seq<nat>, polite: bool): Threads {
    if schedule == [] then ts else Step(Run(ts, schedule[..|schedule| - 1], polite), schedule[|schedule| - 1], polite)
  }

  ghost predicate Disciplined(ts: Threads) {
    forall t :: 0 <= t < |ts| ==> Obeys(ts[t].script, ts[t].held.Keys, {})
  }

  lemma StepDisciplined(ts: Threads, t: nat, polite: bool)
    requires Disciplined(ts)
    ensures Disciplined(Step(ts, t, polite)) && |Step(ts, t, polite)| == |ts|
  {
    if Enabled(ts, t, polite) {
      assert Obeys(ts[t].script, ts[t].held.Keys, {});
      match ts[t].script[0]
      case Take(l, m) => assert ts[t].held[l := m].Keys == ts[t].held.Keys + {l};
      case Drop(l) => assert (ts[t].held - {l}).Keys == ts[t].held.Keys - {l};
    }
  }

  lemma {:induction false} RunDisciplined(ts: Threads, schedule: seq<nat>, polite: bool)
    requires Disciplined(ts)
    ensures Disciplined(Run(ts, schedule, polite)) && |Run(ts, schedule, polite)| == |ts|
  {
    if schedule != [] {
      RunDisciplined(ts, schedule[..|schedule| - 1], polite);
      StepDisciplined(Run(ts, schedule[..|schedule| - 1], polite), schedule[|schedule| - 1], polite);
    }
  }

  /** The rules rank the locks: backing store, outer, entries by id, warm list. */
  function Rank(l: Lock): nat {
    match l
    case Backing => 0
    case Outer => 1
    case Entry(id) => 2 + id
    case Lru => 3 + U16_MAX
    case CacheLock => 4 + U16_MAX
    case DefaultAllocator => 4 + U16_MAX
  }

  /** A thread that holds `l` has work left, and the next lock it wants ranks above `l`. */
  lemma HolderMovesUp(th: Thread, l: Lock)
    requires Obeys(th.script, th.held.Keys, {}) && l in th.held
    ensures th.script != [] && (th.script[0].Take? ==> Rank(l) < Rank(th.script[0].lock))
  {
  }

  /** Climbing from a blocked thread to whoever blocks it ends at a thread that can step. */
  lemma {:induction false} FindMover(ts: Threads, t: nat, polite: bool) returns (u: nat)
    requires Disciplined(ts) && t < |ts| && ts[t].script != []
    ensures Enabled(ts, u, polite)
    decreases if ts[t].script[0].Take? then 5 + U16_MAX - Rank(ts[t].script[0].lock) else 6 + U16_MAX,
              if ts[t].script[0].Take? && ts[t].script[0].mode == Shared then 1 else 0
  {
    if Enabled(ts, t, polite) { return t; }
    var l, m := ts[t].script[0].lock, ts[t].script[0].mode;
    if Taken(ts, t, l, m) {
      var v :| 0 <= v < |ts| && v != t && l in ts[v].held && Clashes(m, ts[v].held[l]);
      HolderMovesUp(ts[v], l);
      if ts[v].script[0].Take? { u := FindMover(ts, v, polite); } else { u := v; }
    } else {
      var v :| 0 <= v < |ts| && v != t && ts[v].script != [] && ts[v].script[0] == Take(l, Exclusive);
      u := FindMover(ts, v, polite);
    }
  }

  /** Any number of threads making any calls, under any schedule: while some call is unfinished,
      some thread can step. */
  lemma DeadlockFree(programs: seq<seq<HostCall>>, schedule: seq<nat>, polite: bool, t: nat)
    requires t < |programs|
    ensures var start := seq(|programs|, i requires 0 <= i < |programs| => Thread(map[], Program(programs[i])));
      var ts := Run(start, schedule, polite);
      && |ts| == |programs|
      && (ts[t].script != [] ==> exists u :: Enabled(ts, u, polite))
  {
    var start := seq(|programs|, i requires 0 <= i < |programs| => Thread(map[], Program(programs[i])));
    forall i | 0 <= i < |start| ensures Obeys(start[i].script, start[i].held.Keys, {}) { ProgramObeys(programs[i]); }
    RunDisciplined(start, schedule, polite);
    var ts := Run(start, schedule, polite);
    if ts[t].script != [] { var u := FindMover(ts, t, polite); }
  }
}
