/**
 * Runs of the region directory as an object: any list of calls on it, with its backing store, answers
 * what the machine without tiers answers.
 */
module DirectoryRuns {
  import opened Core
  import opened Directory
  import opened Tiering
  import R = RegionDirectory

  /** `outcomes` are answers the flat machine started on `f` gives to `ops`, and it ends as `last`. */
  ghost predicate LikeFlat(f: Flat, ops: seq<Op>, outcomes: seq<Outcome>, last: Flat)
    decreases ops
  {
    if ops == [] then outcomes == [] && last == f
    else
      && outcomes != [] && FlatOk(f)
      && var (g, o) := FlatStep(f, ops[0], outcomes[0]);
         (Observed(ops[0], outcomes[0]) ==> outcomes[0] == o) && LikeFlat(g, ops[1..], outcomes[1..], last)
  }

  lemma {:induction false} OneMoreCall(f: Flat, ops: seq<Op>, outcomes: seq<Outcome>, last: Flat, op: Op, o: Outcome)
    requires LikeFlat(f, ops, outcomes, last) && FlatOk(last) && (Observed(op, o) ==> o == FlatStep(last, op, o).1)
    ensures LikeFlat(f, ops + [op], outcomes + [o], FlatStep(last, op, o).0)
    decreases ops
  {
    if ops == [] {
      assert [op][1..] == [] && [o][1..] == [];
    } else {
      OneMoreCall(FlatStep(f, ops[0], outcomes[0]).0, ops[1..], outcomes[1..], last, op, o);
      assert (ops + [op])[1..] == ops[1..] + [op] && (outcomes + [o])[1..] == outcomes[1..] + [o];
    }
  }

  /** One call with a store that accepts it. */
  method Perform(d: R.RegionDirectory, store: R.BackingStore, op: Op) returns (o: Outcome)
    requires AllocsOk(d.State(store))
    modifies d, store
    ensures (d.State(store), o) == Step(old(d.State(store)), op, true)
  {
    match op
    case DoCreate(policy, capacity, ak, init) => o := d.CreateRegionWithPolicy(capacity, ak, policy, init, store);
    case DoDestroy(id) => o := d.DestroyRegion(id, store);
    case DoAlloc(id, size, align) => o := d.AllocAligned(id, size, align, store);
    case DoDealloc(h) => o := d.Dealloc(h, store);
    case DoRead(h, len) => o := d.ReadOrFault(h, len, store, true);
    case DoWrite(h, data) => o := d.WriteOrFault(h, data, store, true);
    case DoSpill(id) => o := d.SpillRegion(id, store, true);
    case DoLoad(id) => o := d.LoadRegion(id, store, true);
    case DoPromote(id) => o := d.PromoteRegion(id, store, true);
    case DoDemote(id) => o := d.DemoteRegion(id, store, true);
    case DoEvict => o := d.EvictWarmRegion(store, true);
    case DoPin(id) => o := d.Pin(id, store);
    case DoUnpin(id) => o := d.Unpin(id, store);
    case DoCompact(id) => o := d.CompactRegion(id, store);
    case DoBump(id) => o := d.BumpGeneration(id, store);
  }

  /** What one turn of the loop below keeps. */
  lemma OneTurn(f: Flat, s: Sys, ops: seq<Op>, i: nat, outcomes: seq<Outcome>)
    requires i < |ops| && Inv(s) && HarmlessRun(s, ops[i..]) && LikeFlat(f, ops[..i], outcomes, Abs(s))
    ensures var (t, o) := Step(s, ops[i], true);
      && Inv(t) && HarmlessRun(t, ops[i + 1..]) && LikeFlat(f, ops[..i + 1], outcomes + [o], Abs(t))
  {
    assert ops[i..][0] == ops[i] && ops[i..][1..] == ops[i + 1..];
    StepRefines(s, ops[i]);
    OneMoreCall(f, ops[..i], outcomes, Abs(s), ops[i], Step(s, ops[i], true).1);
    assert ops[..i] + [ops[i]] == ops[..i + 1];
  }

  /** The calls of a harmless run, one after another. */
  method PerformAll(d: R.RegionDirectory, store: R.BackingStore, ops: seq<Op>) returns (outcomes: seq<Outcome>)
    requires Inv(d.State(store)) && HarmlessRun(d.State(store), ops)
    modifies d, store
    ensures Inv(d.State(store)) && LikeFlat(old(Abs(d.State(store))), ops, outcomes, Abs(d.State(store)))
  {
    outcomes := [];
    var i := 0;
    while i < |ops|
      invariant 0 <= i <= |ops| && Inv(d.State(store)) && HarmlessRun(d.State(store), ops[i..])
      invariant LikeFlat(old(Abs(d.State(store))), ops[..i], outcomes, Abs(d.State(store)))
    {
      OneTurn(old(Abs(d.State(store))), d.State(store), ops, i, outcomes);
      var o := Perform(d, store, ops[i]);
      outcomes := outcomes + [o];
      i := i + 1;
    }
    assert ops[..i] == ops;
  }

  /** From a new directory on. */
  method FreshRun(ops: seq<Op>) returns (outcomes: seq<Outcome>)
    requires HarmlessRun(Sys([], [], 1, map[]), ops)
    ensures exists last :: LikeFlat([], ops, outcomes, last)
  {
    var store := new R.BackingStore();
    var d := new R.RegionDirectory(store);
    assert Abs(d.State(store)) == [];
    outcomes := PerformAll(d, store, ops);
  }
}
