/**
 * Generated dispatchers. A load, store or copy that takes its memory as a runtime value is emitted
 * as a balanced tree of comparisons over statically known memories, behind one range check; a copy
 * into a pool first grows the pool.
 */
module Dispatch {
  import opened Core
  import opened Bits

  // ---------------------------------------------------------------------------------------------
  // The tree.
  // ---------------------------------------------------------------------------------------------

  /** `Test(mid, below, rest)` is `if pool < mid then below else rest`. */
  datatype Tree = Leaf(mem: nat) | Test(mid: nat, below: Tree, rest: Tree)

  function Build(lo: nat, hi: nat): Tree
    requires lo < hi
    decreases hi - lo
  {
    if hi - lo == 1 then Leaf(lo)
    else
      var mid := lo + (hi - lo) / 2;
      Test(mid, Build(lo, mid), Build(mid, hi))
  }

  /** The memory the tree selects. */
  function Select(t: Tree, pool: nat): nat {
    match t
    case Leaf(mem) => mem
    case Test(mid, below, rest) => if pool < mid then Select(below, pool) else Select(rest, pool)
  }

  function Tests(t: Tree): nat {
    match t
    case Leaf(_) => 0
    case Test(_, below, rest) => 1 + Tests(below) + Tests(rest)
  }

  function Max(a: nat, b: nat): nat { if a > b then a else b }

  function Depth(t: Tree): nat {
    match t
    case Leaf(_) => 0
    case Test(_, below, rest) => 1 + Max(Depth(below), Depth(rest))
  }

  function Leaves(t: Tree): seq<nat> {
    match t
    case Leaf(mem) => [mem]
    case Test(_, below, rest) => Leaves(below) + Leaves(rest)
  }

  /** `None` is a trap: the check in front of the tree. */
  function Dispatched(n: nat, pool: nat): Option<nat>
    requires n >= 1
  {
    if pool >= n then None else Some(Select(Build(0, n), pool))
  }

  lemma {:induction false} BuildSelects(lo: nat, hi: nat, pool: nat)
    requires lo <= pool < hi
    ensures Select(Build(lo, hi), pool) == pool
    decreases hi - lo
  {
    if hi - lo > 1 {
      var mid := lo + (hi - lo) / 2;
      if pool < mid { BuildSelects(lo, mid, pool); } else { BuildSelects(mid, hi, pool); }
    }
  }

  /** Every pool in range reaches exactly its own memory, and every other one traps. */
  lemma DispatchIsExact(n: nat, pool: nat)
    requires n >= 1
    ensures Dispatched(n, pool) == if pool < n then Some(pool) else None
  {
    if pool < n { BuildSelects(0, n, pool); }
  }

  /** One leaf per memory, in order, with one test fewer than leaves. */
  lemma {:induction false} BuildLeaves(lo: nat, hi: nat)
    requires lo < hi
    ensures |Leaves(Build(lo, hi))| == hi - lo && forall i :: 0 <= i < hi - lo ==> Leaves(Build(lo, hi))[i] == lo + i
    ensures Tests(Build(lo, hi)) == hi - lo - 1
    decreases hi - lo
  {
    if hi - lo > 1 {
      var mid := lo + (hi - lo) / 2;
      BuildLeaves(lo, mid);
      BuildLeaves(mid, hi);
    }
  }

  /** If both halves have the least depth that covers them, so has the whole. */
  lemma HalvesDepth(n: nat, a: nat, b: nat)
    requires n > 1 && n / 2 <= Pow2(a) && n - n / 2 <= Pow2(b)
    requires (a > 0 ==> Pow2(a - 1) < n / 2) && (b > 0 ==> Pow2(b - 1) < n - n / 2)
    ensures n <= Pow2(1 + Max(a, b)) && Pow2(Max(a, b)) < n
  {
    if a <= b { Pow2Monotone(a, b); } else { Pow2Monotone(b, a); }
  }

  /** The depth is the logarithm rounded up: the least d with hi - lo <= 2^d. */
  lemma {:induction false} BuildDepth(lo: nat, hi: nat)
    requires lo < hi
    ensures var d := Depth(Build(lo, hi)); hi - lo <= Pow2(d) && (d > 0 ==> Pow2(d - 1) < hi - lo)
    decreases hi - lo
  {
    if hi - lo > 1 {
      var mid := lo + (hi - lo) / 2;
      BuildDepth(lo, mid);
      BuildDepth(mid, hi);
      HalvesDepth(hi - lo, Depth(Build(lo, mid)), Depth(Build(mid, hi)));
    }
  }

  // ---------------------------------------------------------------------------------------------
  // Growing before a copy.
  // ---------------------------------------------------------------------------------------------

  const PAGE := 65536

  /** Pages needed for `end` bytes. */
  function PagesFor(end: nat): nat { (end + PAGE - 1) / PAGE }

  /** The page count the code computes: a 32-bit add, then a shift by 16. */
  function PagesComputed(end: u32): nat { (end + 65535) % TWO_32 / PAGE }

  /** The computation is right exactly up to 0xFFFF0000; above it wraps to no pages at all. */
  lemma PagesComputedIff(end: u32)
    ensures PagesComputed(end) == PagesFor(end) <==> end <= 0xFFFF_0000
    ensures end > 0xFFFF_0000 ==> PagesComputed(end) == 0
  {
    if end > 0xFFFF_0000 { DivModUnique(end + 65535, TWO_32, 1, end + 65535 - TWO_32); }
  }

  /** `size` in pages before and after the grow step; `granted` is the outcome of `memory.grow`. */
  function GrowStep(size: nat, end: u32, granted: bool): nat {
    if PagesComputed(end) > size && granted then PagesComputed(end) else size
  }

  /** After a grow that was not refused the pool covers `end`, never shrinks, and grows only when it
      was too small, for every end up to 0xFFFF0000. */
  lemma GrowCovers(size: nat, end: u32)
    requires end <= 0xFFFF_0000
    ensures var now := GrowStep(size, end, true);
      && now >= PagesFor(end) && end <= now * PAGE
      && now >= size && (now > size <==> size < PagesFor(end)) && (now > size ==> now == PagesFor(end))
  {
    PagesComputedIff(end);
  }

  /** Above 0xFFFF0000 the step never grows anything. */
  lemma GrowWraps(size: nat, end: u32, granted: bool)
    requires end > 0xFFFF_0000
    ensures GrowStep(size, end, granted) == size
  {
    PagesComputedIff(end);
  }

  // ---------------------------------------------------------------------------------------------
  // The copy into a pool.
  // ---------------------------------------------------------------------------------------------

  /** Memories are whole pages. */
  ghost predicate Paged(mems: seq<bytes>) { forall i :: 0 <= i < |mems| ==> |mems[i]| % PAGE == 0 }

  function Extend(mem: bytes, pages: nat): bytes
    requires |mem| <= pages * PAGE
  {
    mem + Zeros(pages * PAGE - |mem|)
  }

  /** The memory after the grow step. */
  function Grown(mem: bytes, end: u32, granted: bool): bytes
    requires |mem| % PAGE == 0
  {
    var pages := GrowStep(|mem| / PAGE, end, granted);
    if pages > |mem| / PAGE then Extend(mem, pages) else mem
  }

  /** `memory.copy` between two memories; `None` is a trap. */
  function MemoryCopy(mems: seq<bytes>, dst: nat, src: nat, dstOff: u32, srcOff: u32, len: u32): Option<seq<bytes>>
    requires dst < |mems| && src < |mems|
  {
    if dstOff + len > |mems[dst]| || srcOff + len > |mems[src]| then None
    else Some(mems[dst := Splice(mems[dst], dstOff, mems[src][srcOff..srcOff + len])])
  }

  /** The emitted `tvm_copy_from_default`. */
  function CopyFromDefault(mems: seq<bytes>, pool: u32, dstOff: u32, srcOff: u32, len: u32, granted: bool): Option<seq<bytes>>
    requires mems != [] && Paged(mems)
  {
    DispatchIsExact(|mems|, pool);
    var mem := Dispatched(|mems|, pool);
    if mem.None? then None
    else if (dstOff + len) % TWO_32 < dstOff then None
    else
      var end := (dstOff + len) % TWO_32;
      MemoryCopy(mems[mem.value := Grown(mems[mem.value], end, granted)], mem.value, 0, dstOff, srcOff, len)
  }

  lemma WrapDetected(a: u32, b: u32)
    ensures (a + b) % TWO_32 < a <==> a + b > U32_MAX
    ensures a + b <= U32_MAX ==> (a + b) % TWO_32 == a + b
  {
    if a + b > U32_MAX { DivModUnique(a + b, TWO_32, 1, a + b - TWO_32); }
  }

  /** The pool covers `end`, or a grow step can make it. */
  predicate Coverable(mem: bytes, end: u32) { end <= 0xFFFF_0000 || end <= |mem| }

  /** Copying into memory `pool` extended to `g`. */
  lemma CopyInto(mems: seq<bytes>, pool: nat, g: bytes, dstOff: u32, srcOff: u32, len: u32)
    requires pool < |mems| && |g| >= |mems[pool]| && g[..|mems[pool]|] == mems[pool]
    requires dstOff + len <= |g| && srcOff + len <= |mems[0]|
    ensures MemoryCopy(mems[pool := g], pool, 0, dstOff, srcOff, len) == Some(mems[pool := Splice(g, dstOff, mems[0][srcOff..srcOff + len])])
  {
    var now := mems[pool := g];
    PrefixSlice(now[0], mems[0], srcOff, len);
    assert now[pool := Splice(g, dstOff, mems[0][srcOff..srcOff + len])] == mems[pool := Splice(g, dstOff, mems[0][srcOff..srcOff + len])];
  }

  lemma CopyUnfolds(mems: seq<bytes>, pool: u32, dstOff: u32, srcOff: u32, len: u32)
    requires mems != [] && Paged(mems) && pool < |mems| && dstOff + len <= U32_MAX
    ensures CopyFromDefault(mems, pool, dstOff, srcOff, len, true) ==
      MemoryCopy(mems[pool := Grown(mems[pool], dstOff + len, true)], pool, 0, dstOff, srcOff, len)
  {
    WrapDetected(dstOff, len);
    DispatchIsExact(|mems|, pool);
  }

  lemma CopyIs(mems: seq<bytes>, pool: u32, dstOff: u32, srcOff: u32, len: u32)
    requires mems != [] && Paged(mems) && pool < |mems|
    requires dstOff + len <= U32_MAX && Coverable(mems[pool], dstOff + len) && srcOff + len <= |mems[0]|
    ensures var g := Grown(mems[pool], dstOff + len, true);
      && |g| >= |mems[pool]| && dstOff + len <= |g| && g[..|mems[pool]|] == mems[pool]
      && CopyFromDefault(mems, pool, dstOff, srcOff, len, true) == Some(mems[pool := Splice(g, dstOff, mems[0][srcOff..srcOff + len])])
  {
    CopyUnfolds(mems, pool, dstOff, srcOff, len);
    GrownShape(mems[pool], dstOff + len);
    CopyInto(mems, pool, Grown(mems[pool], dstOff + len, true), dstOff, srcOff, len);
  }

  lemma PrefixSlice(longer: bytes, mem: bytes, at: nat, n: nat)
    requires |longer| >= |mem| && longer[..|mem|] == mem && at + n <= |mem|
    ensures longer[at..at + n] == mem[at..at + n]
  {
    assert longer[..|mem|][at..at + n] == longer[at..at + n];
  }

  /** With grows granted, the bytes of a copy whose source is in range and whose end can be covered land
      in the chosen pool, which then covers them, and every other memory is as before. */
  lemma CopyLandsInPool(mems: seq<bytes>, pool: u32, dstOff: u32, srcOff: u32, len: u32)
    requires mems != [] && Paged(mems) && pool < |mems|
    requires dstOff + len <= U32_MAX && Coverable(mems[pool], dstOff + len) && srcOff + len <= |mems[0]|
    ensures var r := CopyFromDefault(mems, pool, dstOff, srcOff, len, true);
      && r.Some? && |r.value| == |mems|
      && (forall i :: 0 <= i < |mems| && i != pool ==> r.value[i] == mems[i])
      && dstOff + len <= |r.value[pool]| && |r.value[pool]| >= |mems[pool]|
      && r.value[pool][dstOff..dstOff + len] == mems[0][srcOff..srcOff + len]
      && forall p :: 0 <= p < |mems[pool]| && !(dstOff <= p < dstOff + len) ==> r.value[pool][p] == mems[pool][p]
  {
    CopyIs(mems, pool, dstOff, srcOff, len);
    var g := Grown(mems[pool], dstOff + len, true);
    SpliceShows(g, dstOff, mems[0][srcOff..srcOff + len]);
    forall p | 0 <= p < |mems[pool]| ensures g[p] == mems[pool][p] { assert g[..|mems[pool]|][p] == g[p]; }
  }

  lemma SpliceShows(mem: bytes, at: nat, data: bytes)
    requires at + |data| <= |mem|
    ensures Splice(mem, at, data)[at..at + |data|] == data
  {
  }

  lemma GrownShape(mem: bytes, end: u32)
    requires |mem| % PAGE == 0
    ensures var g := Grown(mem, end, true); |g| >= |mem| && g[..|mem|] == mem && (Coverable(mem, end) <==> end <= |g|)
  {
    if end <= 0xFFFF_0000 { GrowCovers(|mem| / PAGE, end); } else { GrowWraps(|mem| / PAGE, end, true); }
  }

  /** With grows granted and its source in range a copy succeeds exactly when its pool exists and its end
      fits 32 bits and is at most 0xFFFF0000 or covered already. */
  lemma CopySucceedsIff(mems: seq<bytes>, pool: u32, dstOff: u32, srcOff: u32, len: u32)
    requires mems != [] && Paged(mems) && srcOff + len <= |mems[0]|
    ensures CopyFromDefault(mems, pool, dstOff, srcOff, len, true).Some? <==>
      pool < |mems| && dstOff + len <= U32_MAX && Coverable(mems[pool], dstOff + len)
  {
    if pool >= |mems| || dstOff + len > U32_MAX {
      CopyTraps(mems, pool, dstOff, srcOff, len, true);
    } else if Coverable(mems[pool], dstOff + len) {
      CopyIs(mems, pool, dstOff, srcOff, len);
    } else {
      WrapDetected(dstOff, len);
      DispatchIsExact(|mems|, pool);
      GrownShape(mems[pool], dstOff + len);
    }
  }

  /** Out of range, or past the end of the 32-bit address space: a trap, whatever the memories. */
  lemma CopyTraps(mems: seq<bytes>, pool: u32, dstOff: u32, srcOff: u32, len: u32, granted: bool)
    requires mems != [] && Paged(mems) && (pool >= |mems| || dstOff + len > U32_MAX)
    ensures CopyFromDefault(mems, pool, dstOff, srcOff, len, granted).None?
  {
    WrapDetected(dstOff, len);
    DispatchIsExact(|mems|, pool);
  }
}
