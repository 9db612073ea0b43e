/**
 * `read_gather`: many small reads at given indices. When the indices step by exactly the item size
 * one bulk read serves them all; it gives what the per-index loop gives, bytes or error.
 */
module Gather {
  import opened Core
  import opened Directory
  import D = RegionDirectory
  import opened Simd

  /** `wrapping_add` and `wrapping_sub`. */
  function WrappingAdd(a: u32, b: u32): u32 { if a + b <= U32_MAX then a + b else a + b - TWO_32 }

  function WrappingSub(a: u32, b: u32): u32 { if a >= b then a - b else a - b + TWO_32 }

  function CellAt(h: Handle, index: u32): Handle { h.(offset := WrappingAdd(h.offset, index)) }

  /** One read after another; the first error ends the call. */
  function PerIndex(s: Sys, h: Handle, indices: seq<u32>, item: u32): (r: Outcome)
    ensures r.Ok? ==> r.value.Data?
  {
    if indices == [] then Ok(Data([]))
    else
      var first := Directory.Read(s, CellAt(h, indices[0]), item);
      if first.Err? then first
      else
        var rest := PerIndex(s, h, indices[1..], item);
        if rest.Err? then rest else Ok(Data(first.value.data + rest.value.data))
  }

  /** Each index is the one before plus the item size, modulo 2^32. */
  predicate Stepping(indices: seq<u32>, item: u32) {
    |indices| >= 2 ==> WrappingSub(indices[1], indices[0]) == item && Stepping(indices[1..], item)
  }

  predicate Dense(indices: seq<u32>, item: u32) { indices != [] && Stepping(indices, item) }

  /** The next cell starts where this one ends, unless it wraps. */
  lemma NextCell(h: Handle, a: u32, b: u32, item: u32)
    requires WrappingSub(b, a) == item
    ensures CellAt(h, b).offset == WrappingAdd(CellAt(h, a).offset, item)
  {
  }

  /** A read of `n` and a read of `m` right behind it make a read of `n + m`. */
  lemma SplitRead(s: Sys, h: Handle, n: u32, m: u32)
    requires n + m <= U32_MAX
    ensures var whole := Directory.Read(s, h, n + m); var first := Directory.Read(s, h, n);
      var second := Directory.Read(s, h.(offset := WrappingAdd(h.offset, n)), m);
      && (first.Err? ==> whole == first)
      && (first.Ok? && second.Err? ==> whole == second)
      && (first.Ok? && second.Ok? ==> whole == Ok(Data(first.value.data + second.value.data)))
  {
    var r := s.Lookup(h.regionId);
    if r.Some? && r.value.memory.Some? {
      var mem := r.value.memory.value.data;
      if h.offset + n <= |mem| && h.offset + n <= r.value.capacity && h.offset + n + m <= |mem| {
        JoinSlices(mem, h.offset, n, m);
      }
    }
  }

  lemma JoinSlices(mem: bytes, at: nat, n: nat, m: nat)
    requires at + n + m <= |mem|
    ensures Slice(mem, at, n) + Slice(mem, at + n, m) == Slice(mem, at, n + m)
  {
  }

  lemma Products(n: nat, item: nat)
    requires n >= 1
    ensures n * item == item + (n - 1) * item && (n - 1) * item >= 0
  {
  }

  /** The bulk read is the loop, for all indices, wrapping ones included. */
  lemma {:induction false} DenseIsPerIndex(s: Sys, h: Handle, indices: seq<u32>, item: u32)
    requires Dense(indices, item) && |indices| * item <= U32_MAX
    ensures Directory.Read(s, CellAt(h, indices[0]), |indices| * item) == PerIndex(s, h, indices, item)
  {
    var n := |indices|;
    var cell := CellAt(h, indices[0]);
    if n == 1 {
      var first := Directory.Read(s, cell, item);
      if first.Ok? { assert first.value.data + [] == first.value.data; }
      assert PerIndex(s, h, indices[1..], item) == Ok(Data([]));
    } else {
      Products(n, item);
      var rest := (n - 1) * item;
      NextCell(h, indices[0], indices[1], item);
      SplitRead(s, cell, item, rest);
      DenseIsPerIndex(s, h, indices[1..], item);
    }
  }

  /** The little-endian word at the front. */
  function Word(raw: seq<u8>): u32
    requires |raw| >= 4
  {
    N(raw[0]) + 256 * N(raw[1]) + 65536 * N(raw[2]) + 16777216 * N(raw[3])
  }

  /** Little-endian words, as the guest wrote them. */
  function Decoded(raw: seq<u8>, count: nat): (r: seq<u32>)
    requires |raw| == 4 * count
    ensures |r| == count
  {
    if count == 0 then [] else Decoded(raw[..4 * (count - 1)], count - 1) + [Word(raw[4 * (count - 1)..])]
  }

  method Decode(raw: seq<u8>, count: nat) returns (indices: seq<u32>)
    requires |raw| == 4 * count
    ensures indices == Decoded(raw, count)
  {
    indices := [];
    var i := 0;
    while i < count
      invariant 0 <= i <= count
      invariant indices == Decoded(raw[..4 * i], i)
    {
      DecodeOne(raw[..4 * (i + 1)], raw, i);
      indices := indices + [Word(raw[4 * i..4 * i + 4])];
      i := i + 1;
    }
    assert raw[..4 * i] == raw;
  }

  lemma DecodeOne(prefix: seq<u8>, raw: seq<u8>, i: nat)
    requires 4 * (i + 1) <= |raw| && prefix == raw[..4 * (i + 1)]
    ensures Decoded(prefix, i + 1) == Decoded(raw[..4 * i], i) + [Word(raw[4 * i..4 * i + 4])]
  {
    assert prefix[..4 * i] == raw[..4 * i] && prefix[4 * i..] == raw[4 * i..4 * i + 4];
  }

  method IsDense(indices: seq<u32>, item: u32) returns (dense: bool)
    ensures dense <==> Dense(indices, item)
  {
    if |indices| < 2 { return |indices| == 1; }
    var stride := WrappingSub(indices[1], indices[0]);
    if stride != item { return false; }
    var k := 1;
    while k < |indices|
      invariant 1 <= k <= |indices|
      invariant Stepping(indices, item) <==> Stepping(indices[k - 1..], item)
    {
      assert indices[k - 1..][1..] == indices[k..];
      if WrappingSub(indices[k], indices[k - 1]) != stride { return false; }
      k := k + 1;
    }
    dense := true;
  }

  function Prepend(done: bytes, r: Outcome): Outcome
    requires r.Ok? ==> r.value.Data?
  {
    if r.Err? then r else Ok(Data(done + r.value.data))
  }

  /** The handler's read step: whichever path it takes, the answer is the per-index one. */
  method ReadGather(d: D.RegionDirectory, store: D.BackingStore, h: Handle, indices: seq<u32>, item: u32) returns (r: Outcome)
    requires |indices| * item <= U32_MAX
    ensures r == PerIndex(d.State(store), h, indices, item)
  {
    var dense := IsDense(indices, item);
    if dense {
      DenseIsPerIndex(d.State(store), h, indices, item);
      r := d.Read(CellAt(h, indices[0]), |indices| * item, store);
      return;
    }
    var scratch: bytes := [];
    var i := 0;
    NothingYet(PerIndex(d.State(store), h, indices, item));
    assert indices[0..] == indices;
    while i < |indices|
      invariant 0 <= i <= |indices|
      invariant PerIndex(d.State(store), h, indices, item) == Prepend(scratch, PerIndex(d.State(store), h, indices[i..], item))
    {
      assert indices[i..][1..] == indices[i + 1..];
      var cell := d.Read(CellAt(h, indices[i]), item, store);
      if cell.Err? { return cell; }
      PrependMore(scratch, cell.value.data, PerIndex(d.State(store), h, indices[i + 1..], item));
      scratch := scratch + cell.value.data;
      i := i + 1;
    }
    r := Ok(Data(scratch));
    assert scratch + [] == scratch;
  }

  lemma NothingYet(r: Outcome)
    requires r.Ok? ==> r.value.Data?
    ensures Prepend([], r) == r
  {
    if r.Ok? { assert [] + r.value.data == r.value.data; }
  }

  lemma PrependMore(done: bytes, more: bytes, rest: Outcome)
    requires rest.Ok? ==> rest.value.Data?
    ensures Prepend(done + more, rest) == if rest.Err? then rest else Ok(Data(done + (more + rest.value.data)))
  {
    if rest.Ok? { assert done + more + rest.value.data == done + (more + rest.value.data); }
  }
}
