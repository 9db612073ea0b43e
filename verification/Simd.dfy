/**
 * The vector kernels: sixteen bytes a turn, a horizontal reduction, and a scalar tail, with cursors
 * that wrap at 2^32. Each equals the byte-by-byte reducer over the same range.
 */
module Simd {
  import opened Core
  import opened Bits

  type u8 = x: int | 0 <= x <= 255
  type Pool = seq<u8>

  // ---------------------------------------------------------------------------------------------
  // Cursors.
  // ---------------------------------------------------------------------------------------------

  /** A 32-bit addition whose exact result is below 2^33. */
  function Wrap(x: nat): (r: nat)
    requires x < 2 * TWO_32
    ensures r < TWO_32
  {
    if x < TWO_32 then x else x - TWO_32
  }

  lemma WrapIsModulo(x: nat)
    requires x < 2 * TWO_32
    ensures Wrap(x) == x % TWO_32
  {
    if x >= TWO_32 { DivModUnique(x, TWO_32, 1, x - TWO_32); }
  }

  /** `len & -16`. */
  function VecLen(len: u32): (r: nat)
    ensures r <= len < r + 16
  {
    16 * (len / 16)
  }

  /** Cursors of two different positions in a range differ, even when the range ends at 2^32. */
  lemma WrapInjective(off: u32, a: nat, b: nat)
    requires a <= b < TWO_32 && off + b <= TWO_32 && Wrap(off + a) == Wrap(off + b)
    ensures a == b
  {
  }

  /** A turn of the vector loop: sixteen bytes fit before the vector end. */
  lemma VectorTurn(off: u32, len: u32, i: nat)
    requires 16 * i <= VecLen(len) && off + len <= TWO_32 && Wrap(off + 16 * i) != Wrap(off + VecLen(len))
    ensures 16 * (i + 1) <= VecLen(len) && Wrap(off + 16 * i) == off + 16 * i && Wrap(off + 16 * (i + 1)) == Wrap(Wrap(off + 16 * i) + 16)
  {
    assert i < len / 16;
  }

  // ---------------------------------------------------------------------------------------------
  // Sum and population count.
  // ---------------------------------------------------------------------------------------------

  /** A byte as a number. */
  function N(b: u8): nat { b }

  function SumOf(s: seq<u8>): nat { if s == [] then 0 else SumOf(s[..|s| - 1]) + N(s[|s| - 1]) }

  lemma {:induction false} SumConcat(a: seq<u8>, b: seq<u8>)
    ensures SumOf(a + b) == SumOf(a) + SumOf(b)
  {
    if b == [] {
      assert a + b == a;
    } else {
      assert (a + b)[..|a + b| - 1] == a + b[..|b| - 1];
      SumConcat(a, b[..|b| - 1]);
    }
  }

  lemma {:induction false} SumBound(s: seq<u8>)
    ensures SumOf(s) <= 255 * |s|
  {
    if s != [] { SumBound(s[..|s| - 1]); }
  }

  /** Addition in a lane of the given width. */
  function LaneAdd(a: nat, b: nat, width: nat): nat
    requires a < width && b < width
  {
    if a + b < width then a + b else a + b - width
  }

  const TWO_16 := 0x10000
  const TWO_64 := 0x1_0000_0000_0000_0000

  /** One 32-bit lane out of four byte lanes: two pairwise widening additions. */
  function Quad(v: seq<u8>, k: nat): nat
    requires |v| == 16 && k < 4
  {
    LaneAdd(LaneAdd(N(v[4 * k]), N(v[4 * k + 1]), TWO_16), LaneAdd(N(v[4 * k + 2]), N(v[4 * k + 3]), TWO_16), TWO_32)
  }

  lemma SumOfFour(a: u8, b: u8, c: u8, d: u8)
    ensures SumOf([a, b, c, d]) == N(a) + N(b) + N(c) + N(d)
  {
    assert [a, b, c, d][..3] == [a, b, c] && [a, b, c][..2] == [a, b] && [a, b][..1] == [a] && [a][..0] == [];
    assert SumOf([a]) == N(a);
    assert SumOf([a, b]) == N(a) + N(b);
    assert SumOf([a, b, c]) == N(a) + N(b) + N(c);
  }

  lemma QuadIsSum(v: seq<u8>, k: nat)
    requires |v| == 16 && k < 4
    ensures Quad(v, k) == SumOf(v[4 * k..4 * k + 4]) <= 1020
  {
    assert v[4 * k..4 * k + 4] == [v[4 * k], v[4 * k + 1], v[4 * k + 2], v[4 * k + 3]];
    SumOfFour(v[4 * k], v[4 * k + 1], v[4 * k + 2], v[4 * k + 3]);
  }

  lemma SplitInFour(v: seq<u8>)
    requires |v| == 16
    ensures SumOf(v) == SumOf(v[0..4]) + SumOf(v[4..8]) + SumOf(v[8..12]) + SumOf(v[12..16])
  {
    SumConcat(v[0..4], v[4..8]);
    SumConcat(v[8..12], v[12..16]);
    SumConcat(v[0..4] + v[4..8], v[8..12] + v[12..16]);
    assert v == (v[0..4] + v[4..8]) + (v[8..12] + v[12..16]);
  }

  /** No lane of the widening chain overflows: the four results add up to the sum of the bytes. */
  lemma QuadsSum(v: seq<u8>)
    requires |v| == 16
    ensures Quad(v, 0) + Quad(v, 1) + Quad(v, 2) + Quad(v, 3) == SumOf(v) <= 4080
  {
    QuadIsSum(v, 0);
    QuadIsSum(v, 1);
    QuadIsSum(v, 2);
    QuadIsSum(v, 3);
    SplitInFour(v);
  }

  /** The two 64-bit accumulator lanes after sixteen more byte lanes. */
  method AddLanes(low: nat, high: nat, v: seq<u8>) returns (l: nat, h: nat)
    requires |v| == 16 && low + high <= 255 * TWO_32
    ensures l + h == low + high + SumOf(v)
  {
    QuadsSum(v);
    l := LaneAdd(LaneAdd(low, Quad(v, 0), TWO_64), Quad(v, 2), TWO_64);
    h := LaneAdd(LaneAdd(high, Quad(v, 1), TWO_64), Quad(v, 3), TWO_64);
  }

  lemma SumGrows(s: seq<u8>, from: nat, n: nat, k: nat)
    requires from + n + k <= |s|
    ensures SumOf(s[from..from + n + k]) == SumOf(s[from..from + n]) + SumOf(s[from + n..from + n + k])
    ensures SumOf(s[from..from + n]) <= 255 * n
  {
    assert s[from..from + n + k] == s[from..from + n] + s[from + n..from + n + k];
    SumConcat(s[from..from + n], s[from + n..from + n + k]);
    SumBound(s[from..from + n]);
  }

  lemma SumOne(s: seq<u8>, at: nat)
    requires at < |s|
    ensures SumOf(s[at..at + 1]) == N(s[at])
  {
    assert s[at..at + 1][..0] == [];
  }

  /** `i64x2.extract_lane` twice and one addition. */
  function AddBoth(low: nat, high: nat): (r: nat)
    requires low + high < TWO_64
    ensures r == low + high
  {
    LaneAdd(low, high, TWO_64)
  }

  method SimdSum(mem: Pool, off: u32, len: u32) returns (scalar: nat)
    requires off + len <= |mem| <= TWO_32
    ensures scalar == SumOf(mem[off..off + len])
  {
    var cur: u32, end: u32, vecEnd: u32 := off, Wrap(off + len), Wrap(off + VecLen(len));
    var low, high := 0, 0;
    ghost var i := 0;
    while cur != vecEnd
      invariant 16 * i <= VecLen(len) && cur == Wrap(off + 16 * i)
      invariant low + high == SumOf(mem[off..off + 16 * i])
      decreases len - 16 * i
    {
      VectorTurn(off, len, i);
      low, high := SumTurn(mem, off, 16 * i, cur, low, high);
      cur := Wrap(cur + 16);
      i := i + 1;
    }
    WrapInjective(off, 16 * i, VecLen(len));
    SumBound(mem[off..off + 16 * i]);
    scalar := AddBoth(low, high);
    scalar := SumTail(mem, off, len, VecLen(len), cur, end, scalar);
  }

  /** Sixteen bytes through the widening chain. */
  method SumTurn(mem: Pool, ghost off: u32, ghost n: nat, cur: u32, low: nat, high: nat) returns (l: nat, h: nat)
    requires cur == off + n && cur + 16 <= |mem| <= TWO_32 && low + high == SumOf(mem[off..off + n])
    ensures l + h == SumOf(mem[off..off + n + 16])
  {
    SumGrows(mem, off, n, 16);
    l, h := AddLanes(low, high, mem[cur..cur + 16]);
  }

  /** The scalar tail. */
  method SumTail(mem: Pool, ghost off: u32, ghost len: u32, ghost done: nat, from: u32, end: u32, partial: nat) returns (scalar: nat)
    requires off + len <= |mem| <= TWO_32 && done <= len && from == Wrap(off + done) && end == Wrap(off + len)
    requires partial == SumOf(mem[off..off + done])
    ensures scalar == SumOf(mem[off..off + len])
  {
    var cur := from;
    ghost var n := done;
    scalar := partial;
    while cur != end
      invariant n <= len && cur == Wrap(off + n) && scalar == SumOf(mem[off..off + n])
      decreases len - n
    {
      SumGrows(mem, off, n, 1);
      SumOne(mem, off + n);
      scalar := AddBoth(scalar, N(mem[cur]));
      cur := Wrap(cur + 1);
      n := n + 1;
    }
    WrapInjective(off, n, len);
  }

  function PopCount(b: nat): nat { if b == 0 then 0 else b % 2 + PopCount(b / 2) }

  lemma {:induction false} PopCountBound(b: nat, k: nat)
    requires b < Pow2(k)
    ensures PopCount(b) <= k
  {
    if b > 0 { PopCountBound(b / 2, k - 1); }
  }

  /** The population count of each byte, as the lane-wise instruction gives it. */
  function PopCounts(s: seq<u8>): (r: seq<u8>)
    ensures |r| == |s|
  {
    seq(|s|, i requires 0 <= i < |s| => PopOf(s[i]))
  }

  function PopOf(b: u8): u8 {
    assert Pow2(8) == 256 by { assert Pow2(4) == 16; }
    PopCountBound(b, 8);
    PopCount(b)
  }

  lemma PopCountsSlice(s: seq<u8>, at: nat, n: nat)
    requires at + n <= |s|
    ensures PopCounts(s)[at..at + n] == PopCounts(s[at..at + n])
  {
  }

  method SimdPopcount(mem: Pool, off: u32, len: u32) returns (scalar: nat)
    requires off + len <= |mem| <= TWO_32
    ensures scalar == SumOf(PopCounts(mem[off..off + len]))
  {
    ghost var counts := PopCounts(mem);
    var vecEnd: u32, end: u32 := Wrap(off + VecLen(len)), Wrap(off + len);
    var low, high := PopcountVector(mem, counts, off, len, vecEnd);
    SumBound(counts[off..off + VecLen(len)]);
    scalar := AddBoth(low, high);
    scalar := PopcountTail(mem, counts, off, len, VecLen(len), vecEnd, end, scalar);
    PopCountsSlice(mem, off, len);
  }

  /** The whole turns, with one accumulator for each half of the lanes. */
  method PopcountVector(mem: Pool, ghost counts: Pool, off: u32, len: u32, vecEnd: u32) returns (low: nat, high: nat)
    requires off + len <= |mem| <= TWO_32 && counts == PopCounts(mem) && vecEnd == Wrap(off + VecLen(len))
    ensures low + high == SumOf(counts[off..off + VecLen(len)])
  {
    var cur: u32 := off;
    low, high := 0, 0;
    ghost var i := 0;
    while cur != vecEnd
      invariant 16 * i <= VecLen(len) && cur == Wrap(off + 16 * i)
      invariant low + high == SumOf(counts[off..off + 16 * i])
      decreases len - 16 * i
    {
      VectorTurn(off, len, i);
      low, high := PopcountTurn(mem, counts, off, 16 * i, cur, low, high);
      cur := Wrap(cur + 16);
      i := i + 1;
    }
    WrapInjective(off, 16 * i, VecLen(len));
  }

  /** Sixteen bytes: `i8x16.popcnt`, then the widening chain. */
  method PopcountTurn(mem: Pool, ghost counts: Pool, ghost off: u32, ghost n: nat, cur: u32, low: nat, high: nat) returns (l: nat, h: nat)
    requires cur == off + n && cur + 16 <= |mem| <= TWO_32 && counts == PopCounts(mem) && low + high == SumOf(counts[off..off + n])
    ensures l + h == SumOf(counts[off..off + n + 16])
  {
    SumGrows(counts, off, n, 16);
    PopCountsSlice(mem, cur, 16);
    l, h := AddLanes(low, high, PopCounts(mem[cur..cur + 16]));
  }

  method PopcountTail(mem: Pool, ghost counts: Pool, ghost off: u32, ghost len: u32, ghost done: nat, from: u32, end: u32, partial: nat) returns (scalar: nat)
    requires off + len <= |mem| <= TWO_32 && done <= len && from == Wrap(off + done) && end == Wrap(off + len)
    requires counts == PopCounts(mem) && partial == SumOf(counts[off..off + done])
    ensures scalar == SumOf(counts[off..off + len])
  {
    var cur := from;
    ghost var n := done;
    scalar := partial;
    while cur != end
      invariant n <= len && cur == Wrap(off + n) && scalar == SumOf(counts[off..off + n])
      decreases len - n
    {
      SumGrows(counts, off, n, 1);
      SumOne(counts, off + n);
      scalar := AddBoth(scalar, N(PopOf(mem[cur])));
      cur := Wrap(cur + 1);
      n := n + 1;
    }
    WrapInjective(off, n, len);
  }

  // ---------------------------------------------------------------------------------------------
  // Counting and finding a byte.
  // ---------------------------------------------------------------------------------------------

  function Count(s: seq<u8>, b: nat): nat { if s == [] then 0 else Count(s[..|s| - 1], b) + if s[|s| - 1] == b then 1 else 0 }

  lemma {:induction false} CountConcat(a: seq<u8>, c: seq<u8>, b: nat)
    ensures Count(a + c, b) == Count(a, b) + Count(c, b)
  {
    if c == [] {
      assert a + c == a;
    } else {
      assert (a + c)[..|a + c| - 1] == a + c[..|c| - 1];
      CountConcat(a, c[..|c| - 1], b);
    }
  }

  lemma {:induction false} CountBound(s: seq<u8>, b: nat)
    ensures Count(s, b) <= |s|
  {
    if s != [] { CountBound(s[..|s| - 1], b); }
  }

  lemma CountGrows(s: seq<u8>, from: nat, n: nat, k: nat, b: nat)
    requires from + n + k <= |s|
    ensures Count(s[from..from + n + k], b) == Count(s[from..from + n], b) + Count(s[from + n..from + n + k], b)
    ensures Count(s[from..from + n], b) <= n
  {
    assert s[from..from + n + k] == s[from..from + n] + s[from + n..from + n + k];
    CountConcat(s[from..from + n], s[from + n..from + n + k], b);
    CountBound(s[from..from + n], b);
  }

  lemma CountOne(s: seq<u8>, at: nat, b: nat)
    requires at < |s|
    ensures Count(s[at..at + 1], b) == if s[at] == b then 1 else 0
  {
    assert s[at..at + 1][..0] == [];
  }

  /** `i8x16.eq` with a splatted byte, then `i8x16.bitmask`: bit i is set when lane i matches. */
  function MatchMask(v: seq<u8>, b: nat): nat { if v == [] then 0 else (if v[0] == b then 1 else 0) + 2 * MatchMask(v[1..], b) }

  /** The bits set in the mask are the matches. */
  lemma {:induction false} MaskCounts(v: seq<u8>, b: nat)
    ensures PopCount(MatchMask(v, b)) == Count(v, b)
  {
    if v != [] {
      MaskCounts(v[1..], b);
      CountConcat([v[0]], v[1..], b);
      assert v == [v[0]] + v[1..] && [v[0]][..0] == [];
      assert Count([v[0]], b) == if v[0] == b then 1 else 0;
    }
  }

  /** `i8x16.splat` keeps the low byte of its argument. */
  function LowByte(byte: u32): nat { if byte < 256 then byte else byte % 256 }

  /** The vector part, of length `v`, compares with the low byte of the argument, the tail with all
      of it. */
  function KernelCount(s: seq<u8>, v: nat, byte: u32): nat
    requires v <= |s|
  {
    Count(s[..v], LowByte(byte)) + Count(s[v..], byte)
  }

  method SimdCountByte(mem: Pool, off: u32, len: u32, byte: u32) returns (count: nat)
    requires off + len <= |mem| <= TWO_32
    ensures count == KernelCount(mem[off..off + len], VecLen(len), byte)
  {
    var cur: u32, end: u32, vecEnd: u32 := off, Wrap(off + len), Wrap(off + VecLen(len));
    var splat := LowByte(byte);
    count := 0;
    ghost var i := 0;
    while cur != vecEnd
      invariant 16 * i <= VecLen(len) && cur == Wrap(off + 16 * i)
      invariant count == Count(mem[off..off + 16 * i], splat)
      decreases len - 16 * i
    {
      VectorTurn(off, len, i);
      count := CountTurn(mem, off, 16 * i, cur, splat, count);
      cur := Wrap(cur + 16);
      i := i + 1;
    }
    WrapInjective(off, 16 * i, VecLen(len));
    CountBound(mem[off..off + 16 * i], splat);
    count := CountTail(mem, off, len, VecLen(len), cur, end, byte, count);
    RangeParts(mem, off, len);
  }

  /** Sixteen bytes: the population count of the match mask. */
  method CountTurn(mem: Pool, ghost off: u32, ghost n: nat, cur: u32, splat: nat, count: nat) returns (r: nat)
    requires cur == off + n && cur + 16 <= |mem| <= TWO_32 && n + 16 < TWO_32 && count == Count(mem[off..off + n], splat)
    ensures r == Count(mem[off..off + n + 16], splat)
  {
    CountGrows(mem, off, n, 16, splat);
    MaskCounts(mem[cur..cur + 16], splat);
    CountBound(mem[cur..cur + 16], splat);
    r := LaneAdd(count, PopCount(MatchMask(mem[cur..cur + 16], splat)), TWO_32);
  }

  lemma RangeParts(mem: Pool, off: u32, len: u32)
    requires off + len <= |mem|
    ensures var s := mem[off..off + len]; var v := VecLen(len);
      s[..v] == mem[off..off + v] && s[v..] == mem[off + v..off + len]
  {
  }

  method CountTail(mem: Pool, ghost off: u32, ghost len: u32, ghost done: nat, from: u32, end: u32, byte: u32, partial: nat) returns (count: nat)
    requires off + len <= |mem| <= TWO_32 && done <= len && from == Wrap(off + done) && end == Wrap(off + len) && partial <= done
    ensures count == partial + Count(mem[off + done..off + len], byte)
  {
    var cur := from;
    ghost var n := done;
    count := partial;
    while cur != end
      invariant done <= n <= len && cur == Wrap(off + n) && count == partial + Count(mem[off + done..off + n], byte)
      decreases len - n
    {
      CountGrows(mem, off + done, n - done, 1, byte);
      CountOne(mem, off + n, byte);
      if N(mem[cur]) == byte { count := LaneAdd(count, 1, TWO_32); }
      cur := Wrap(cur + 1);
      n := n + 1;
    }
    WrapInjective(off, n, len);
  }

  lemma {:induction false} NoWideByte(s: seq<u8>, b: nat)
    requires b > 255
    ensures Count(s, b) == 0
  {
    if s != [] { NoWideByte(s[..|s| - 1], b); }
  }

  /** For a search byte the kernel counts what the byte-by-byte reducer counts; for a wider argument
      it does so for the low byte exactly when the tail holds none of it. */
  lemma KernelCountIff(s: seq<u8>, v: nat, byte: u32)
    requires v <= |s|
    ensures byte < 256 ==> KernelCount(s, v, byte) == Count(s, byte)
    ensures byte >= 256 ==> (KernelCount(s, v, byte) == Count(s, LowByte(byte)) <==> Count(s[v..], LowByte(byte)) == 0)
  {
    assert s == s[..v] + s[v..];
    CountConcat(s[..v], s[v..], LowByte(byte));
    if byte >= 256 { NoWideByte(s[v..], byte); }
  }

  /** One byte 65, asked for 256 + 65: the kernel finds none in its tail, its vector part would find it. */
  lemma WideArgumentMissesTail()
    ensures KernelCount([65], VecLen(1), 321) == 0 && Count([65], LowByte(321)) == 1
  {
    var s: seq<u8> := [65];
    assert s[..0] == [] && s[0..] == s;
    NoWideByte(s, 321);
    assert s == [] + [65];
  }

  /** The first index of a byte. */
  function Find(s: seq<u8>, b: nat): (r: Option<nat>)
    ensures r.Some? ==> r.value < |s| && s[r.value] == b && forall i :: 0 <= i < r.value ==> s[i] != b
    ensures r.None? ==> forall i :: 0 <= i < |s| ==> s[i] != b
  {
    if s == [] then None
    else if s[0] == b then Some(0)
    else
      var rest := Find(s[1..], b);
      if rest.Some? then Some(rest.value + 1) else None
  }

  /** The definition above leaves one answer. */
  lemma FindUnique(s: seq<u8>, b: nat, r: Option<nat>)
    requires r.Some? ==> r.value < |s| && s[r.value] == b && forall i :: 0 <= i < r.value ==> s[i] != b
    requires r.None? ==> forall i :: 0 <= i < |s| ==> s[i] != b
    ensures r == Find(s, b)
  {
  }

  function Ctz(m: nat): nat
    requires m > 0
  {
    if m % 2 == 1 then 0 else 1 + Ctz(m / 2)
  }

  /** The lowest set bit of the mask is the first match; no match means no bit. */
  lemma {:induction false} MaskFinds(v: seq<u8>, b: nat)
    ensures MatchMask(v, b) == 0 <==> Find(v, b).None?
    ensures Find(v, b).Some? ==> Ctz(MatchMask(v, b)) == Find(v, b).value
  {
    if v != [] { MaskFinds(v[1..], b); }
  }

  /** `i32.const -1` when nothing is found. */
  function Encoded(r: Option<nat>): nat { if r.None? then U32_MAX else r.value }

  /** First match of the low byte in the vector part, else of the whole argument in the tail. */
  function KernelFind(s: seq<u8>, v: nat, byte: u32): Option<nat>
    requires v <= |s|
  {
    var first := Find(s[..v], LowByte(byte));
    if first.Some? then first
    else
      var second := Find(s[v..], byte);
      if second.Some? then Some(v + second.value) else None
  }

  method SimdFindByte(mem: Pool, off: u32, len: u32, byte: u32) returns (r: nat)
    requires off + len <= |mem| <= TWO_32
    ensures r == Encoded(KernelFind(mem[off..off + len], VecLen(len), byte))
  {
    var cur: u32, end: u32, vecEnd: u32 := off, Wrap(off + len), Wrap(off + VecLen(len));
    var splat := LowByte(byte);
    RangeParts(mem, off, len);
    ghost var i := 0;
    while cur != vecEnd
      invariant 16 * i <= VecLen(len) && cur == Wrap(off + 16 * i)
      invariant forall k :: off <= k < off + 16 * i ==> mem[k] != splat
      decreases len - 16 * i
    {
      VectorTurn(off, len, i);
      var mask := MatchMask(mem[cur..cur + 16], splat);
      MaskFinds(mem[cur..cur + 16], splat);
      if mask != 0 {
        var at := Ctz(mask);
        FoundInVector(mem, off, len, i, splat);
        return cur + at - off;
      }
      NotInTurn(mem, cur, splat);
      cur := Wrap(cur + 16);
      i := i + 1;
    }
    WrapInjective(off, 16 * i, VecLen(len));
    FindUnique(mem[off..off + VecLen(len)], splat, None);
    r := FindTail(mem, off, len, VecLen(len), cur, end, byte);
  }

  lemma NotInTurn(mem: Pool, cur: nat, b: nat)
    requires cur + 16 <= |mem| && Find(mem[cur..cur + 16], b).None?
    ensures forall k :: cur <= k < cur + 16 ==> mem[k] != b
  {
    forall k | cur <= k < cur + 16 ensures mem[k] != b { assert mem[cur..cur + 16][k - cur] != b; }
  }

  lemma FoundInVector(mem: Pool, off: u32, len: u32, i: nat, b: nat)
    requires off + len <= |mem| && 16 * i + 16 <= VecLen(len)
    requires forall k :: off <= k < off + 16 * i ==> mem[k] != b
    requires Find(mem[off + 16 * i..off + 16 * i + 16], b).Some?
    ensures Find(mem[off..off + VecLen(len)], b) == Some(16 * i + Find(mem[off + 16 * i..off + 16 * i + 16], b).value)
  {
    var turn := mem[off + 16 * i..off + 16 * i + 16];
    var at := Find(turn, b).value;
    var s := mem[off..off + VecLen(len)];
    assert s[16 * i + at] == turn[at];
    forall k | 0 <= k < 16 * i + at ensures s[k] != b {
      if k < 16 * i { assert mem[off + k] != b; } else { assert turn[k - 16 * i] != b; }
    }
    FindUnique(s, b, Some(16 * i + at));
  }

  method FindTail(mem: Pool, off: u32, ghost len: u32, ghost done: nat, from: u32, end: u32, byte: u32) returns (r: nat)
    requires off + len <= |mem| <= TWO_32 && done <= len && from == Wrap(off + done) && end == Wrap(off + len)
    ensures var f := Find(mem[off + done..off + len], byte); r == if f.Some? then done + f.value else U32_MAX
  {
    var cur := from;
    ghost var n := done;
    ghost var tail := mem[off + done..off + len];
    while cur != end
      invariant done <= n <= len && cur == Wrap(off + n)
      invariant forall k :: 0 <= k < n - done ==> tail[k] != byte
      decreases len - n
    {
      assert mem[cur] == tail[n - done];
      if N(mem[cur]) == byte {
        FindUnique(tail, byte, Some(n - done));
        return cur - off;
      }
      cur := Wrap(cur + 1);
      n := n + 1;
    }
    WrapInjective(off, n, len);
    FindUnique(tail, byte, None);
    return U32_MAX;
  }

  lemma FindParts(s: seq<u8>, v: nat, b: nat)
    requires v <= |s|
    ensures Find(s, b) ==
      if Find(s[..v], b).Some? then Find(s[..v], b)
      else if Find(s[v..], b).Some? then Some(v + Find(s[v..], b).value) else None
  {
    var first, second := Find(s[..v], b), Find(s[v..], b);
    forall i | 0 <= i < v ensures s[..v][i] == s[i] {}
    forall i | v <= i < |s| ensures s[i] == s[v..][i - v] {}
    FindUnique(s, b, if first.Some? then first else if second.Some? then Some(v + second.value) else None);
  }

  /** For a search byte the kernel finds what the byte-by-byte search finds. */
  lemma KernelFindIsFind(s: seq<u8>, v: nat, byte: u32)
    requires v <= |s| && byte < 256
    ensures KernelFind(s, v, byte) == Find(s, byte)
  {
    assert LowByte(byte) == byte;
    FindParts(s, v, byte);
    var first, second := Find(s[..v], byte), Find(s[v..], byte);
    assert KernelFind(s, v, byte) == if first.Some? then first else if second.Some? then Some(v + second.value) else None;
  }
}
