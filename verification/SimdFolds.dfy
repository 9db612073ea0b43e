/**
 * The vector kernels that fold with an idempotent or bitwise operator: minimum and maximum over
 * sixteen byte lanes, and xor, and, or over two 64-bit lanes reduced by shifts.
 */
module SimdFolds {
  import opened Core
  import opened Simd

  // ---------------------------------------------------------------------------------------------
  // Minimum and maximum.
  // ---------------------------------------------------------------------------------------------

  function Lower(a: u8, b: u8): u8 { if a < b then a else b }

  function Higher(a: u8, b: u8): u8 { if a > b then a else b }

  function MinOf(s: seq<u8>): u8 { if s == [] then 255 else Lower(MinOf(s[..|s| - 1]), s[|s| - 1]) }

  function MaxOf(s: seq<u8>): u8 { if s == [] then 0 else Higher(MaxOf(s[..|s| - 1]), s[|s| - 1]) }

  lemma {:induction false} ExtremesConcat(a: seq<u8>, b: seq<u8>)
    ensures MinOf(a + b) == Lower(MinOf(a), MinOf(b)) && MaxOf(a + b) == Higher(MaxOf(a), MaxOf(b))
  {
    if b == [] {
      assert a + b == a;
    } else {
      assert (a + b)[..|a + b| - 1] == a + b[..|b| - 1];
      ExtremesConcat(a, b[..|b| - 1]);
    }
  }

  function LaneMin(a: seq<u8>, b: seq<u8>): (r: seq<u8>)
    requires |a| == |b|
    ensures |r| == |a|
  {
    seq(|a|, i requires 0 <= i < |a| => Lower(a[i], b[i]))
  }

  function LaneMax(a: seq<u8>, b: seq<u8>): (r: seq<u8>)
    requires |a| == |b|
    ensures |r| == |a|
  {
    seq(|a|, i requires 0 <= i < |a| => Higher(a[i], b[i]))
  }

  /** Reducing lane-wise extremes gives the extreme of both. */
  lemma {:induction false} LaneExtremes(a: seq<u8>, b: seq<u8>)
    requires |a| == |b|
    ensures MinOf(LaneMin(a, b)) == Lower(MinOf(a), MinOf(b)) && MaxOf(LaneMax(a, b)) == Higher(MaxOf(a), MaxOf(b))
  {
    if a != [] {
      var n := |a| - 1;
      LaneExtremes(a[..n], b[..n]);
      assert LaneMin(a, b)[..n] == LaneMin(a[..n], b[..n]) && LaneMax(a, b)[..n] == LaneMax(a[..n], b[..n]);
    }
  }

  lemma {:induction false} Constant(v: u8, n: nat)
    ensures MinOf(seq(n, _ => 255)) == 255 && MaxOf(seq(n, _ => 0)) == 0
  {
    if n > 0 {
      Constant(v, n - 1);
      var a: seq<u8>, b: seq<u8> := seq(n, _ => 255), seq(n, _ => 0);
      assert a[..n - 1] == seq(n - 1, _ => 255) && b[..n - 1] == seq(n - 1, _ => 0);
    }
  }

  /** Extracts and compares the lanes one by one. */
  method ReduceLanes(vmin: seq<u8>, vmax: seq<u8>) returns (lo: u8, hi: u8)
    requires |vmin| == 16 && |vmax| == 16
    ensures lo == MinOf(vmin) && hi == MaxOf(vmax)
  {
    lo, hi := 255, 0;
    var k := 0;
    while k < 16
      invariant 0 <= k <= 16 && lo == MinOf(vmin[..k]) && hi == MaxOf(vmax[..k])
    {
      assert vmin[..k + 1][..k] == vmin[..k] && vmax[..k + 1][..k] == vmax[..k];
      if vmin[k] < lo { lo := vmin[k]; }
      if vmax[k] > hi { hi := vmax[k]; }
      k := k + 1;
    }
    assert vmin[..16] == vmin && vmax[..16] == vmax;
  }

  method MinMaxTurn(mem: Pool, ghost off: u32, ghost n: nat, cur: u32, vmin: seq<u8>, vmax: seq<u8>) returns (a: seq<u8>, b: seq<u8>)
    requires cur == off + n && cur + 16 <= |mem| <= TWO_32 && |vmin| == |vmax| == 16
    requires MinOf(vmin) == MinOf(mem[off..off + n]) && MaxOf(vmax) == MaxOf(mem[off..off + n])
    ensures |a| == |b| == 16 && MinOf(a) == MinOf(mem[off..off + n + 16]) && MaxOf(b) == MaxOf(mem[off..off + n + 16])
  {
    var v := mem[cur..cur + 16];
    LaneExtremes(vmin, v);
    LaneExtremes(vmax, v);
    assert mem[off..off + n + 16] == mem[off..off + n] + v;
    ExtremesConcat(mem[off..off + n], v);
    a, b := LaneMin(vmin, v), LaneMax(vmax, v);
  }

  /** The two results as one word, the minimum in the high byte. */
  function Packed(lo: u8, hi: u8): nat { (lo as nat) * 256 + hi }

  method SimdMinMax(mem: Pool, off: u32, len: u32) returns (r: nat)
    requires off + len <= |mem| <= TWO_32
    ensures r == Packed(MinOf(mem[off..off + len]), MaxOf(mem[off..off + len]))
  {
    var cur: u32, end: u32, vecEnd: u32 := off, Wrap(off + len), Wrap(off + VecLen(len));
    var vmin: seq<u8>, vmax: seq<u8> := seq(16, _ => 255), seq(16, _ => 0);
    Constant(0, 16);
    var lo: u8, hi: u8, any := 255, 0, false;
    ghost var i := 0;
    assert mem[off..off] == [];
    while cur != vecEnd
      invariant 16 * i <= VecLen(len) && cur == Wrap(off + 16 * i) && |vmin| == |vmax| == 16
      invariant MinOf(vmin) == MinOf(mem[off..off + 16 * i]) && MaxOf(vmax) == MaxOf(mem[off..off + 16 * i])
      invariant any <==> i > 0
      decreases len - 16 * i
    {
      VectorTurn(off, len, i);
      vmin, vmax := MinMaxTurn(mem, off, 16 * i, cur, vmin, vmax);
      any := true;
      cur := Wrap(cur + 16);
      i := i + 1;
    }
    WrapInjective(off, 16 * i, VecLen(len));
    if any { lo, hi := ReduceLanes(vmin, vmax); }
    lo, hi := MinMaxTail(mem, off, len, VecLen(len), cur, end, lo, hi);
    r := Packed(lo, hi);
  }

  method MinMaxTail(mem: Pool, ghost off: u32, ghost len: u32, ghost done: nat, from: u32, end: u32, lo0: u8, hi0: u8) returns (lo: u8, hi: u8)
    requires off + len <= |mem| <= TWO_32 && done <= len && from == Wrap(off + done) && end == Wrap(off + len)
    requires lo0 == MinOf(mem[off..off + done]) && hi0 == MaxOf(mem[off..off + done])
    ensures lo == MinOf(mem[off..off + len]) && hi == MaxOf(mem[off..off + len])
  {
    var cur := from;
    ghost var n := done;
    lo, hi := lo0, hi0;
    while cur != end
      invariant n <= len && cur == Wrap(off + n) && lo == MinOf(mem[off..off + n]) && hi == MaxOf(mem[off..off + n])
      decreases len - n
    {
      assert mem[off..off + n + 1][..n] == mem[off..off + n];
      if mem[cur] < lo { lo := mem[cur]; }
      if mem[cur] > hi { hi := mem[cur]; }
      cur := Wrap(cur + 1);
      n := n + 1;
    }
    WrapInjective(off, n, len);
  }

  // ---------------------------------------------------------------------------------------------
  // Bitwise folds.
  // ---------------------------------------------------------------------------------------------

  datatype BitOp = Xor | And | Or

  function Identity(op: BitOp): byte { if op == And then 0xFF else 0 }

  function Apply(op: BitOp, a: byte, b: byte): byte {
    match op
    case Xor => a ^ b
    case And => a & b
    case Or => a | b
  }

  function Fold(op: BitOp, s: bytes): byte { if s == [] then Identity(op) else Apply(op, Fold(op, s[..|s| - 1]), s[|s| - 1]) }

  lemma Associative(op: BitOp, a: byte, b: byte, c: byte)
    ensures Apply(op, Apply(op, a, b), c) == Apply(op, a, Apply(op, b, c))
  {
    if op == Xor { assert (a ^ b) ^ c == a ^ (b ^ c); }
    else if op == And { assert (a & b) & c == a & (b & c); }
    else { assert (a | b) | c == a | (b | c); }
  }

  lemma Commutative(op: BitOp, a: byte, b: byte)
    ensures Apply(op, a, b) == Apply(op, b, a)
  {
  }

  /** Four operands regrouped, by associativity and commutativity alone. */
  lemma Exchange(op: BitOp, a: byte, b: byte, c: byte, d: byte)
    ensures Apply(op, Apply(op, a, b), Apply(op, c, d)) == Apply(op, Apply(op, a, c), Apply(op, b, d))
  {
    var f := (x: byte, y: byte) => Apply(op, x, y);
    forall x: byte, y: byte, z: byte ensures f(f(x, y), z) == f(x, f(y, z)) { Associative(op, x, y, z); }
    forall x: byte, y: byte ensures f(x, y) == f(y, x) { Commutative(op, x, y); }
    Regroup(f, a, b, c, d);
  }

  lemma Regroup<T(!new)>(f: (T, T) -> T, a: T, b: T, c: T, d: T)
    requires forall x, y, z :: f(f(x, y), z) == f(x, f(y, z))
    requires forall x, y :: f(x, y) == f(y, x)
    ensures f(f(a, b), f(c, d)) == f(f(a, c), f(b, d))
  {
    assert f(f(a, b), f(c, d)) == f(a, f(b, f(c, d)));
    assert f(b, f(c, d)) == f(f(b, c), d) == f(f(c, b), d) == f(c, f(b, d));
    assert f(a, f(c, f(b, d))) == f(f(a, c), f(b, d));
  }

  lemma IdentityRight(op: BitOp, a: byte)
    ensures Apply(op, a, Identity(op)) == a
  {
  }

  lemma ApplyLaws(op: BitOp, a: byte, b: byte, c: byte, d: byte)
    ensures Apply(op, Apply(op, a, b), c) == Apply(op, a, Apply(op, b, c))
    ensures Apply(op, Apply(op, a, b), Apply(op, c, d)) == Apply(op, Apply(op, a, c), Apply(op, b, d))
    ensures Apply(op, a, Identity(op)) == a
  {
    Associative(op, a, b, c);
    Exchange(op, a, b, c, d);
    IdentityRight(op, a);
  }

  lemma {:induction false} FoldConcat(op: BitOp, a: bytes, b: bytes)
    ensures Fold(op, a + b) == Apply(op, Fold(op, a), Fold(op, b))
  {
    if b == [] {
      assert a + b == a;
      ApplyLaws(op, Fold(op, a), 0, 0, 0);
    } else {
      var n := |b| - 1;
      assert (a + b)[..|a + b| - 1] == a + b[..n];
      FoldConcat(op, a, b[..n]);
      ApplyLaws(op, Fold(op, a), Fold(op, b[..n]), b[n], 0);
    }
  }

  /** A 64-bit lane as its eight bytes, low byte first; the operators work byte by byte. */
  function LaneApply(op: BitOp, a: bytes, b: bytes): (r: bytes)
    requires |a| == |b|
    ensures |r| == |a|
  {
    seq(|a|, i requires 0 <= i < |a| => Apply(op, a[i], b[i]))
  }

  /** Folding two lanes combined is folding both. */
  lemma {:induction false} LaneFold(op: BitOp, a: bytes, b: bytes)
    requires |a| == |b|
    ensures Fold(op, LaneApply(op, a, b)) == Apply(op, Fold(op, a), Fold(op, b))
  {
    if a == [] {
      ApplyLaws(op, Identity(op), 0, 0, 0);
    } else {
      var n := |a| - 1;
      LaneFold(op, a[..n], b[..n]);
      assert LaneApply(op, a, b)[..n] == LaneApply(op, a[..n], b[..n]);
      ApplyLaws(op, Fold(op, a[..n]), Fold(op, b[..n]), a[n], b[n]);
    }
  }

  /** `x >> 8k` of a lane: the low bytes fall away and zeros come in. */
  function ShiftRight(w: bytes, k: nat): (r: bytes)
    requires k <= |w|
    ensures |r| == |w|
  {
    w[k..] + Zeros(k)
  }

  /** The shift ladder: fold the halves, then the quarters, then the last two bytes, and keep the
      low byte. */
  function Ladder(op: BitOp, w: bytes): byte
    requires |w| == 8
  {
    var a := LaneApply(op, w, ShiftRight(w, 4));
    var b := LaneApply(op, a, ShiftRight(a, 2));
    LaneApply(op, b, ShiftRight(b, 1))[0]
  }

  /** One rung: the low half of the result folds what both halves held. */
  lemma Rung(op: BitOp, w: bytes, half: nat)
    requires |w| >= 2 * half
    ensures var r := LaneApply(op, w, ShiftRight(w, half));
      r[..half] == LaneApply(op, w[..half], w[half..2 * half]) && Fold(op, r[..half]) == Fold(op, w[..2 * half])
  {
    var r := LaneApply(op, w, ShiftRight(w, half));
    assert r[..half] == LaneApply(op, w[..half], w[half..2 * half]);
    LaneFold(op, w[..half], w[half..2 * half]);
    FoldConcat(op, w[..half], w[half..2 * half]);
    assert w[..2 * half] == w[..half] + w[half..2 * half];
  }

  /** The ladder folds the eight bytes of its lane, whatever the shifts bring in at the top. */
  lemma LadderFolds(op: BitOp, w: bytes)
    requires |w| == 8
    ensures Ladder(op, w) == Fold(op, w)
  {
    var a := LaneApply(op, w, ShiftRight(w, 4));
    var b := LaneApply(op, a, ShiftRight(a, 2));
    var c := LaneApply(op, b, ShiftRight(b, 1));
    Rung(op, w, 4);
    Rung(op, a, 2);
    Rung(op, b, 1);
    assert w[..8] == w && a[..4][..4] == a[..4];
    FoldOne(op, c[0]);
    assert c[..1] == [c[0]];
  }

  lemma FoldOne(op: BitOp, b: byte)
    ensures Fold(op, [b]) == b
  {
    assert [b][..0] == [];
    ApplyLaws(op, Identity(op), b, b, b);
    IdentityLeft(op, b);
  }

  lemma IdentityLeft(op: BitOp, b: byte)
    ensures Apply(op, Identity(op), b) == b
  {
    match op
    case Xor =>
    case And =>
    case Or =>
  }

  // ---------------------------------------------------------------------------------------------
  // The kernels.
  // ---------------------------------------------------------------------------------------------

  lemma {:induction false} FoldIdentity(op: BitOp, n: nat)
    ensures Fold(op, seq(n, _ => Identity(op))) == Identity(op)
  {
    if n > 0 {
      FoldIdentity(op, n - 1);
      var s: bytes := seq(n, _ => Identity(op));
      assert s[..n - 1] == seq(n - 1, _ => Identity(op));
      IdentityLeft(op, Identity(op));
    }
  }

  /** Sixteen bytes into the two accumulator lanes. */
  method FoldTurn(op: BitOp, mem: bytes, ghost off: u32, ghost n: nat, cur: u32, low: bytes, high: bytes) returns (l: bytes, h: bytes)
    requires cur == off + n && cur + 16 <= |mem| <= TWO_32 && |low| == |high| == 8
    requires Apply(op, Fold(op, low), Fold(op, high)) == Fold(op, mem[off..off + n])
    ensures |l| == |h| == 8 && Apply(op, Fold(op, l), Fold(op, h)) == Fold(op, mem[off..off + n + 16])
  {
    var a, b := mem[cur..cur + 8], mem[cur + 8..cur + 16];
    l, h := LaneApply(op, low, a), LaneApply(op, high, b);
    LaneFold(op, low, a);
    LaneFold(op, high, b);
    assert mem[off..off + n + 16] == mem[off..off + n] + (a + b);
    FoldConcat(op, a, b);
    FoldConcat(op, mem[off..off + n], a + b);
    ApplyLaws(op, Fold(op, low), Fold(op, a), Fold(op, high), Fold(op, b));
  }

  /** Both lanes into one, then the ladder. */
  method Reduce(op: BitOp, low: bytes, high: bytes) returns (b: byte)
    requires |low| == |high| == 8
    ensures b == Apply(op, Fold(op, low), Fold(op, high))
  {
    var both := LaneApply(op, low, high);
    LaneFold(op, low, high);
    LadderFolds(op, both);
    b := Ladder(op, both);
  }

  method SimdFold(op: BitOp, mem: bytes, off: u32, len: u32) returns (b: byte)
    requires off + len <= |mem| <= TWO_32
    ensures b == Fold(op, mem[off..off + len])
  {
    var cur: u32, end: u32, vecEnd: u32 := off, Wrap(off + len), Wrap(off + VecLen(len));
    var low: bytes, high: bytes := seq(8, _ => Identity(op)), seq(8, _ => Identity(op));
    FoldIdentity(op, 8);
    IdentityLeft(op, Identity(op));
    ghost var i := 0;
    assert mem[off..off] == [];
    while cur != vecEnd
      invariant 16 * i <= VecLen(len) && cur == Wrap(off + 16 * i) && |low| == |high| == 8
      invariant Apply(op, Fold(op, low), Fold(op, high)) == Fold(op, mem[off..off + 16 * i])
      decreases len - 16 * i
    {
      VectorTurn(off, len, i);
      low, high := FoldTurn(op, mem, off, 16 * i, cur, low, high);
      cur := Wrap(cur + 16);
      i := i + 1;
    }
    WrapInjective(off, 16 * i, VecLen(len));
    b := Identity(op);
    if op != And || vecEnd != off { b := Reduce(op, low, high); }
    b := FoldTail(op, mem, off, len, VecLen(len), cur, end, b);
  }

  method FoldTail(op: BitOp, mem: bytes, ghost off: u32, ghost len: u32, ghost done: nat, from: u32, end: u32, partial: byte) returns (b: byte)
    requires off + len <= |mem| <= TWO_32 && done <= len && from == Wrap(off + done) && end == Wrap(off + len)
    requires partial == Fold(op, mem[off..off + done])
    ensures b == Fold(op, mem[off..off + len])
  {
    var cur := from;
    ghost var n := done;
    b := partial;
    while cur != end
      invariant n <= len && cur == Wrap(off + n) && b == Fold(op, mem[off..off + n])
      decreases len - n
    {
      assert mem[off..off + n + 1][..n] == mem[off..off + n];
      b := Apply(op, b, mem[cur]);
      cur := Wrap(cur + 1);
      n := n + 1;
    }
    WrapInjective(off, n, len);
  }
}
