/** Integer widths, error values, handles and the byte/sequence vocabulary shared by every module. */
module Core {

  const U16_MAX: int := 0xFFFF
  const U32_MAX: int := 0xFFFF_FFFF
  const TWO_32: int := 0x1_0000_0000

  type u16 = x: int | 0 <= x <= 0xFFFF
  type u32 = x: int | 0 <= x <= 0xFFFF_FFFF
  type byte = bv8
  type bytes = seq<byte>

  datatype Option<+T> = None | Some(value: T)

  datatype TvmError =
    | RegionNotFound(id: u16)
    | StaleHandle
    | OutOfBounds
    | NotResident
    | AllocationFailed
    | BackingStore
    | Pinned
    | UnsupportedAllocator
    | PolicyViolation

  datatype Result<+T> = Ok(value: T) | Err(error: TvmError)

  datatype Handle = Handle(regionId: u16, generation: u16, offset: u32)

  /** A run of `size` bytes starting at `off`. */
  datatype Block = Block(off: u32, size: u32) {
    function End(): int { off + size }
    predicate Covers(p: int) { off <= p < End() }
  }

  /** Sum of the sizes of a list of blocks. */
  function TotalSize(blocks: seq<Block>): nat {
    if blocks == [] then 0 else blocks[0].size + TotalSize(blocks[1..])
  }

  lemma {:induction false} TotalSizeAppend(a: seq<Block>, b: seq<Block>)
    ensures TotalSize(a + b) == TotalSize(a) + TotalSize(b)
  {
    if a == [] {
      assert a + b == b;
    } else {
      assert (a + b)[1..] == a[1..] + b;
      TotalSizeAppend(a[1..], b);
    }
  }

  /** The `n` bytes of `mem` from `at` on. */
  function Slice(mem: bytes, at: int, n: nat): (r: bytes)
    requires 0 <= at && at + n <= |mem|
    ensures |r| == n
  {
    mem[at..at + n]
  }

  /** `data` written over `mem` at `at`. */
  function Splice(mem: bytes, at: nat, data: bytes): (r: bytes)
    requires at + |data| <= |mem|
    ensures |r| == |mem|
    ensures forall i :: 0 <= i < |mem| ==> r[i] == if at <= i < at + |data| then data[i - at] else mem[i]
  {
    mem[..at] + data + mem[at + |data|..]
  }

  function Zeros(n: nat): (r: bytes)
    ensures |r| == n && forall i :: 0 <= i < n ==> r[i] == 0
  {
    seq(n, _ => 0 as byte)
  }

  /** The generation that follows `g`: sixteen-bit wrap-around that skips 0. */
  function NextGeneration(g: u16): (r: u16)
  {
    var next := (g + 1) % 0x10000;
    if next == 0 then 1 else next
  }
}
