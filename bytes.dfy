/** Byte-level vocabulary shared by the ResBin loaders and the Python cross-check:
    bytes, 32-bit unsigned values, the outcome of a Rust call (including panics),
    fixed-width integer packing and the semantics of `Cursor::read_exact`. */
module Bytes {

  /** An 8-bit byte, kept as its value. */
  newtype byte = x: int | 0 <= x < 0x100

  const U32_LIMIT: int := 0x1_0000_0000

  /** A Rust `u32`, kept as a mathematical integer; wrap-around is written out where the source wraps. */
  type u32 = x: int | 0 <= x < U32_LIMIT

  datatype Option<+T> = None | Some(value: T)

  /** Why a Rust function stops by panicking instead of returning. */
  datatype PanicKind =
    | IndexOutOfRange   // `buf[i]` or `buf[i..]` past the end of a slice
    | BufferUnderflow   // `bytes::Buf::get_u8` / `get_u32_le` with too few bytes remaining
    | AddOverflow       // `0x19000000 + offs` overflowing `u32` (debug build)
    | LengthMismatch    // a slice converted into an 8-byte block that is not 8 bytes long

  /** The outcome of a Rust call: `Ok`, `Err` of the function's error type, or a panic. */
  datatype Run<+T, +E> = Ok(value: T) | Err(error: E) | Panicked(kind: PanicKind)
  {
    predicate IsFailure() { !Ok? }

    function PropagateFailure<U>(): (r: Run<U, E>)
      requires !Ok?
    {
      if Err? then Err(error) else Panicked(kind)
    }

    function Extract(): (r: T)
      requires Ok?
    {
      value
    }
  }

  /** Four base-256 digits, least significant first. */
  function Pack(d0: int, d1: int, d2: int, d3: int): (r: u32)
    requires 0 <= d0 < 0x100 && 0 <= d1 < 0x100 && 0 <= d2 < 0x100 && 0 <= d3 < 0x100
  {
    d0 + 0x100 * (d1 + 0x100 * (d2 + 0x100 * d3))
  }

  /** `u32::from_le_bytes`: the first byte is the least significant. */
  function FromLeBytes(b: seq<byte>): (r: u32)
    requires |b| == 4
  {
    Pack(b[0] as int, b[1] as int, b[2] as int, b[3] as int)
  }

  /** `u32::from_be_bytes`: the first byte is the most significant. */
  function FromBeBytes(b: seq<byte>): (r: u32)
    requires |b| == 4
  {
    Pack(b[3] as int, b[2] as int, b[1] as int, b[0] as int)
  }

  /** Splitting `lo + 0x100 * hi` back into its low byte and the rest. */
  lemma SplitLowByte(lo: int, hi: int)
    requires 0 <= lo < 0x100 && 0 <= hi
    ensures (lo + 0x100 * hi) % 0x100 == lo && (lo + 0x100 * hi) / 0x100 == hi
  {
  }

  /** Each digit of a packed value can be read back from it. */
  lemma PackDigits(d0: int, d1: int, d2: int, d3: int)
    requires 0 <= d0 < 0x100 && 0 <= d1 < 0x100 && 0 <= d2 < 0x100 && 0 <= d3 < 0x100
    ensures d0 == Pack(d0, d1, d2, d3) % 0x100
    ensures d1 == Pack(d0, d1, d2, d3) / 0x100 % 0x100
    ensures d2 == Pack(d0, d1, d2, d3) / 0x100 / 0x100 % 0x100
    ensures d3 == Pack(d0, d1, d2, d3) / 0x100 / 0x100 / 0x100
  {
    var y := d2 + 0x100 * d3;
    var x := d1 + 0x100 * y;
    SplitLowByte(d0, x);
    SplitLowByte(d1, y);
    SplitLowByte(d2, d3);
  }

  /** Four bytes are determined by their little-endian value. */
  lemma FromLeBytesInjective(a: seq<byte>, b: seq<byte>)
    requires |a| == 4 && |b| == 4
    requires FromLeBytes(a) == FromLeBytes(b)
    ensures a == b
  {
    var v := FromLeBytes(a);
    assert v == Pack(a[0] as int, a[1] as int, a[2] as int, a[3] as int);
    assert v == Pack(b[0] as int, b[1] as int, b[2] as int, b[3] as int);
    PackDigits(a[0] as int, a[1] as int, a[2] as int, a[3] as int);
    PackDigits(b[0] as int, b[1] as int, b[2] as int, b[3] as int);
  }

  function Pow2(k: nat): (p: nat)
    ensures p >= 1
  {
    if k == 0 then 1 else 2 * Pow2(k - 1)
  }

  /** Bitwise exclusive or of the low `k` bits of `a` and `b`, least significant bit first. */
  function XorBits(a: nat, b: nat, k: nat): (r: nat)
    ensures r < Pow2(k)
  {
    if k == 0 then 0
    else (if a % 2 == b % 2 then 0 else 1) + 2 * XorBits(a / 2, b / 2, k - 1)
  }

  /** `a ^ b` on `u8`. */
  function Xor(a: byte, b: byte): (r: byte)
  {
    assert Pow2(8) == 0x100;
    XorBits(a as nat, b as nat, 8) as byte
  }

  /** Exclusive or with the same bits twice gives back the first operand. */
  lemma {:induction false} XorBitsTwice(a: nat, b: nat, k: nat)
    requires a < Pow2(k)
    ensures XorBits(XorBits(a, b, k), b, k) == a
  {
    if k > 0 {
      var x := XorBits(a / 2, b / 2, k - 1);
      var c := XorBits(a, b, k);
      assert c % 2 == (if a % 2 == b % 2 then 0 else 1) && c / 2 == x;
      XorBitsTwice(a / 2, b / 2, k - 1);
    }
  }

  /** XOR with the same key byte twice cancels. */
  lemma XorTwice(b: byte, k: byte)
    ensures Xor(Xor(b, k), k) == b
  {
    assert Pow2(8) == 0x100;
    XorBitsTwice(b as nat, k as nat, 8);
  }

  /** `Cursor::set_position(pos)` followed by `read_exact` into an `n`-byte buffer:
      an empty read always succeeds, even with the cursor past the end. */
  function ReadExact(buf: seq<byte>, pos: nat, n: nat): (r: Option<seq<byte>>)
  {
    if n == 0 then Some([])
    else if pos + n <= |buf| then Some(buf[pos..pos + n])
    else None
  }

  /** `b as char`: a byte becomes the character with the same code point. */
  function ByteChar(b: byte): (r: char)
  {
    (b as int) as char
  }
}
