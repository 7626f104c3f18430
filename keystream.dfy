/** The offset-seeded XOR keystream (`decode`) that every ResBin loader removes from the
    header, the compressed directory and each entry's block. */
module Keystream {
  import opened Bytes

  const SEED_BASE: int := 0x1900_0000
  const MULTIPLIER: int := 0x41C6_4E6D
  const INCREMENT: int := 12345

  /** One generator step: `seed.wrapping_mul(0x41C64E6D).wrapping_add(12345)`. */
  function Step(seed: u32): (r: u32)
  {
    ((seed * 0x41C6_4E6D) % 0x1_0000_0000 + 12345) % 0x1_0000_0000
  }

  /** The seed after `k` steps. */
  function SeedAfter(seed: u32, k: nat): (r: u32)
  {
    if k == 0 then seed else Step(SeedAfter(seed, k - 1))
  }

  /** `seed >> 24`: bits 31..24 of the seed. */
  function HighByte(seed: u32): (r: byte)
  {
    (seed / 0x100_0000) as byte
  }

  /** The unchecked `0x19000000 + offs` does not overflow `u32`. */
  predicate SeedFits(offs: u32)
  {
    SEED_BASE + offs < U32_LIMIT
  }

  /** The `n` key bytes a region's keystream produces from `seed`: step, then take the high byte. */
  function KeyStream(seed: u32, n: nat): (ks: seq<byte>)
    ensures |ks| == n
    decreases n
  {
    if n == 0 then []
    else
      var next := Step(seed);
      [HighByte(next)] + KeyStream(next, n - 1)
  }

  /** Byte-wise XOR of a region with its key bytes. */
  function XorBytes(data: seq<byte>, ks: seq<byte>): (r: seq<byte>)
    requires |ks| == |data|
  {
    seq(|data|, i requires 0 <= i < |data| => Xor(data[i], ks[i]))
  }

  /** Removing the keystream that starts at `seed` from `data`. */
  function DecodeFrom(seed: u32, data: seq<byte>): (r: seq<byte>)
  {
    XorBytes(data, KeyStream(seed, |data|))
  }

  /** `decode(offs, data)`: the keystream of a region is seeded from the region's own offset. */
  function Decode(offs: u32, data: seq<byte>): (r: seq<byte>)
    requires SeedFits(offs)
  {
    DecodeFrom(SEED_BASE + offs, data)
  }

  /** Stepping once and then `k` times is stepping `k + 1` times. */
  lemma {:induction false} SeedAfterShift(seed: u32, k: nat)
    ensures SeedAfter(Step(seed), k) == SeedAfter(seed, k + 1)
  {
    if k > 0 {
      SeedAfterShift(seed, k - 1);
    }
  }

  /** Key byte `i` is the high byte of the seed after `i + 1` steps. */
  lemma {:induction false} KeyStreamAt(seed: u32, n: nat, i: nat)
    requires i < n
    ensures KeyStream(seed, n)[i] == HighByte(SeedAfter(seed, i + 1))
    decreases i
  {
    if i > 0 {
      KeyStreamAt(Step(seed), n - 1, i - 1);
      SeedAfterShift(seed, i);
    }
  }

  /** The key bytes do not depend on the length of the region: a shorter region gets a prefix. */
  lemma {:induction false} KeyStreamPrefix(seed: u32, n: nat, k: nat)
    requires k <= n
    ensures KeyStream(seed, n)[..k] == KeyStream(seed, k)
    decreases k
  {
    if k > 0 {
      KeyStreamPrefix(Step(seed), n - 1, k - 1);
    }
  }

  /** `decode` preserves length and is an involution for a fixed offset. */
  lemma DecodeInvolution(offs: u32, data: seq<byte>)
    requires SeedFits(offs)
    ensures |Decode(offs, data)| == |data|
    ensures Decode(offs, Decode(offs, data)) == data
  {
    var ks := KeyStream(SEED_BASE + offs, |data|);
    var once := Decode(offs, data);
    assert |once| == |data|;
    forall i | 0 <= i < |data|
      ensures Decode(offs, once)[i] == data[i]
    {
      XorTwice(data[i], ks[i]);
    }
  }

  /** Decoding a prefix of a region gives the prefix of the decoded region. */
  lemma DecodePrefix(offs: u32, data: seq<byte>, k: nat)
    requires SeedFits(offs) && k <= |data|
    ensures Decode(offs, data)[..k] == Decode(offs, data[..k])
  {
    KeyStreamPrefix(SEED_BASE + offs, |data|, k);
  }

  /** `decode` over a mutable slice, one byte at a time with a running seed. */
  method DecodeInPlace(offs: u32, data: array<byte>)
    requires SeedFits(offs)
    modifies data
    ensures data[..] == Decode(offs, old(data[..]))
  {
    ghost var input := data[..];
    ghost var ks := KeyStream(SEED_BASE + offs, data.Length);
    var seed: u32 := SEED_BASE + offs;
    var i := 0;
    while i < data.Length
      invariant 0 <= i <= data.Length
      invariant seed == SeedAfter(SEED_BASE + offs, i)
      invariant forall j :: 0 <= j < i ==> data[j] == Xor(input[j], ks[j])
      invariant forall j :: i <= j < data.Length ==> data[j] == input[j]
    {
      KeyStreamAt(SEED_BASE + offs, data.Length, i);
      seed := Step(seed);
      data[i] := Xor(data[i], HighByte(seed));
      i := i + 1;
    }
  }
}
