/** The fixed layouts of `resources.bin`, shared by every loader: the 16-byte header (four
    little-endian `u32`s: signature, directory size, directory offset, compressed directory size)
    and the directory segment (a little-endian `u32` count followed by packed 12-byte records).
    The loaders cast these with `bytemuck`, which on a little-endian host is the little-endian
    reading written out here. */
module Layout {
  import opened Bytes
  import Util
  import Keystream

  datatype Header = Header(sig: u32, size: u32, offs: u32, cmpSize: u32)

  datatype ResEntry = ResEntry(pathOffs: u32, dataOffs: u32, size: u32)

  const HEADER_SIZE: nat := 16
  const RECORD_SIZE: nat := 12

  /** The byte string `b"ARC1"`. */
  const ARC1: seq<byte> := [0x41, 0x52, 0x43, 0x31]

  /** The little-endian `u32` at `at`. */
  function WordAt(b: seq<byte>, at: nat): (r: u32)
    requires at + 4 <= |b|
  {
    FromLeBytes(b[at..at + 4])
  }

  /** The four little-endian bytes of `x`. */
  function ToLeBytes(x: u32): (b: seq<byte>)
    ensures |b| == 4
  {
    [(x % 0x100) as byte, (x / 0x100 % 0x100) as byte, (x / 0x100 / 0x100 % 0x100) as byte, (x / 0x100 / 0x100 / 0x100) as byte]
  }

  /** A `u32` written little-endian reads back as itself. */
  lemma LeBytesRoundTrip(x: u32)
    ensures FromLeBytes(ToLeBytes(x)) == x
  {
    var y := x / 0x100;
    var z := y / 0x100;
    SplitLowByte(z % 0x100, z / 0x100);
    SplitLowByte(y % 0x100, z);
    SplitLowByte(x % 0x100, y);
  }

  /** The header record cast from 16 bytes. */
  function HeaderOf(h: seq<byte>): (r: Header)
    requires |h| == HEADER_SIZE
  {
    Header(WordAt(h, 0), WordAt(h, 4), WordAt(h, 8), WordAt(h, 12))
  }

  /** The 16 bytes of a header record. */
  function HeaderBytes(hd: Header): (h: seq<byte>)
    ensures |h| == HEADER_SIZE
  {
    ToLeBytes(hd.sig) + ToLeBytes(hd.size) + ToLeBytes(hd.offs) + ToLeBytes(hd.cmpSize)
  }

  /** Casting the bytes of a header back gives the same header. */
  lemma HeaderRoundTrip(hd: Header)
    ensures HeaderOf(HeaderBytes(hd)) == hd
  {
    var h := HeaderBytes(hd);
    assert h[0..4] == ToLeBytes(hd.sig);
    assert h[4..8] == ToLeBytes(hd.size);
    assert h[8..12] == ToLeBytes(hd.offs);
    assert h[12..16] == ToLeBytes(hd.cmpSize);
    LeBytesRoundTrip(hd.sig);
    LeBytesRoundTrip(hd.size);
    LeBytesRoundTrip(hd.offs);
    LeBytesRoundTrip(hd.cmpSize);
  }

  /** The cast keeps every header byte: different bytes give different headers. */
  lemma HeaderOfInjective(a: seq<byte>, b: seq<byte>)
    requires |a| == HEADER_SIZE && |b| == HEADER_SIZE
    requires HeaderOf(a) == HeaderOf(b)
    ensures a == b
  {
    forall k | 0 <= k < 4
      ensures a[4 * k..4 * k + 4] == b[4 * k..4 * k + 4]
    {
      var ha, hb := HeaderOf(a), HeaderOf(b);
      assert WordAt(a, 4 * k) == WordAt(b, 4 * k) by {
        if k == 0 {
          assert ha.sig == hb.sig;
        } else if k == 1 {
          assert ha.size == hb.size;
        } else if k == 2 {
          assert ha.offs == hb.offs;
        } else {
          assert ha.cmpSize == hb.cmpSize;
        }
      }
      FromLeBytesInjective(a[4 * k..4 * k + 4], b[4 * k..4 * k + 4]);
    }
    forall i | 0 <= i < HEADER_SIZE
      ensures a[i] == b[i]
    {
      var k := i / 4;
      assert a[i] == a[4 * k..4 * k + 4][i - 4 * k];
      assert b[i] == b[4 * k..4 * k + 4][i - 4 * k];
    }
  }

  /** `header.sig == tag!(b"ARC1")`. */
  predicate SignatureOk(hd: Header)
  {
    hd.sig == Util.Tag(ARC1)
  }

  /** The signature check passes exactly when the first four header bytes spell `ARC1`. */
  lemma SignatureBytes(h: seq<byte>)
    requires |h| == HEADER_SIZE
    ensures SignatureOk(HeaderOf(h)) <==> h[..4] == ARC1
  {
    assert ARC1[..4] == ARC1;
    assert h[0..4] == h[..4];
    if SignatureOk(HeaderOf(h)) {
      FromLeBytesInjective(h[..4], ARC1);
    }
  }

  /** Reading the 16 header bytes at the start of the container and removing the keystream
      seeded with offset 0; `None` is the short read. */
  function ReadHeader(file: seq<byte>): (r: Option<Header>)
    ensures r.Some? <==> |file| >= HEADER_SIZE
    ensures r.Some? ==> HeaderBytes(r.value) == Keystream.Decode(0, file[..HEADER_SIZE])
  {
    match ReadExact(file, 0, HEADER_SIZE)
    case None => None
    case Some(raw) =>
      var h := Keystream.Decode(0, raw);
      Keystream.DecodeInvolution(0, raw);
      HeaderRoundTrip(HeaderOf(h));
      HeaderOfInjective(HeaderBytes(HeaderOf(h)), h);
      Some(HeaderOf(h))
  }

  /** The record cast from 12 bytes. */
  function EntryOf(r: seq<byte>): (e: ResEntry)
    requires |r| == RECORD_SIZE
  {
    ResEntry(WordAt(r, 0), WordAt(r, 4), WordAt(r, 8))
  }

  /** The 12 bytes of a record. */
  function EntryBytes(e: ResEntry): (r: seq<byte>)
    ensures |r| == RECORD_SIZE
  {
    ToLeBytes(e.pathOffs) + ToLeBytes(e.dataOffs) + ToLeBytes(e.size)
  }

  /** Casting the bytes of a record back gives the same record. */
  lemma EntryRoundTrip(e: ResEntry)
    ensures EntryOf(EntryBytes(e)) == e
  {
    var r := EntryBytes(e);
    assert r[0..4] == ToLeBytes(e.pathOffs);
    assert r[4..8] == ToLeBytes(e.dataOffs);
    assert r[8..12] == ToLeBytes(e.size);
    LeBytesRoundTrip(e.pathOffs);
    LeBytesRoundTrip(e.dataOffs);
    LeBytesRoundTrip(e.size);
  }

  /** Record `i` of a directory segment: the 12 bytes at `4 + 12 * i`. */
  function RecordAt(seg: seq<byte>, i: nat): (r: ResEntry)
    requires 4 + 12 * i + 12 <= |seg|
  {
    EntryOf(seg[4 + 12 * i..4 + 12 * i + 12])
  }

  /** The records of a directory segment with `n` entries, in stored order. `None` is the short
      read of any of them. */
  function Records(seg: seq<byte>, n: nat): (r: Option<seq<ResEntry>>)
  {
    if 4 + 12 * n <= |seg| then Some(seq(n, i requires 0 <= i < n => RecordAt(seg, i)))
    else None
  }

  /** The bytes of a directory segment holding `es`: the count, then the records in order. */
  function SegmentBytes(es: seq<ResEntry>): (seg: seq<byte>)
    requires |es| < U32_LIMIT
    ensures |seg| == 4 + 12 * |es|
  {
    ToLeBytes(|es|) + RecordBytes(es)
  }

  function RecordBytes(es: seq<ResEntry>): (b: seq<byte>)
    ensures |b| == 12 * |es|
  {
    if es == [] then [] else RecordBytes(es[..|es| - 1]) + EntryBytes(es[|es| - 1])
  }

  /** Record `i` of the packed bytes sits at `12 * i`. */
  lemma {:induction false} RecordBytesAt(es: seq<ResEntry>, i: nat)
    requires i < |es|
    ensures RecordBytes(es)[12 * i..12 * i + 12] == EntryBytes(es[i])
    decreases |es|
  {
    var init := es[..|es| - 1];
    var front := RecordBytes(init);
    var all := RecordBytes(es);
    assert all == front + EntryBytes(es[|es| - 1]);
    if i < |init| {
      RecordBytesAt(init, i);
      assert all[12 * i..12 * i + 12] == front[12 * i..12 * i + 12];
      assert init[i] == es[i];
    } else {
      assert all[12 * i..12 * i + 12] == all[|front|..];
    }
  }

  /** Reading back a written directory segment gives its count and its records, in order. */
  lemma SegmentRoundTrip(es: seq<ResEntry>)
    requires |es| < U32_LIMIT
    ensures WordAt(SegmentBytes(es), 0) == |es|
    ensures Records(SegmentBytes(es), |es|) == Some(es)
  {
    var seg := SegmentBytes(es);
    assert seg[0..4] == ToLeBytes(|es|);
    LeBytesRoundTrip(|es|);
    var r := seq(|es|, i requires 0 <= i < |es| => RecordAt(seg, i));
    forall i | 0 <= i < |es|
      ensures r[i] == es[i]
    {
      SegmentRecordAt(es, i);
    }
    assert r == es;
  }

  lemma SegmentRecordAt(es: seq<ResEntry>, i: nat)
    requires |es| < U32_LIMIT && i < |es|
    ensures RecordAt(SegmentBytes(es), i) == es[i]
  {
    var seg := SegmentBytes(es);
    var rb := RecordBytes(es);
    assert seg == ToLeBytes(|es|) + rb;
    RecordBytesAt(es, i);
    assert seg[4 + 12 * i..4 + 12 * i + 12] == rb[12 * i..12 * i + 12];
    EntryRoundTrip(es[i]);
  }

  /** The directory loop: one 12-byte `read_exact` per record into a table of `n` zeroed records,
      in stored order; the first short read ends it. */
  method ReadRecords(seg: seq<byte>, n: nat) returns (r: Option<seq<ResEntry>>)
    requires |seg| >= 4
    ensures r.Some? <==> 4 + 12 * n <= |seg|
    ensures r == Records(seg, n)
  {
    var entdata := new ResEntry[n](_ => ResEntry(0, 0, 0));
    var pos := 4;
    for i := 0 to n
      invariant pos == 4 + 12 * i <= |seg|
      invariant forall j :: 0 <= j < i ==> 4 + 12 * j + 12 <= |seg| && entdata[j] == RecordAt(seg, j)
    {
      if pos + 12 > |seg| {
        return None;
      }
      entdata[i] := RecordAt(seg, i);
      pos := pos + 12;
    }
    r := Some(entdata[..]);
    assert entdata[..] == Records(seg, n).value;
  }
}
