/** The block pipeline that the kajar and openct loaders share, character for character:
    `decompress` (one `inflateInit2_` and one `inflate(Z_FINISH)` through libz), `get_u32_le`,
    and the two reads built from them, the compressed directory and each entry's block. Both
    crates carry their own copy of `decode`, `decompress` and `get_u32_le`; the copies are
    identical, so they are modelled once here. */
module Blocks {
  import opened Bytes
  import Keystream
  import Layout

  const Z_OK: int := 0
  const Z_STREAM_END: int := 1

  /** What libz reports for one decompression: the code of `inflateInit2_`, the code of
      `inflate(.., Z_FINISH)`, and the bytes it wrote into the output buffer. */
  datatype Inflation = Inflation(init: int, finish: int, written: seq<byte>)

  /** libz itself, given the compressed bytes and the size of the output buffer. It is foreign
      code, so the model takes it as a parameter. */
  type Libz = (seq<byte>, nat) -> Inflation

  /** Why a block could not be produced: a short `read_exact`, or a libz code. */
  datatype Fault = Short | Decmp(code: int)

  /** The output buffer `vec![0; n]` after libz wrote `written` into its front (libz never writes
      past `avail_out`, so anything beyond `n` is not kept). */
  function Filled(written: seq<byte>, n: nat): (out: seq<byte>)
    ensures |out| == n
    ensures forall i :: 0 <= i < n ==> out[i] == if i < |written| then written[i] else 0
  {
    seq(n, i requires 0 <= i < n => if i < |written| then written[i] else 0)
  }

  /** `decompress(data, dcmp_size)`: a failed initialisation reports its own code, otherwise an
      `inflate` that does not end the stream reports its code; on success the buffer has exactly
      `dcmp_size` bytes, zero past whatever libz wrote. */
  function Decompress(libz: Libz, data: seq<byte>, n: nat): (r: Run<seq<byte>, Fault>)
    ensures !r.Panicked?
    ensures r.Ok? <==> libz(data, n).init == Z_OK && libz(data, n).finish == Z_STREAM_END
    ensures r.Ok? ==> |r.value| == n
    ensures r.Err? ==> r.error == Decmp(if libz(data, n).init != Z_OK then libz(data, n).init else libz(data, n).finish)
  {
    var z := libz(data, n);
    if z.init != Z_OK then Err(Decmp(z.init))
    else if z.finish != Z_STREAM_END then Err(Decmp(z.finish))
    else Ok(Filled(z.written, n))
  }

  /** When libz ends the stream early the missing bytes stay zero; when it writes the whole
      buffer the result is exactly what it wrote. */
  lemma DecompressFill(libz: Libz, data: seq<byte>, n: nat)
    requires Decompress(libz, data, n).Ok?
    ensures |libz(data, n).written| >= n ==> Decompress(libz, data, n).value == libz(data, n).written[..n]
    ensures forall i :: |libz(data, n).written| <= i < n ==> Decompress(libz, data, n).value[i] == 0
  {
  }

  /** `get_u32_le(buf)`: `u32::from_le_bytes([buf[3], buf[2], buf[1], buf[0]])`, which makes
      `buf[0]` the most significant byte; fewer than four bytes is an index panic. */
  function GetU32Le<E>(buf: seq<byte>): (r: Run<u32, E>)
    ensures r.Ok? <==> |buf| >= 4
    ensures !r.Err?
    ensures r.Ok? ==> r.value == FromLeBytes([buf[3], buf[2], buf[1], buf[0]])
    ensures r.Panicked? ==> r.kind == IndexOutOfRange
  {
    if |buf| < 4 then Panicked(IndexOutOfRange)
    else Ok(FromBeBytes(buf[..4]))
  }

  /** Despite its name, `get_u32_le` reads the little-endian value only when its four bytes read
      the same backwards. */
  lemma GetU32LeIsBigEndian<E>(buf: seq<byte>)
    requires |buf| >= 4
    ensures GetU32Le<E>(buf).value == FromLeBytes(buf[..4]) <==> buf[0] == buf[3] && buf[1] == buf[2]
  {
    var rev := [buf[3], buf[2], buf[1], buf[0]];
    if GetU32Le<E>(buf).value == FromLeBytes(buf[..4]) {
      FromLeBytesInjective(rev, buf[..4]);
      assert rev[0] == buf[..4][0] && rev[1] == buf[..4][1];
    } else {
      assert rev != buf[..4];
    }
  }

  /** The compressed directory: `header.cmp_size` bytes read at `header.offs`, the keystream
      seeded with `header.offs` removed, then inflated from byte 4 into `header.size` bytes. */
  function DirectorySegment(libz: Libz, file: seq<byte>, hd: Layout.Header): (r: Run<seq<byte>, Fault>)
    ensures r.Err? && r.error == Short <==> ReadExact(file, hd.offs, hd.cmpSize).None?
    ensures r.Panicked? <==> ReadExact(file, hd.offs, hd.cmpSize).Some? && (!Keystream.SeedFits(hd.offs) || hd.cmpSize < 4)
    ensures r.Ok? ==> |r.value| == hd.size
  {
    match ReadExact(file, hd.offs, hd.cmpSize)
    case None => Err(Short)
    case Some(cmp) =>
      if !Keystream.SeedFits(hd.offs) then Panicked(AddOverflow)
      else
        var d := Keystream.Decode(hd.offs, cmp);
        if |d| < 4 then Panicked(IndexOutOfRange)
        else Decompress(libz, d[4..], hd.size)
  }

  /** One entry's block: `size` bytes read at `data_offs`, the keystream seeded with `data_offs`
      removed, the declared inflated size taken from its first four bytes with `get_u32_le`, the
      rest inflated. */
  function EntryBlock(libz: Libz, file: seq<byte>, ent: Layout.ResEntry): (r: Run<seq<byte>, Fault>)
    ensures r.Err? && r.error == Short <==> ReadExact(file, ent.dataOffs, ent.size).None?
    ensures r.Panicked? <==> ReadExact(file, ent.dataOffs, ent.size).Some? && (!Keystream.SeedFits(ent.dataOffs) || ent.size < 4)
    ensures r.Ok? ==>
      var d := Keystream.Decode(ent.dataOffs, file[ent.dataOffs..ent.dataOffs + ent.size]);
      |r.value| == GetU32Le<Fault>(d).value
  {
    match ReadExact(file, ent.dataOffs, ent.size)
    case None => Err(Short)
    case Some(c) =>
      if !Keystream.SeedFits(ent.dataOffs) then Panicked(AddOverflow)
      else
        var d := Keystream.Decode(ent.dataOffs, c);
        var size := GetU32Le<Fault>(d);
        if !size.Ok? then Panicked(IndexOutOfRange)
        else Decompress(libz, d[4..], size.value)
  }

  /** `vec![0; n]` filled by `set_position(at)` and `read_exact`. */
  method ReadInto(file: seq<byte>, at: nat, n: nat) returns (buf: array<byte>, ok: bool)
    ensures fresh(buf) && buf.Length == n
    ensures ok <==> ReadExact(file, at, n).Some?
    ensures ok ==> buf[..] == ReadExact(file, at, n).value
  {
    buf := new byte[n](_ => 0);
    if n > 0 && at + n > |file| {
      return buf, false;
    }
    forall i | 0 <= i < n {
      buf[i] := file[at + i];
    }
    ok := true;
    assert n > 0 ==> buf[..] == file[at..at + n];
  }

  /** Why the directory table could not be read: its segment failed, or a record was cut short. */
  datatype DirFault = Segment(fault: Fault) | RecordShort

  /** The directory table as both loaders read it: the inflated segment, its little-endian count
      (`bytes::Buf::get_u32_le`, which panics with fewer than four bytes left) and that many
      12-byte records read from a cursor just past the count. */
  function Directory(libz: Libz, file: seq<byte>, hd: Layout.Header): (r: Run<(seq<byte>, seq<Layout.ResEntry>), DirFault>)
  {
    var seg := DirectorySegment(libz, file, hd);
    if seg.Err? then Err(Segment(seg.error))
    else if seg.Panicked? then Panicked(seg.kind)
    else if |seg.value| < 4 then Panicked(BufferUnderflow)
    else match Layout.Records(seg.value, Layout.WordAt(seg.value, 0))
      case None => Err(RecordShort)
      case Some(ents) => Ok((seg.value, ents))
  }

  /** The table holds every record of the segment verbatim and in stored order, as many as the
      count says; a segment too short for them is `RecordShort`, one too short for the count
      panics. */
  lemma DirectoryRecords(libz: Libz, file: seq<byte>, hd: Layout.Header)
    ensures var d := Directory(libz, file, hd);
      var seg := DirectorySegment(libz, file, hd);
      && (d.Ok? ==>
            seg.Ok? && d.value.0 == seg.value && |seg.value| >= 4 &&
            |d.value.1| == Layout.WordAt(seg.value, 0) && 4 + 12 * |d.value.1| <= |seg.value| &&
            forall i :: 0 <= i < |d.value.1| ==> d.value.1[i] == Layout.RecordAt(seg.value, i))
      && (d == Err(RecordShort) <==>
            seg.Ok? && |seg.value| >= 4 && |seg.value| < 4 + 12 * Layout.WordAt(seg.value, 0))
      && (d.Panicked? <==> seg.Panicked? || (seg.Ok? && |seg.value| < 4))
      && (d.Err? && d.error.Segment? <==> seg.Err?)
  {
  }

  /** The header read of both loaders: 16 bytes into a zeroed record, `decode`d in place with
      offset 0; `None` is the short read. */
  method ReadHeaderRecord(file: seq<byte>) returns (h: Option<Layout.Header>)
    ensures h == Layout.ReadHeader(file)
  {
    var raw, ok := ReadInto(file, 0, Layout.HEADER_SIZE);
    if !ok {
      return None;
    }
    Keystream.DecodeInPlace(0, raw);
    return Some(Layout.HeaderOf(raw[..]));
  }

  /** The directory part of `load`: the segment, the count, the record loop. */
  method ReadDirectoryRecords(libz: Libz, file: seq<byte>, hd: Layout.Header)
    returns (r: Run<(seq<byte>, seq<Layout.ResEntry>), DirFault>)
    ensures r == Directory(libz, file, hd)
  {
    var seg := ReadDirectory(libz, file, hd);
    if seg.Err? {
      return Err(Segment(seg.error));
    }
    if seg.Panicked? {
      return Panicked(seg.kind);
    }
    var dcmp := seg.value;
    if |dcmp| < 4 {
      return Panicked(BufferUnderflow);
    }
    var ents := Layout.ReadRecords(dcmp, Layout.WordAt(dcmp, 0));
    if ents.None? {
      return Err(RecordShort);
    }
    return Ok((dcmp, ents.value));
  }

  /** The directory read of `load`: read into a buffer, `decode` it in place, inflate `cmp[4..]`. */
  method ReadDirectory(libz: Libz, file: seq<byte>, hd: Layout.Header) returns (r: Run<seq<byte>, Fault>)
    ensures r == DirectorySegment(libz, file, hd)
  {
    var cmp, ok := ReadInto(file, hd.offs, hd.cmpSize);
    if !ok {
      return Err(Short);
    }
    if !Keystream.SeedFits(hd.offs) {
      return Panicked(AddOverflow);
    }
    Keystream.DecodeInPlace(hd.offs, cmp);
    if cmp.Length < 4 {
      return Panicked(IndexOutOfRange);
    }
    r := Decompress(libz, cmp[4..], hd.size);
  }

  /** The block read of one entry in `load`: read into a buffer, `decode` it in place with the
      entry's offset, size it with `get_u32_le`, inflate `cdata[4..]`. */
  method ReadEntryBlock(libz: Libz, file: seq<byte>, ent: Layout.ResEntry) returns (r: Run<seq<byte>, Fault>)
    ensures r == EntryBlock(libz, file, ent)
  {
    var cdata, ok := ReadInto(file, ent.dataOffs, ent.size);
    if !ok {
      return Err(Short);
    }
    if !Keystream.SeedFits(ent.dataOffs) {
      return Panicked(AddOverflow);
    }
    Keystream.DecodeInPlace(ent.dataOffs, cdata);
    var size := GetU32Le<Fault>(cdata[..]);
    if !size.Ok? {
      return Panicked(IndexOutOfRange);
    }
    r := Decompress(libz, cdata[4..], size.value);
  }
}
