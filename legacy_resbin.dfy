/** The older, crate-less `resources.bin` loader (`src/resbin.rs`). It reads the same header and
    directory table as the crate loaders, with two differences. The compressed directory is
    inflated as raw DEFLATE by flate2's `DeflateDecoder` rather than through libz. Each entry's
    bytes are copied out of the inflated directory itself, without being decoded or inflated. */
module LegacyResBin {
  import opened Bytes
  import Util
  import Keystream
  import Layout
  import Blocks
  import Insertion

  /** `ResBinErr` of this loader. */
  datatype ResBinErr =
    | CmpRead(Util.IoError)
    | EntryDataRead(string, Util.IoError)
    | EntryRead(Util.IoError)
    | HeaderMismatch(sig: u32)
    | HeaderRead(Util.IoError)
    | Inflate(reason: Util.IoError)
    | PathName(Layout.ResEntry)

  /** What `new` produces: the header, the directory records, and the entries by path. */
  datatype ResBin = ResBin(header: Layout.Header, entdata: seq<Layout.ResEntry>, entries: map<string, seq<byte>>)

  /** What flate2's raw DEFLATE decoder makes of its input: the bytes it yields before the stream
      ends or is found corrupt, and whether it was found corrupt. */
  datatype Deflation = Deflation(yielded: seq<byte>, corrupt: bool)

  /** flate2 itself; it is foreign code, so the model takes it as a parameter. */
  type Deflater = seq<byte> -> Deflation

  /** `DeflateDecoder::new(data).read_exact(&mut vec![0; n])`. `read_exact` fills the buffer from
      the decoder's output and ignores what the decoder would yield beyond it. When the output
      runs out first, it reports `InvalidInput` for a corrupt stream and `UnexpectedEof` for a
      stream that simply ended. */
  function Inflated(deflate: Deflater, data: seq<byte>, n: nat): (r: Run<seq<byte>, Util.IoError>)
    ensures !r.Panicked?
    ensures r.Ok? <==> n <= |deflate(data).yielded|
    ensures r.Ok? ==> |r.value| == n
  {
    var z := deflate(data);
    if n <= |z.yielded| then Ok(z.yielded[..n])
    else if z.corrupt then Err(Util.InvalidInput)
    else Err(Util.UnexpectedEof)
  }

  /** Two decoders that agree on the first `n` bytes they yield, and on whether a stream is
      corrupt, give the same buffer or the same error: output past `n` is never looked at. */
  lemma InflatedIgnoresRest(f: Deflater, g: Deflater, data: seq<byte>, n: nat)
    requires f(data).corrupt == g(data).corrupt
    requires n <= |f(data).yielded| <==> n <= |g(data).yielded|
    requires n <= |f(data).yielded| ==> f(data).yielded[..n] == g(data).yielded[..n]
    ensures Inflated(f, data, n) == Inflated(g, data, n)
  {
  }

  /** The inflated directory: `cmp_size` bytes read at `offs`, `decode`d with `offs`, then
      `cmp[4..]` inflated into `size` bytes. `decode`'s unchecked `0x19000000 + offs` panics on
      overflow, and so does `cmp[4..]` when fewer than four bytes were read. */
  function Segment(deflate: Deflater, buf: seq<byte>, hd: Layout.Header): (r: Run<seq<byte>, ResBinErr>)
    ensures r.Ok? ==> |r.value| == hd.size
    ensures r.Err? ==> r.error.CmpRead? || r.error.Inflate?
  {
    match ReadExact(buf, hd.offs, hd.cmpSize)
    case None => Err(CmpRead(Util.UnexpectedEof))
    case Some(cmp) =>
      if !Keystream.SeedFits(hd.offs) then Panicked(AddOverflow)
      else
        var d := Keystream.Decode(hd.offs, cmp);
        if |d| < 4 then Panicked(IndexOutOfRange)
        else match Inflated(deflate, d[4..], hd.size)
          case Ok(x) => Ok(x)
          case Err(e) => Err(Inflate(e))
          case Panicked(k) => Panicked(k)
  }

  /** The inflated directory is the first `size` bytes the decoder yields from the decoded
      block past its first four bytes. Whatever else the decoder yields is dropped. */
  lemma SegmentIsPrefix(deflate: Deflater, buf: seq<byte>, hd: Layout.Header)
    ensures var r := Segment(deflate, buf, hd);
      r.Ok? <==>
        && hd.offs + hd.cmpSize <= |buf| && Keystream.SeedFits(hd.offs) && hd.cmpSize >= 4
        && hd.size <= |deflate(Keystream.Decode(hd.offs, buf[hd.offs..hd.offs + hd.cmpSize])[4..]).yielded|
    ensures var r := Segment(deflate, buf, hd);
      r.Ok? ==> r.value == deflate(Keystream.Decode(hd.offs, buf[hd.offs..hd.offs + hd.cmpSize])[4..]).yielded[..hd.size]
  {
  }

  /** A decoder that stops short of `size` bytes is reported as `Inflate`, with `InvalidInput`
      exactly when it found the stream corrupt. */
  lemma SegmentInflateError(deflate: Deflater, buf: seq<byte>, hd: Layout.Header)
    requires hd.offs + hd.cmpSize <= |buf| && Keystream.SeedFits(hd.offs) && hd.cmpSize >= 4
    ensures var z := deflate(Keystream.Decode(hd.offs, buf[hd.offs..hd.offs + hd.cmpSize])[4..]);
      |z.yielded| < hd.size ==>
        Segment(deflate, buf, hd) == Err(Inflate(if z.corrupt then Util.InvalidInput else Util.UnexpectedEof))
  {
  }

  /** The directory table: the inflated directory, its little-endian count (`bytes::Buf`'s
      `get_u32_le`, which panics with fewer than four bytes left) and that many 12-byte records
      read from a cursor just past the count. */
  function Directory(deflate: Deflater, buf: seq<byte>, hd: Layout.Header): (r: Run<(seq<byte>, seq<Layout.ResEntry>), ResBinErr>)
  {
    var seg := Segment(deflate, buf, hd);
    if !seg.Ok? then seg.PropagateFailure()
    else if |seg.value| < 4 then Panicked(BufferUnderflow)
    else match Layout.Records(seg.value, Layout.WordAt(seg.value, 0))
      case None => Err(EntryRead(Util.UnexpectedEof))
      case Some(ents) => Ok((seg.value, ents))
  }

  /** The table holds every record of the inflated directory verbatim and in stored order, as
      many as its count says. A directory too short for them is `EntryRead`, and one too short
      for the count panics. */
  lemma DirectoryRecords(deflate: Deflater, buf: seq<byte>, hd: Layout.Header)
    ensures var d := Directory(deflate, buf, hd);
      var seg := Segment(deflate, buf, hd);
      && (d.Ok? ==>
            seg.Ok? && d.value.0 == seg.value && |seg.value| >= 4 &&
            |d.value.1| == Layout.WordAt(seg.value, 0) && 4 + 12 * |d.value.1| <= |seg.value| &&
            forall i :: 0 <= i < |d.value.1| ==> d.value.1[i] == Layout.RecordAt(seg.value, i))
      && (d == Err(EntryRead(Util.UnexpectedEof)) <==>
            seg.Ok? && |seg.value| >= 4 && |seg.value| < 4 + 12 * Layout.WordAt(seg.value, 0))
      && (d.Panicked? <==> seg.Panicked? || (seg.Ok? && |seg.value| < 4))
  {
  }

  /** One pass of the entry loop: `read_cstr` at `path_offs`, then `size` bytes read at
      `data_offs` of the inflated directory. A failed path read is `PathName`. */
  function EntryStep(dcmp: seq<byte>, ent: Layout.ResEntry): (r: Run<(string, seq<byte>), ResBinErr>)
  {
    var s := Util.CStrLoop(dcmp, ent.pathOffs, 0, "");
    if !s.Ok? then Err(PathName(ent))
    else match ReadExact(dcmp, ent.dataOffs, ent.size)
      case None => Err(EntryDataRead(s.value.0, Util.UnexpectedEof))
      case Some(data) => Ok((s.value.0, data))
  }

  function Steps(dcmp: seq<byte>): (r: Layout.ResEntry -> Run<(string, seq<byte>), ResBinErr>)
  {
    ent => EntryStep(dcmp, ent)
  }

  /** `ResBin::new(buf)`, given flate2: the header and its signature, then the directory. */
  function LoadSpec(deflate: Deflater, buf: seq<byte>): (r: Run<ResBin, ResBinErr>)
  {
    var header := Layout.ReadHeader(buf);
    if header.None? then Err(HeaderRead(Util.UnexpectedEof))
    else if !Layout.SignatureOk(header.value) then Err(HeaderMismatch(header.value.sig))
    else LoadDirectory(deflate, buf, header.value)
  }

  /** `new` once the header is checked: the directory table, then the entry loop. */
  function LoadDirectory(deflate: Deflater, buf: seq<byte>, hd: Layout.Header): (r: Run<ResBin, ResBinErr>)
  {
    var dir := Directory(deflate, buf, hd);
    if !dir.Ok? then dir.PropagateFailure()
    else
      var entries := Insertion.FoldInsert(Steps(dir.value.0), dir.value.1, map[]);
      if !entries.Ok? then entries.PropagateFailure()
      else Ok(ResBin(hd, dir.value.1, entries.value))
  }

  /** `decode(offs, data)` of this loader, which reports success as `Ok(())`. The debug build's
      overflow check on `0x19000000 + offs` panics before any byte is touched. */
  method DecodeBlock(offs: u32, data: array<byte>) returns (r: Run<(), ResBinErr>)
    modifies data
    ensures r.Ok? <==> Keystream.SeedFits(offs)
    ensures r.Ok? ==> data[..] == Keystream.Decode(offs, old(data[..]))
    ensures !r.Ok? ==> r == Panicked(AddOverflow) && data[..] == old(data[..])
  {
    if !Keystream.SeedFits(offs) {
      return Panicked(AddOverflow);
    }
    Keystream.DecodeInPlace(offs, data);
    return Ok(());
  }

  /** The directory read of `new`: read into `vec![0; cmp_size]`, `decode` in place, inflate
      `cmp[4..]` into `vec![0; size]`. */
  method ReadSegment(deflate: Deflater, buf: seq<byte>, hd: Layout.Header) returns (r: Run<seq<byte>, ResBinErr>)
    ensures r == Segment(deflate, buf, hd)
  {
    var cmp, ok := Blocks.ReadInto(buf, hd.offs, hd.cmpSize);
    if !ok {
      return Err(CmpRead(Util.UnexpectedEof));
    }
    var d := DecodeBlock(hd.offs, cmp);
    if !d.Ok? {
      return Panicked(AddOverflow);
    }
    if cmp.Length < 4 {
      return Panicked(IndexOutOfRange);
    }
    var z := Inflated(deflate, cmp[4..], hd.size);
    match z
    case Ok(x) => r := Ok(x);
    case Err(e) => r := Err(Inflate(e));
    case Panicked(k) => r := Panicked(k);
  }

  /** The directory part of `new`: the inflated directory, the count, the record loop. */
  method ReadDirectoryTable(deflate: Deflater, buf: seq<byte>, hd: Layout.Header)
    returns (r: Run<(seq<byte>, seq<Layout.ResEntry>), ResBinErr>)
    ensures r == Directory(deflate, buf, hd)
  {
    var seg := ReadSegment(deflate, buf, hd);
    if !seg.Ok? {
      return seg.PropagateFailure();
    }
    var dcmp := seg.value;
    if |dcmp| < 4 {
      return Panicked(BufferUnderflow);
    }
    var ents := Layout.ReadRecords(dcmp, Layout.WordAt(dcmp, 0));
    if ents.None? {
      return Err(EntryRead(Util.UnexpectedEof));
    }
    return Ok((dcmp, ents.value));
  }

  /** The body of the entry loop for one record. */
  method ReadEntry(dcmp: seq<byte>, ent: Layout.ResEntry) returns (r: Run<(string, seq<byte>), ResBinErr>)
    ensures r == EntryStep(dcmp, ent)
  {
    var s, _ := Util.ReadCStr(dcmp, ent.pathOffs);
    if s.Ok? {
      var data, ok := Blocks.ReadInto(dcmp, ent.dataOffs, ent.size);
      if ok {
        r := Ok((s.value, data[..]));
      } else {
        r := Err(EntryDataRead(s.value, Util.UnexpectedEof));
      }
    } else {
      r := Err(PathName(ent));
    }
  }

  /** The entry loop of `new`: path, data, `insert`, for each record in stored order. */
  method FillEntries(dcmp: seq<byte>, ents: seq<Layout.ResEntry>) returns (r: Run<map<string, seq<byte>>, ResBinErr>)
    ensures r == Insertion.FoldInsert(Steps(dcmp), ents, map[])
  {
    var entries: map<string, seq<byte>> := map[];
    for i := 0 to |ents|
      invariant Insertion.FoldInsert(Steps(dcmp), ents[i..], entries) == Insertion.FoldInsert(Steps(dcmp), ents, map[])
    {
      assert ents[i..][0] == ents[i];
      var e := ReadEntry(dcmp, ents[i]);
      if !e.Ok? {
        return e.PropagateFailure();
      }
      Insertion.FoldStep(Steps(dcmp), ents, i, entries);
      entries := entries[e.value.0 := e.value.1];
    }
    assert ents[|ents|..] == [];
    return Ok(entries);
  }

  /** `ResBin::new`. */
  method New(deflate: Deflater, buf: seq<byte>) returns (r: Run<ResBin, ResBinErr>)
    ensures r == LoadSpec(deflate, buf)
  {
    var h := Blocks.ReadHeaderRecord(buf);
    if h.None? {
      return Err(HeaderRead(Util.UnexpectedEof));
    }
    var header := h.value;
    if header.sig != Util.Tag(Layout.ARC1) {
      return Err(HeaderMismatch(header.sig));
    }
    var dir := ReadDirectoryTable(deflate, buf, header);
    if !dir.Ok? {
      return dir.PropagateFailure();
    }
    var entries := FillEntries(dir.value.0, dir.value.1);
    if !entries.Ok? {
      return entries.PropagateFailure();
    }
    return Ok(ResBin(header, dir.value.1, entries.value));
  }

  /** The checks of `new` in order: the header length, the decoded signature, the compressed
      directory's read, then its inflation. */
  lemma LoadErrors(deflate: Deflater, buf: seq<byte>)
    ensures |buf| < Layout.HEADER_SIZE ==> LoadSpec(deflate, buf) == Err(HeaderRead(Util.UnexpectedEof))
    ensures |buf| >= Layout.HEADER_SIZE ==>
      var h := Layout.ReadHeader(buf).value;
      && (!Layout.SignatureOk(h) ==> LoadSpec(deflate, buf) == Err(HeaderMismatch(h.sig)))
      && (Layout.SignatureOk(h) ==> LoadSpec(deflate, buf) == LoadDirectory(deflate, buf, h))
  {
  }

  /** Once the header is checked, a failed read or inflation of the directory is what `new`
      reports. */
  lemma DirectoryErrors(deflate: Deflater, buf: seq<byte>, hd: Layout.Header)
    ensures ReadExact(buf, hd.offs, hd.cmpSize).None? ==>
      LoadDirectory(deflate, buf, hd) == Err(CmpRead(Util.UnexpectedEof))
    ensures Segment(deflate, buf, hd).Err? ==>
      LoadDirectory(deflate, buf, hd) == Err(Segment(deflate, buf, hd).error)
    ensures Segment(deflate, buf, hd).Panicked? ==>
      LoadDirectory(deflate, buf, hd) == Panicked(Segment(deflate, buf, hd).kind)
  {
  }

  /** The entry loop cannot fail on a path and cannot panic: it fails exactly when some record's
      data does not lie inside the inflated directory, and then reports `EntryDataRead` under the
      empty path. */
  lemma EntryLoopOutcome(dcmp: seq<byte>, ents: seq<Layout.ResEntry>)
    ensures var r := Insertion.FoldInsert(Steps(dcmp), ents, map[]);
      && (r.Ok? <==> forall i :: 0 <= i < |ents| ==> ReadExact(dcmp, ents[i].dataOffs, ents[i].size).Some?)
      && (!r.Ok? ==> r == Err(EntryDataRead("", Util.UnexpectedEof)))
  {
    var steps := Steps(dcmp);
    Insertion.FoldAllOk(steps, ents, map[]);
    forall x
      ensures steps(x).Ok? <==> ReadExact(dcmp, x.dataOffs, x.size).Some?
      ensures !steps(x).Ok? ==> steps(x) == Err(EntryDataRead("", Util.UnexpectedEof))
    {
    }
    if !Insertion.FoldInsert(steps, ents, map[]).Ok? {
      Insertion.FoldFailureIsStepFailure(steps, ents, map[]);
    }
  }

  /** Every path is `""`, so the entry loop leaves no entry for an empty directory and otherwise
      exactly one: the last record's bytes, copied verbatim out of the inflated directory. */
  lemma SingleEntry(dcmp: seq<byte>, ents: seq<Layout.ResEntry>)
    requires Insertion.FoldInsert(Steps(dcmp), ents, map[]).Ok?
    ensures forall i :: 0 <= i < |ents| ==> ReadExact(dcmp, ents[i].dataOffs, ents[i].size).Some?
    ensures var m := Insertion.FoldInsert(Steps(dcmp), ents, map[]).value;
      m == if ents == [] then map[] else map["" := ReadExact(dcmp, ents[|ents| - 1].dataOffs, ents[|ents| - 1].size).value]
  {
    var steps := Steps(dcmp);
    Insertion.FoldAllOk(steps, ents, map[]);
    var pairs := Insertion.Pairs(steps, ents);
    forall i | 0 <= i < |ents|
      ensures ReadExact(dcmp, ents[i].dataOffs, ents[i].size).Some?
      ensures pairs[i] == ("", ReadExact(dcmp, ents[i].dataOffs, ents[i].size).value)
    {
      assert steps(ents[i]).Ok?;
    }
    Insertion.InsertedSameKey(map[], pairs, "");
  }

  /** `new` never reports `PathName`. */
  lemma NeverPathName(deflate: Deflater, buf: seq<byte>)
    ensures LoadSpec(deflate, buf).Err? ==> !LoadSpec(deflate, buf).error.PathName?
  {
    var header := Layout.ReadHeader(buf);
    if header.Some? && Layout.SignatureOk(header.value) {
      DirectoryNeverPathName(deflate, buf, header.value);
    }
  }

  lemma DirectoryNeverPathName(deflate: Deflater, buf: seq<byte>, hd: Layout.Header)
    ensures LoadDirectory(deflate, buf, hd).Err? ==> !LoadDirectory(deflate, buf, hd).error.PathName?
  {
    var d := Directory(deflate, buf, hd);
    if d.Ok? {
      EntryLoopOutcome(d.value.0, d.value.1);
    }
  }

  /** A successful `new` passed every check: its header is the decoded header, its records the
      directory table and its entries the entry loop's map. */
  lemma LoadOk(deflate: Deflater, buf: seq<byte>)
    requires LoadSpec(deflate, buf).Ok?
    ensures Layout.ReadHeader(buf).Some? && Layout.SignatureOk(Layout.ReadHeader(buf).value)
    ensures var hd := Layout.ReadHeader(buf).value;
      var d := Directory(deflate, buf, hd);
      && d.Ok?
      && Insertion.FoldInsert(Steps(d.value.0), d.value.1, map[]).Ok?
      && LoadSpec(deflate, buf).value == ResBin(hd, d.value.1, Insertion.FoldInsert(Steps(d.value.0), d.value.1, map[]).value)
  {
  }

  /** A loaded archive keeps every directory record verbatim and in stored order, as many as the
      inflated directory's count says. */
  lemma LoadedRecords(deflate: Deflater, buf: seq<byte>)
    requires LoadSpec(deflate, buf).Ok?
    ensures var rb := LoadSpec(deflate, buf).value;
      var seg := Segment(deflate, buf, rb.header);
      && seg.Ok? && |seg.value| >= 4
      && |rb.entdata| == Layout.WordAt(seg.value, 0) && 4 + 12 * |rb.entdata| <= |seg.value|
      && forall i :: 0 <= i < |rb.entdata| ==> rb.entdata[i] == Layout.RecordAt(seg.value, i)
  {
    LoadOk(deflate, buf);
    DirectoryRecords(deflate, buf, Layout.ReadHeader(buf).value);
  }

  /** A loaded archive holds at most one entry: under `""`, the last record's bytes copied out
      of the inflated directory; every record's bytes lie inside it. */
  lemma LoadedEntries(deflate: Deflater, buf: seq<byte>)
    requires LoadSpec(deflate, buf).Ok?
    ensures Segment(deflate, buf, LoadSpec(deflate, buf).value.header).Ok?
    ensures var rb := LoadSpec(deflate, buf).value;
      var dcmp := Segment(deflate, buf, rb.header).value;
      && (forall i :: 0 <= i < |rb.entdata| ==> ReadExact(dcmp, rb.entdata[i].dataOffs, rb.entdata[i].size).Some?)
      && rb.entries == if rb.entdata == [] then map[] else
           var last := rb.entdata[|rb.entdata| - 1];
           map["" := ReadExact(dcmp, last.dataOffs, last.size).value]
  {
    LoadOk(deflate, buf);
    var hd := Layout.ReadHeader(buf).value;
    var d := Directory(deflate, buf, hd);
    DirectoryRecords(deflate, buf, hd);
    SingleEntry(d.value.0, d.value.1);
  }
}
