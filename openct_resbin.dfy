/** The `resources.bin` loader of the openct crate (`src/openct-import/src/resbin.rs`): the same
    header, directory and entry blocks as the kajar loader, without the executable key and the
    cipher, and with the crate's own `read_cstr`, whose loop never runs. */
module OpenctResBin {
  import opened Bytes
  import Util
  import Keystream
  import Layout
  import Blocks
  import Insertion

  /** `ResBinErr`. Payloads of errors that come from the file system are not modelled. */
  datatype ResBinErr =
    | CmpRead(Util.IoError)
    | Decmp(code: int)
    | Dump
    | EntryDataDecmp(string, int)
    | EntryDataRead(string, Util.IoError)
    | EntryPath(path: string)
    | EntryRead(Util.IoError)
    | FilePath(path: string)
    | HeaderMismatch(sig: u32)
    | HeaderRead(Util.IoError)
    | Inflate(Util.IoError)
    | PathName(Layout.ResEntry)

  /** Whether `fs::write` of these bytes to `out_path` joined with `in_path` succeeded; the file
      system is outside the model. */
  type Writer = (string, string, seq<byte>) -> bool

  /** What `load` produces: the header, the directory records, and the inflated entries by
      path. Nothing changes it after loading. */
  datatype ResBin = ResBin(header: Layout.Header, entdata: seq<Layout.ResEntry>, entries: map<string, seq<byte>>)
  {
    /** `dump(in_path, out_path)`: an unknown path is `EntryPath`, a failed write is `Dump`. */
    function DumpEntry(inPath: string, outPath: string, write: Writer): (r: Run<(), ResBinErr>)
      ensures r.Ok? <==> inPath in entries && write(outPath, inPath, entries[inPath])
      ensures inPath !in entries ==> r == Err(EntryPath(inPath))
      ensures inPath in entries && !r.Ok? ==> r == Err(Dump)
    {
      if inPath !in entries then Err(EntryPath(inPath))
      else if write(outPath, inPath, entries[inPath]) then Ok(())
      else Err(Dump)
    }

    /** `dump_all(out_path)`: every entry in the map's iteration order `order`, which lists each
        path once, stopping at the first failed `dump`. `tried` lists the paths handed to `dump`. */
    method DumpAll(outPath: string, write: Writer, order: seq<string>) returns (r: Run<(), ResBinErr>, tried: seq<string>)
      requires forall p :: p in entries <==> p in order
      requires forall i, j :: 0 <= i < j < |order| ==> order[i] != order[j]
      ensures |tried| <= |order| && tried == order[..|tried|]
      ensures forall i :: 0 <= i < |tried| - 1 ==> DumpEntry(tried[i], outPath, write).Ok?
      ensures r.Ok? <==> tried == order && forall i :: 0 <= i < |order| ==> DumpEntry(order[i], outPath, write).Ok?
      ensures !r.Ok? ==> |tried| > 0 && r == Err(Dump) && DumpEntry(tried[|tried| - 1], outPath, write) == r
    {
      tried := [];
      for i := 0 to |order|
        invariant tried == order[..i]
        invariant forall j :: 0 <= j < i ==> DumpEntry(order[j], outPath, write).Ok?
      {
        tried := tried + [order[i]];
        var d := DumpEntry(order[i], outPath, write);
        if !d.Ok? {
          return d, tried;
        }
      }
      return Ok(()), tried;
    }
  }

  /** The directory's failures as `load` reports them; `decompress` reports `Decmp` itself. */
  function DirectoryOutcome(d: Run<(seq<byte>, seq<Layout.ResEntry>), Blocks.DirFault>): (r: Run<(seq<byte>, seq<Layout.ResEntry>), ResBinErr>)
  {
    match d
    case Ok(v) => Ok(v)
    case Err(Segment(Short)) => Err(CmpRead(Util.UnexpectedEof))
    case Err(Segment(Decmp(c))) => Err(Decmp(c))
    case Err(RecordShort) => Err(EntryRead(Util.UnexpectedEof))
    case Panicked(k) => Panicked(k)
  }

  /** One pass of the entry loop: `read_cstr` at `path_offs`, then the entry's block from the
      container. A failed path read is `PathName`; the block's `decompress` reports `Decmp`. */
  function EntryStep(libz: Blocks.Libz, file: seq<byte>, dcmp: seq<byte>, ent: Layout.ResEntry): (r: Run<(string, seq<byte>), ResBinErr>)
  {
    var s := Util.CStrLoop(dcmp, ent.pathOffs, 0, "");
    if !s.Ok? then Err(PathName(ent))
    else
      var path := s.value.0;
      match Blocks.EntryBlock(libz, file, ent)
      case Ok(d) => Ok((path, d))
      case Err(Short) => Err(EntryDataRead(path, Util.UnexpectedEof))
      case Err(Decmp(c)) => Err(Decmp(c))
      case Panicked(k) => Panicked(k)
  }

  function Steps(libz: Blocks.Libz, file: seq<byte>, dcmp: seq<byte>): (r: Layout.ResEntry -> Run<(string, seq<byte>), ResBinErr>)
  {
    ent => EntryStep(libz, file, dcmp, ent)
  }

  /** `ResBin::load`, given the outcome of reading the container (`None` for a failed
      `fs::read`) and libz. */
  function LoadSpec(filepath: string, file: Option<seq<byte>>, libz: Blocks.Libz): (r: Run<ResBin, ResBinErr>)
  {
    if file.None? then Err(FilePath(filepath)) else LoadBuffer(libz, file.value)
  }

  /** `load` once the container is read: the header and its signature, then the directory. */
  function LoadBuffer(libz: Blocks.Libz, buf: seq<byte>): (r: Run<ResBin, ResBinErr>)
  {
    var header := Layout.ReadHeader(buf);
    if header.None? then Err(HeaderRead(Util.UnexpectedEof))
    else if !Layout.SignatureOk(header.value) then Err(HeaderMismatch(header.value.sig))
    else LoadDirectory(libz, buf, header.value)
  }

  /** `load` once the header is checked: the directory, then the entry loop. */
  function LoadDirectory(libz: Blocks.Libz, buf: seq<byte>, hd: Layout.Header): (r: Run<ResBin, ResBinErr>)
  {
    var dir := DirectoryOutcome(Blocks.Directory(libz, buf, hd));
    if !dir.Ok? then dir.PropagateFailure()
    else
      var entries := Insertion.FoldInsert(Steps(libz, buf, dir.value.0), dir.value.1, map[]);
      if !entries.Ok? then entries.PropagateFailure()
      else Ok(ResBin(hd, dir.value.1, entries.value))
  }

  /** The body of the entry loop for one record. */
  method ReadEntry(libz: Blocks.Libz, file: seq<byte>, dcmp: seq<byte>, ent: Layout.ResEntry)
    returns (r: Run<(string, seq<byte>), ResBinErr>)
    ensures r == EntryStep(libz, file, dcmp, ent)
  {
    var s, _ := Util.ReadCStr(dcmp, ent.pathOffs);
    if s.Ok? {
      var path := s.value;
      var block := Blocks.ReadEntryBlock(libz, file, ent);
      match block
      case Ok(d) => r := Ok((path, d));
      case Err(Short) => r := Err(EntryDataRead(path, Util.UnexpectedEof));
      case Err(Decmp(c)) => r := Err(Decmp(c));
      case Panicked(k) => r := Panicked(k);
    } else {
      r := Err(PathName(ent));
    }
  }

  /** The entry loop of `load`: path, block, `insert`, for each record in stored order. */
  method FillEntries(libz: Blocks.Libz, file: seq<byte>, dcmp: seq<byte>, ents: seq<Layout.ResEntry>)
    returns (r: Run<map<string, seq<byte>>, ResBinErr>)
    ensures r == Insertion.FoldInsert(Steps(libz, file, dcmp), ents, map[])
  {
    var entries: map<string, seq<byte>> := map[];
    for i := 0 to |ents|
      invariant Insertion.FoldInsert(Steps(libz, file, dcmp), ents[i..], entries) == Insertion.FoldInsert(Steps(libz, file, dcmp), ents, map[])
    {
      assert ents[i..][0] == ents[i];
      var e := ReadEntry(libz, file, dcmp, ents[i]);
      if !e.Ok? {
        return e.PropagateFailure();
      }
      Insertion.FoldStep(Steps(libz, file, dcmp), ents, i, entries);
      entries := entries[e.value.0 := e.value.1];
    }
    assert ents[|ents|..] == [];
    return Ok(entries);
  }

  /** `ResBin::load`. */
  method Load(filepath: string, file: Option<seq<byte>>, libz: Blocks.Libz) returns (r: Run<ResBin, ResBinErr>)
    ensures r == LoadSpec(filepath, file, libz)
  {
    if file.None? {
      return Err(FilePath(filepath));
    }
    var buf := file.value;
    var h := Blocks.ReadHeaderRecord(buf);
    if h.None? {
      return Err(HeaderRead(Util.UnexpectedEof));
    }
    var header := h.value;
    if header.sig != Util.Tag(Layout.ARC1) {
      return Err(HeaderMismatch(header.sig));
    }
    var d := Blocks.ReadDirectoryRecords(libz, buf, header);
    var dir := DirectoryOutcome(d);
    if !dir.Ok? {
      return dir.PropagateFailure();
    }
    var entries := FillEntries(libz, buf, dir.value.0, dir.value.1);
    if !entries.Ok? {
      return entries.PropagateFailure();
    }
    return Ok(ResBin(header, dir.value.1, entries.value));
  }

  /** The checks of `load` in order: the file, then the header length, then the decoded
      signature, then the compressed directory's read, then its inflation. */
  lemma LoadErrors(filepath: string, file: Option<seq<byte>>, libz: Blocks.Libz)
    ensures file.None? ==> LoadSpec(filepath, file, libz) == Err(FilePath(filepath))
    ensures file.Some? && |file.value| < Layout.HEADER_SIZE ==>
      LoadSpec(filepath, file, libz) == Err(HeaderRead(Util.UnexpectedEof))
    ensures file.Some? && |file.value| >= Layout.HEADER_SIZE ==>
      var h := Layout.ReadHeader(file.value).value;
      && (!Layout.SignatureOk(h) ==> LoadSpec(filepath, file, libz) == Err(HeaderMismatch(h.sig)))
      && (Layout.SignatureOk(h) && ReadExact(file.value, h.offs, h.cmpSize).None? ==>
            LoadSpec(filepath, file, libz) == Err(CmpRead(Util.UnexpectedEof)))
      && (Layout.SignatureOk(h) && Blocks.DirectorySegment(libz, file.value, h).Err? &&
          Blocks.DirectorySegment(libz, file.value, h).error.Decmp? ==>
            LoadSpec(filepath, file, libz) == Err(Decmp(Blocks.DirectorySegment(libz, file.value, h).error.code)))
  {
    if file.Some? && |file.value| >= Layout.HEADER_SIZE {
      var h := Layout.ReadHeader(file.value).value;
      if Layout.SignatureOk(h) {
        Blocks.DirectoryRecords(libz, file.value, h);
      }
    }
  }

  /** A decoded signature other than `ARC1` is reported with its decoded value. */
  lemma HeaderMismatchValue(filepath: string, buf: seq<byte>, libz: Blocks.Libz)
    requires |buf| >= Layout.HEADER_SIZE
    ensures var h := Keystream.Decode(0, buf[..Layout.HEADER_SIZE]);
      h[..4] != Layout.ARC1 ==> LoadSpec(filepath, Some(buf), libz) == Err(HeaderMismatch(Layout.WordAt(h, 0)))
  {
    var h := Keystream.Decode(0, buf[..Layout.HEADER_SIZE]);
    Layout.SignatureBytes(h);
    assert buf[0..Layout.HEADER_SIZE] == buf[..Layout.HEADER_SIZE];
  }

  /** An entry fails only by a short block read, a libz code or a panic: the path read never
      fails, and an entry's inflation failure is `Decmp`, never `EntryDataDecmp`. */
  lemma StepFailures(libz: Blocks.Libz, file: seq<byte>, dcmp: seq<byte>, ent: Layout.ResEntry)
    ensures var r := Steps(libz, file, dcmp)(ent);
      && (r.Err? ==> r.error == EntryDataRead("", Util.UnexpectedEof) || r.error.Decmp?)
      && (r.Ok? <==> Blocks.EntryBlock(libz, file, ent).Ok?)
      && (r.Ok? ==> r.value == ("", Blocks.EntryBlock(libz, file, ent).value))
  {
  }

  /** The errors `load` can report: never `PathName`, `EntryDataDecmp` or `Inflate`. */
  predicate Reported(e: ResBinErr)
  {
    !e.PathName? && !e.EntryDataDecmp? && !e.Inflate?
  }

  /** `load` never reports `PathName`, `EntryDataDecmp` or `Inflate`. */
  lemma NeverPathNameNorEntryDataDecmp(filepath: string, file: Option<seq<byte>>, libz: Blocks.Libz)
    ensures var r := LoadSpec(filepath, file, libz);
      r.Err? ==> !r.error.PathName? && !r.error.EntryDataDecmp? && !r.error.Inflate?
  {
    if file.Some? {
      BufferReported(libz, file.value);
    }
  }

  lemma BufferReported(libz: Blocks.Libz, buf: seq<byte>)
    ensures LoadBuffer(libz, buf).Err? ==> Reported(LoadBuffer(libz, buf).error)
  {
    var header := Layout.ReadHeader(buf);
    if header.Some? && Layout.SignatureOk(header.value) {
      DirectoryReported(libz, buf, header.value);
    }
  }

  lemma DirectoryReported(libz: Blocks.Libz, buf: seq<byte>, hd: Layout.Header)
    ensures LoadDirectory(libz, buf, hd).Err? ==> Reported(LoadDirectory(libz, buf, hd).error)
  {
    var d := Blocks.Directory(libz, buf, hd);
    if d.Ok? {
      EntryLoopErrors(libz, buf, d.value.0, d.value.1);
    }
  }

  /** The entry loop fails only with a short block read or a libz code. */
  lemma EntryLoopErrors(libz: Blocks.Libz, file: seq<byte>, dcmp: seq<byte>, ents: seq<Layout.ResEntry>)
    ensures var r := Insertion.FoldInsert(Steps(libz, file, dcmp), ents, map[]);
      r.Err? ==> r.error.EntryDataRead? || r.error.Decmp?
  {
    var steps := Steps(libz, file, dcmp);
    var allowed := (e: ResBinErr) => e.EntryDataRead? || e.Decmp?;
    forall x | steps(x).Err?
      ensures allowed(steps(x).error)
    {
      StepFailures(libz, file, dcmp, x);
    }
    Insertion.FoldErrors(steps, ents, map[], allowed);
  }

  /** A successful `load` passed every check: its header is the decoded header, its records
      the directory table and its entries the entry loop's map. */
  lemma LoadOk(filepath: string, buf: seq<byte>, libz: Blocks.Libz)
    requires LoadSpec(filepath, Some(buf), libz).Ok?
    ensures Layout.ReadHeader(buf).Some? && Layout.SignatureOk(Layout.ReadHeader(buf).value)
    ensures var hd := Layout.ReadHeader(buf).value;
      var d := Blocks.Directory(libz, buf, hd);
      && d.Ok?
      && Insertion.FoldInsert(Steps(libz, buf, d.value.0), d.value.1, map[]).Ok?
      && LoadSpec(filepath, Some(buf), libz).value ==
           ResBin(hd, d.value.1, Insertion.FoldInsert(Steps(libz, buf, d.value.0), d.value.1, map[]).value)
  {
    LoadedHeader(filepath, buf, libz);
    LoadedDirectory(filepath, buf, libz);
    LoadedMap(filepath, buf, libz);
  }

  lemma LoadedHeader(filepath: string, buf: seq<byte>, libz: Blocks.Libz)
    requires LoadSpec(filepath, Some(buf), libz).Ok?
    ensures Layout.ReadHeader(buf).Some? && Layout.SignatureOk(Layout.ReadHeader(buf).value)
  {
  }

  lemma LoadedDirectory(filepath: string, buf: seq<byte>, libz: Blocks.Libz)
    requires LoadSpec(filepath, Some(buf), libz).Ok?
    requires Layout.ReadHeader(buf).Some? && Layout.SignatureOk(Layout.ReadHeader(buf).value)
    ensures Blocks.Directory(libz, buf, Layout.ReadHeader(buf).value).Ok?
  {
  }

  lemma LoadedMap(filepath: string, buf: seq<byte>, libz: Blocks.Libz)
    requires LoadSpec(filepath, Some(buf), libz).Ok?
    requires Layout.ReadHeader(buf).Some? && Layout.SignatureOk(Layout.ReadHeader(buf).value)
    requires Blocks.Directory(libz, buf, Layout.ReadHeader(buf).value).Ok?
    ensures var d := Blocks.Directory(libz, buf, Layout.ReadHeader(buf).value).value;
      Insertion.FoldInsert(Steps(libz, buf, d.0), d.1, map[]).Ok?
  {
  }

  /** A loaded archive keeps every directory record verbatim and in stored order, as many as the
      directory's count says. */
  lemma EntdataVerbatim(filepath: string, buf: seq<byte>, libz: Blocks.Libz)
    requires LoadSpec(filepath, Some(buf), libz).Ok?
    ensures var rb := LoadSpec(filepath, Some(buf), libz).value;
      var seg := Blocks.DirectorySegment(libz, buf, rb.header);
      && seg.Ok? && |seg.value| >= 4
      && |rb.entdata| == Layout.WordAt(seg.value, 0) && 4 + 12 * |rb.entdata| <= |seg.value|
      && forall i :: 0 <= i < |rb.entdata| ==> rb.entdata[i] == Layout.RecordAt(seg.value, i)
  {
    LoadOk(filepath, buf, libz);
    var hd := Layout.ReadHeader(buf).value;
    var d := Blocks.Directory(libz, buf, hd);
    var rb := LoadSpec(filepath, Some(buf), libz).value;
    assert rb.header == hd && rb.entdata == d.value.1;
    Blocks.DirectoryRecords(libz, buf, hd);
  }

  /** Every path is `""`, so a loaded archive has no entry when the directory is empty and
      otherwise exactly one, holding the last record's inflated block; every record's block was
      read and inflated. */
  lemma SingleEntry(libz: Blocks.Libz, file: seq<byte>, dcmp: seq<byte>, ents: seq<Layout.ResEntry>)
    requires Insertion.FoldInsert(Steps(libz, file, dcmp), ents, map[]).Ok?
    ensures forall i :: 0 <= i < |ents| ==> Blocks.EntryBlock(libz, file, ents[i]).Ok?
    ensures var m := Insertion.FoldInsert(Steps(libz, file, dcmp), ents, map[]).value;
      m == if ents == [] then map[] else map["" := Blocks.EntryBlock(libz, file, ents[|ents| - 1]).value]
  {
    var steps := Steps(libz, file, dcmp);
    Insertion.FoldAllOk(steps, ents, map[]);
    var pairs := Insertion.Pairs(steps, ents);
    forall i | 0 <= i < |ents|
      ensures Blocks.EntryBlock(libz, file, ents[i]).Ok? && pairs[i] == ("", Blocks.EntryBlock(libz, file, ents[i]).value)
    {
      assert steps(ents[i]).Ok?;
      StepFailures(libz, file, dcmp, ents[i]);
    }
    Insertion.InsertedSameKey(map[], pairs, "");
  }

  /** The entries of a loaded archive: none for an empty directory, otherwise the last record's
      inflated block under `""`. */
  lemma LoadEntries(filepath: string, buf: seq<byte>, libz: Blocks.Libz)
    requires LoadSpec(filepath, Some(buf), libz).Ok?
    ensures var rb := LoadSpec(filepath, Some(buf), libz).value;
      forall i :: 0 <= i < |rb.entdata| ==> Blocks.EntryBlock(libz, buf, rb.entdata[i]).Ok?
    ensures var rb := LoadSpec(filepath, Some(buf), libz).value;
      rb.entries == if rb.entdata == [] then map[] else map["" := Blocks.EntryBlock(libz, buf, rb.entdata[|rb.entdata| - 1]).value]
  {
    LoadOk(filepath, buf, libz);
    var hd := Layout.ReadHeader(buf).value;
    var d := Blocks.Directory(libz, buf, hd);
    var rb := LoadSpec(filepath, Some(buf), libz).value;
    assert rb.entdata == d.value.1 && rb.entries == Insertion.FoldInsert(Steps(libz, buf, d.value.0), d.value.1, map[]).value;
    SingleEntry(libz, buf, d.value.0, d.value.1);
  }
}
