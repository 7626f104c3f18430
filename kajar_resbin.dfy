/** The full `resources.bin` loader of the kajar crate (`src/kajar-import/src/resbin.rs`): the
    Blowfish key from the game executable, the header, the directory, every entry inflated and
    keyed by its NUL-terminated path, and the `decrypt` / `dump` / `dump_all` operations on the
    loaded archive. */
module KajarResBin {
  import opened Bytes
  import Util
  import KajarLib
  import Keystream
  import Layout
  import Blocks
  import Insertion

  /** Where the Blowfish key sits in the game executable, and its length. */
  const KEY_OFFSET: nat := 0x398EE8
  const KEY_SIZE: nat := 16

  /** `ResBinErr`. Payloads of errors that come from the file system are not modelled; every read
      error from a `Cursor` is `UnexpectedEof`. */
  datatype ResBinErr =
    | CipherInit
    | CmpRead(Util.IoError)
    | Decmp(code: int)
    | Dump
    | EntryDataRead(string, Util.IoError)
    | EntryPath(path: string)
    | EntryRead(Util.IoError)
    | ExeRead
    | FileRead(string)
    | HeaderMismatch(sig: u32)
    | HeaderRead(Util.IoError)
    | KeyRead(Util.IoError)
    | PathName(Layout.ResEntry, Util.IoError)

  /** One loaded entry: its directory record and its inflated bytes. */
  type Entry = (Layout.ResEntry, seq<byte>)

  /** What `load` produces: the header, the entries by path, and the key the cipher was built
      from. */
  datatype Archive = Archive(header: Layout.Header, entries: map<string, Entry>, key: seq<byte>)

  /** `BlowfishLE::new_from_slice` accepts keys of 4 to 56 bytes. */
  predicate CipherKeyOk(key: seq<byte>)
  {
    4 <= |key| <= 56
  }

  /** `read_cstr(..).map_err(|e| PathName(ent, e))`. */
  function PathOutcome(ent: Layout.ResEntry, s: Run<string, Util.IoError>): (r: Run<string, ResBinErr>)
  {
    match s
    case Ok(p) => Ok(p)
    case Err(e) => Err(PathName(ent, e))
    case Panicked(k) => Panicked(k)
  }

  /** The entry block's failures as `load` reports them. */
  function BlockOutcome(path: string, b: Run<seq<byte>, Blocks.Fault>): (r: Run<seq<byte>, ResBinErr>)
  {
    match b
    case Ok(d) => Ok(d)
    case Err(Short) => Err(EntryDataRead(path, Util.UnexpectedEof))
    case Err(Decmp(c)) => Err(Decmp(c))
    case Panicked(k) => Panicked(k)
  }

  /** The directory's failures as `load` reports them. */
  function DirectoryOutcome(d: Run<(seq<byte>, seq<Layout.ResEntry>), Blocks.DirFault>): (r: Run<(seq<byte>, seq<Layout.ResEntry>), ResBinErr>)
  {
    match d
    case Ok(v) => Ok(v)
    case Err(Segment(Short)) => Err(CmpRead(Util.UnexpectedEof))
    case Err(Segment(Decmp(c))) => Err(Decmp(c))
    case Err(RecordShort) => Err(EntryRead(Util.UnexpectedEof))
    case Panicked(k) => Panicked(k)
  }

  /** One pass of the entry loop: the path at `path_offs` in the directory, then the entry's block
      from the container. */
  function EntryStep(libz: Blocks.Libz, file: seq<byte>, dcmp: seq<byte>, ent: Layout.ResEntry): (r: Run<(string, Entry), ResBinErr>)
  {
    var path := PathOutcome(ent, KajarLib.CStr(dcmp, ent.pathOffs));
    if !path.Ok? then path.PropagateFailure()
    else
      var ddata := BlockOutcome(path.value, Blocks.EntryBlock(libz, file, ent));
      if !ddata.Ok? then ddata.PropagateFailure()
      else Ok((path.value, (ent, ddata.value)))
  }

  function Steps(libz: Blocks.Libz, file: seq<byte>, dcmp: seq<byte>): (r: Layout.ResEntry -> Run<(string, Entry), ResBinErr>)
  {
    ent => EntryStep(libz, file, dcmp, ent)
  }

  /** Everything `load` takes from the container: the header, checked against `ARC1`, the
      directory, and the entries. */
  function ContainerSpec(libz: Blocks.Libz, buf: seq<byte>): (r: Run<(Layout.Header, map<string, Entry>), ResBinErr>)
  {
    var header := Layout.ReadHeader(buf);
    if header.None? then Err(HeaderRead(Util.UnexpectedEof))
    else if !Layout.SignatureOk(header.value) then Err(HeaderMismatch(header.value.sig))
    else
      var dir := DirectoryOutcome(Blocks.Directory(libz, buf, header.value));
      if !dir.Ok? then dir.PropagateFailure()
      else
        var entries := Insertion.FoldInsert(Steps(libz, buf, dir.value.0), dir.value.1, map[]);
        if !entries.Ok? then entries.PropagateFailure()
        else Ok((header.value, entries.value))
  }

  /** `ResBin::load`, given the outcome of reading the executable and the container (`None` for a
      failed `fs::read`) and libz. */
  function LoadSpec(filepath: string, exe: Option<seq<byte>>, file: Option<seq<byte>>, libz: Blocks.Libz): (r: Run<Archive, ResBinErr>)
  {
    if exe.None? then Err(ExeRead)
    else match ReadExact(exe.value, KEY_OFFSET, KEY_SIZE)
      case None => Err(KeyRead(Util.UnexpectedEof))
      case Some(key) =>
        if file.None? then Err(FileRead(filepath))
        else
          var c := ContainerSpec(libz, file.value);
          if !c.Ok? then c.PropagateFailure()
          else if !CipherKeyOk(key) then Err(CipherInit)
          else Ok(Archive(c.value.0, c.value.1, key))
  }

  /** The entry loop of `load`: path, block, `insert`, for each record in stored order. */
  method FillEntries(libz: Blocks.Libz, file: seq<byte>, dcmp: seq<byte>, ents: seq<Layout.ResEntry>)
    returns (r: Run<map<string, Entry>, ResBinErr>)
    ensures r == Insertion.FoldInsert(Steps(libz, file, dcmp), ents, map[])
  {
    var entries: map<string, Entry> := map[];
    for i := 0 to |ents|
      invariant Insertion.FoldInsert(Steps(libz, file, dcmp), ents[i..], entries) == Insertion.FoldInsert(Steps(libz, file, dcmp), ents, map[])
    {
      var ent := ents[i];
      assert ents[i..][0] == ent;
      var s, _ := KajarLib.ReadCStr(dcmp, ent.pathOffs);
      var path := PathOutcome(ent, s);
      if !path.Ok? {
        return path.PropagateFailure();
      }
      var block := Blocks.ReadEntryBlock(libz, file, ent);
      var ddata := BlockOutcome(path.value, block);
      if !ddata.Ok? {
        return ddata.PropagateFailure();
      }
      Insertion.FoldStep(Steps(libz, file, dcmp), ents, i, entries);
      entries := entries[path.value := (ent, ddata.value)];
    }
    assert ents[|ents|..] == [];
    return Ok(entries);
  }

  /** The container part of `load`: the header read into a zeroed record and decoded in place,
      the signature check, the directory, the entry loop. */
  method ReadContainer(libz: Blocks.Libz, buf: seq<byte>) returns (r: Run<(Layout.Header, map<string, Entry>), ResBinErr>)
    ensures r == ContainerSpec(libz, buf)
  {
    var h := Blocks.ReadHeaderRecord(buf);
    if h.None? {
      return Err(HeaderRead(Util.UnexpectedEof));
    }
    var header := h.value;
    if header.sig != Util.Tag(Layout.ARC1) {
      return Err(HeaderMismatch(header.sig));
    }
    var d := Blocks.ReadDirectoryRecords(libz, buf, header);
    var dir := DirectoryOutcome(d);
    if !dir.Ok? {
      return dir.PropagateFailure();
    }
    var entries := FillEntries(libz, buf, dir.value.0, dir.value.1);
    if !entries.Ok? {
      return entries.PropagateFailure();
    }
    return Ok((header, entries.value));
  }

  /** `ResBin::load`. The key is always 16 bytes, which Blowfish accepts, so the final
      `new_from_slice` cannot fail and is not repeated here (see `NeverCipherInitNorPathName`). */
  method Load(filepath: string, exe: Option<seq<byte>>, file: Option<seq<byte>>, libz: Blocks.Libz)
    returns (r: Run<Archive, ResBinErr>)
    ensures r == LoadSpec(filepath, exe, file, libz)
  {
    if exe.None? {
      return Err(ExeRead);
    }
    var key, keyOk := Blocks.ReadInto(exe.value, KEY_OFFSET, KEY_SIZE);
    if !keyOk {
      return Err(KeyRead(Util.UnexpectedEof));
    }
    if file.None? {
      return Err(FileRead(filepath));
    }
    var c := ReadContainer(libz, file.value);
    if !c.Ok? {
      return c.PropagateFailure();
    }
    return Ok(Archive(c.value.0, c.value.1, key[..]));
  }

  /** The key is read before the container is looked at: a short executable is `KeyRead`,
      whatever the container holds. */
  lemma KeyReadFirst(filepath: string, exe: seq<byte>, file: Option<seq<byte>>, libz: Blocks.Libz)
    requires |exe| < KEY_OFFSET + KEY_SIZE
    ensures LoadSpec(filepath, Some(exe), file, libz) == Err(KeyRead(Util.UnexpectedEof))
  {
  }

  /** The key is exactly the 16 executable bytes at `KEY_OFFSET`. */
  lemma KeyBytes(filepath: string, exe: seq<byte>, file: Option<seq<byte>>, libz: Blocks.Libz)
    requires LoadSpec(filepath, Some(exe), file, libz).Ok?
    ensures KEY_OFFSET + KEY_SIZE <= |exe|
    ensures LoadSpec(filepath, Some(exe), file, libz).value.key == exe[KEY_OFFSET..KEY_OFFSET + KEY_SIZE]
  {
  }

  /** The header checks, in order: a container shorter than 16 bytes is `HeaderRead`; otherwise
      the decoded signature must spell `ARC1`, and `HeaderMismatch` carries the decoded value. */
  lemma HeaderErrors(libz: Blocks.Libz, buf: seq<byte>)
    ensures |buf| < Layout.HEADER_SIZE ==> ContainerSpec(libz, buf) == Err(HeaderRead(Util.UnexpectedEof))
    ensures |buf| >= Layout.HEADER_SIZE ==>
      var h := Keystream.Decode(0, buf[..Layout.HEADER_SIZE]);
      h[..4] != Layout.ARC1 ==> ContainerSpec(libz, buf) == Err(HeaderMismatch(Layout.WordAt(h, 0)))
  {
    if |buf| >= Layout.HEADER_SIZE {
      var h := Keystream.Decode(0, buf[..Layout.HEADER_SIZE]);
      Layout.SignatureBytes(h);
      assert buf[0..Layout.HEADER_SIZE] == buf[..Layout.HEADER_SIZE];
    }
  }

  /** Once the key is read, every failure of `load` is a failure of reading the container. */
  lemma ContainerErrors(filepath: string, exe: seq<byte>, buf: seq<byte>, libz: Blocks.Libz)
    requires KEY_OFFSET + KEY_SIZE <= |exe|
    ensures !ContainerSpec(libz, buf).Ok? ==>
      LoadSpec(filepath, Some(exe), Some(buf), libz) == ContainerSpec(libz, buf).PropagateFailure()
    ensures ContainerSpec(libz, buf).Ok? ==> LoadSpec(filepath, Some(exe), Some(buf), libz).Ok?
  {
    var key := exe[KEY_OFFSET..KEY_OFFSET + KEY_SIZE];
    assert ReadExact(exe, KEY_OFFSET, KEY_SIZE) == Some(key);
    assert CipherKeyOk(key);
  }

  /** An entry fails only by a short block read, a libz code or a panic: the kajar `read_cstr`
      panics instead of failing, so `PathName` is never built. */
  lemma StepFailures(libz: Blocks.Libz, file: seq<byte>, dcmp: seq<byte>, ent: Layout.ResEntry)
    ensures var r := Steps(libz, file, dcmp)(ent);
      r.Err? ==> r.error.EntryDataRead? || r.error.Decmp?
  {
  }

  /** The container fails only with the read, signature, libz and directory errors, or a panic. */
  lemma ContainerFailures(libz: Blocks.Libz, buf: seq<byte>)
    ensures var c := ContainerSpec(libz, buf);
      c.Err? ==> c.error.HeaderRead? || c.error.HeaderMismatch? || c.error.CmpRead? || c.error.Decmp? ||
                 c.error.EntryRead? || c.error.EntryDataRead?
  {
    var header := Layout.ReadHeader(buf);
    if header.Some? && Layout.SignatureOk(header.value) {
      var dir := DirectoryOutcome(Blocks.Directory(libz, buf, header.value));
      if dir.Ok? {
        var steps := Steps(libz, buf, dir.value.0);
        var entries := Insertion.FoldInsert(steps, dir.value.1, map[]);
        var allowed := (e: ResBinErr) => e.EntryDataRead? || e.Decmp?;
        forall x | steps(x).Err?
          ensures allowed(steps(x).error)
        {
          StepFailures(libz, buf, dir.value.0, x);
        }
        Insertion.FoldErrors(steps, dir.value.1, map[], allowed);
        assert entries.Err? ==> entries.error.EntryDataRead? || entries.error.Decmp?;
        assert !entries.Ok? ==> ContainerSpec(libz, buf) == entries.PropagateFailure();
      } else {
        DirectoryFailures(Blocks.Directory(libz, buf, header.value));
        assert ContainerSpec(libz, buf) == dir.PropagateFailure();
      }
    }
  }

  /** The directory fails only with `CmpRead`, `Decmp` or `EntryRead`, or a panic. */
  lemma DirectoryFailures(d: Run<(seq<byte>, seq<Layout.ResEntry>), Blocks.DirFault>)
    ensures var o := DirectoryOutcome(d);
      o.Err? ==> o.error.CmpRead? || o.error.Decmp? || o.error.EntryRead?
  {
  }

  /** `load` never returns `CipherInit` (the key always has 16 bytes) nor `PathName`. */
  lemma NeverCipherInitNorPathName(filepath: string, exe: Option<seq<byte>>, file: Option<seq<byte>>, libz: Blocks.Libz)
    ensures var r := LoadSpec(filepath, exe, file, libz);
      r.Err? ==> !r.error.CipherInit? && !r.error.PathName?
  {
    if exe.Some? && KEY_OFFSET + KEY_SIZE <= |exe.value| && file.Some? {
      ContainerFailures(libz, file.value);
      ContainerErrors(filepath, exe.value, file.value, libz);
    }
  }

  /** Every loaded entry holds the inflated block of the last record with its path, and the map
      has at most one key per record. */
  lemma LoadedEntries(libz: Blocks.Libz, file: seq<byte>, dcmp: seq<byte>, ents: seq<Layout.ResEntry>, j: nat)
    requires Insertion.FoldInsert(Steps(libz, file, dcmp), ents, map[]).Ok?
    requires j < |ents|
    requires forall l :: j < l < |ents| ==> KajarLib.CStr(dcmp, ents[l].pathOffs) != KajarLib.CStr(dcmp, ents[j].pathOffs)
    ensures KajarLib.CStr(dcmp, ents[j].pathOffs).Ok? && Blocks.EntryBlock(libz, file, ents[j]).Ok?
    ensures var m := Insertion.FoldInsert(Steps(libz, file, dcmp), ents, map[]).value;
      var p := KajarLib.CStr(dcmp, ents[j].pathOffs).value;
      |m.Keys| <= |ents| && p in m && m[p] == (ents[j], Blocks.EntryBlock(libz, file, ents[j]).value)
  {
    var steps := Steps(libz, file, dcmp);
    Insertion.FoldAllOk(steps, ents, map[]);
    var pairs := Insertion.Pairs(steps, ents);
    Insertion.InsertedSize(pairs);
    assert steps(ents[j]).Ok?;
    StepPath(libz, file, dcmp, ents[j]);
    assert pairs[j] == steps(ents[j]).value;
    forall l | j < l < |ents|
      ensures pairs[l].0 != pairs[j].0
    {
      assert steps(ents[l]).Ok?;
      StepPath(libz, file, dcmp, ents[l]);
      assert pairs[l] == steps(ents[l]).value;
    }
    Insertion.InsertedLastWins(map[], pairs, j);
    var m := Insertion.FoldInsert(steps, ents, map[]).value;
    assert m == Insertion.Inserted(map[], pairs);
    assert pairs[j] == (KajarLib.CStr(dcmp, ents[j].pathOffs).value, (ents[j], Blocks.EntryBlock(libz, file, ents[j]).value));
  }

  /** A successful `load` read the container, and its header and entries are the decoded header
      and the entry loop's map over the directory's records. */
  lemma LoadedArchive(filepath: string, exe: Option<seq<byte>>, file: Option<seq<byte>>, libz: Blocks.Libz)
    requires LoadSpec(filepath, exe, file, libz).Ok?
    ensures file.Some? && Layout.ReadHeader(file.value).Some? && Layout.SignatureOk(Layout.ReadHeader(file.value).value)
    ensures var hd := Layout.ReadHeader(file.value).value;
      var d := Blocks.Directory(libz, file.value, hd);
      && d.Ok?
      && Insertion.FoldInsert(Steps(libz, file.value, d.value.0), d.value.1, map[]).Ok?
      && LoadSpec(filepath, exe, file, libz).value.header == hd
      && LoadSpec(filepath, exe, file, libz).value.entries == Insertion.FoldInsert(Steps(libz, file.value, d.value.0), d.value.1, map[]).value
  {
    LoadedFromContainer(filepath, exe, file, libz);
    LoadedContainer(libz, file.value);
  }

  /** A successful `load` holds what the container read produced. */
  lemma LoadedFromContainer(filepath: string, exe: Option<seq<byte>>, file: Option<seq<byte>>, libz: Blocks.Libz)
    requires LoadSpec(filepath, exe, file, libz).Ok?
    ensures file.Some? && ContainerSpec(libz, file.value).Ok?
    ensures LoadSpec(filepath, exe, file, libz).value.header == ContainerSpec(libz, file.value).value.0
    ensures LoadSpec(filepath, exe, file, libz).value.entries == ContainerSpec(libz, file.value).value.1
  {
  }

  /** A container that loads passed the header checks, its directory was read, and it holds the
      decoded header and the entry loop's map. */
  lemma LoadedContainer(libz: Blocks.Libz, buf: seq<byte>)
    requires ContainerSpec(libz, buf).Ok?
    ensures Layout.ReadHeader(buf).Some? && Layout.SignatureOk(Layout.ReadHeader(buf).value)
    ensures var hd := Layout.ReadHeader(buf).value;
      var d := Blocks.Directory(libz, buf, hd);
      && d.Ok?
      && Insertion.FoldInsert(Steps(libz, buf, d.value.0), d.value.1, map[]).Ok?
      && ContainerSpec(libz, buf).value == (hd, Insertion.FoldInsert(Steps(libz, buf, d.value.0), d.value.1, map[]).value)
  {
    ContainerHeader(libz, buf);
    ContainerDirectory(libz, buf);
    ContainerMap(libz, buf);
    ContainerValue(libz, buf);
  }

  lemma ContainerHeader(libz: Blocks.Libz, buf: seq<byte>)
    requires ContainerSpec(libz, buf).Ok?
    ensures Layout.ReadHeader(buf).Some? && Layout.SignatureOk(Layout.ReadHeader(buf).value)
  {
  }

  lemma ContainerDirectory(libz: Blocks.Libz, buf: seq<byte>)
    requires ContainerSpec(libz, buf).Ok?
    requires Layout.ReadHeader(buf).Some? && Layout.SignatureOk(Layout.ReadHeader(buf).value)
    ensures Blocks.Directory(libz, buf, Layout.ReadHeader(buf).value).Ok?
  {
  }

  lemma ContainerMap(libz: Blocks.Libz, buf: seq<byte>)
    requires ContainerSpec(libz, buf).Ok?
    requires Layout.ReadHeader(buf).Some? && Layout.SignatureOk(Layout.ReadHeader(buf).value)
    requires Blocks.Directory(libz, buf, Layout.ReadHeader(buf).value).Ok?
    ensures var d := Blocks.Directory(libz, buf, Layout.ReadHeader(buf).value).value;
      Insertion.FoldInsert(Steps(libz, buf, d.0), d.1, map[]).Ok?
  {
  }

  lemma ContainerValue(libz: Blocks.Libz, buf: seq<byte>)
    requires ContainerSpec(libz, buf).Ok?
    requires Layout.ReadHeader(buf).Some? && Layout.SignatureOk(Layout.ReadHeader(buf).value)
    requires Blocks.Directory(libz, buf, Layout.ReadHeader(buf).value).Ok?
    ensures var d := Blocks.Directory(libz, buf, Layout.ReadHeader(buf).value).value;
      ContainerSpec(libz, buf).value == (Layout.ReadHeader(buf).value, Insertion.FoldInsert(Steps(libz, buf, d.0), d.1, map[]).value)
  {
  }

  /** A successful step pairs the record's path with the record and its inflated block. */
  lemma StepPath(libz: Blocks.Libz, file: seq<byte>, dcmp: seq<byte>, ent: Layout.ResEntry)
    requires Steps(libz, file, dcmp)(ent).Ok?
    ensures KajarLib.CStr(dcmp, ent.pathOffs).Ok? && Blocks.EntryBlock(libz, file, ent).Ok?
    ensures Steps(libz, file, dcmp)(ent).value ==
      (KajarLib.CStr(dcmp, ent.pathOffs).value, (ent, Blocks.EntryBlock(libz, file, ent).value))
  {
  }

  /** The leading-block mask of `decrypt`. */
  const MASK: seq<byte> := [0x75, 0xFA, 0x29, 0x95, 0x05, 0x4D, 0x41, 0x5F]

  /** The data after `data[i] ^= MASK[i]` for the first eight bytes (as many of them as exist). */
  function Unmask(data: seq<byte>): (r: seq<byte>)
    ensures |r| == |data|
  {
    seq(|data|, i requires 0 <= i < |data| => if i < 8 then Xor(data[i], MASK[i]) else data[i])
  }

  /** The mask changes only the first eight bytes, and applying it twice restores the data. */
  lemma UnmaskInvolution(data: seq<byte>)
    ensures Unmask(Unmask(data)) == data
    ensures |data| >= 8 ==> Unmask(data)[8..] == data[8..]
  {
    var once := Unmask(data);
    forall i | 0 <= i < |data|
      ensures Unmask(once)[i] == data[i]
    {
      if i < 8 {
        XorTwice(data[i], MASK[i]);
      }
    }
  }

  /** `data.chunks(8).zip(ddata.chunks_mut(8))` converts each pair of chunks into 8-byte blocks;
      it panics unless every chunk it reaches from either side is a whole block. Chunk `k` exists
      while `8 * k` is below the length. */
  ghost predicate BlocksWhole(dataLen: nat, outLen: nat)
  {
    forall k: nat :: 8 * k < dataLen && 8 * k < outLen ==> 8 * k + 8 <= dataLen && 8 * k + 8 <= outLen
  }

  /** The block loop reaches a partial chunk exactly when one side ends in a partial chunk that
      the other side still pairs with. */
  lemma BlocksWholeClosedForm(dataLen: nat, outLen: nat)
    ensures BlocksWhole(dataLen, outLen) <==>
      (dataLen % 8 == 0 || outLen <= dataLen / 8 * 8) && (outLen % 8 == 0 || dataLen <= outLen / 8 * 8)
  {
    if dataLen % 8 != 0 && outLen > dataLen / 8 * 8 {
      var k: nat := dataLen / 8;
      assert 8 * k < dataLen && 8 * k < outLen && 8 * k + 8 > dataLen;
    } else if outLen % 8 != 0 && dataLen > outLen / 8 * 8 {
      var k: nat := outLen / 8;
      assert 8 * k < dataLen && 8 * k < outLen && 8 * k + 8 > outLen;
    } else {
      forall k: nat | 8 * k < dataLen && 8 * k < outLen
        ensures 8 * k + 8 <= dataLen && 8 * k + 8 <= outLen
      {
      }
    }
  }

  /** With buffers of equal length the loop panics exactly when the length is not a multiple
      of 8. */
  lemma BlocksWholeSameLength(n: nat)
    ensures BlocksWhole(n, n) <==> n % 8 == 0
  {
    BlocksWholeClosedForm(n, n);
  }

  /** The Blowfish loop of `decrypt` over the masked data and a `size`-byte output buffer. The
      cipher's output lands in that local buffer and is dropped, so only whether a chunk
      conversion panics is observable. */
  method DecryptBlocks(data: seq<byte>, size: nat) returns (r: Run<(), ResBinErr>)
    ensures r == if BlocksWhole(|data|, size) then Ok(()) else Panicked(LengthMismatch)
  {
    var k := 0;
    while 8 * k < |data| && 8 * k < size
      invariant forall j: nat :: j < k ==> 8 * j + 8 <= |data| && 8 * j + 8 <= size
      decreases |data| - 8 * k
    {
      if 8 * k + 8 > |data| || 8 * k + 8 > size {
        return Panicked(LengthMismatch);
      }
      k := k + 1;
    }
    assert BlocksWhole(|data|, size) by {
      forall j: nat | 8 * j < |data| && 8 * j < size
        ensures 8 * j + 8 <= |data| && 8 * j + 8 <= size
      {
        assert j < k;
      }
    }
    return Ok(());
  }

  /** The entries after `decrypt(path)`: the named entry's data masked, everything else as it
      was. An unknown path changes nothing. */
  function Decrypted(entries: map<string, Entry>, path: string): (m: map<string, Entry>)
    ensures m.Keys == entries.Keys
  {
    if path in entries then entries[path := (entries[path].0, Unmask(entries[path].1))] else entries
  }

  /** A second `decrypt` of the same path restores the entries. */
  lemma DecryptTwice(entries: map<string, Entry>, path: string)
    ensures Decrypted(Decrypted(entries, path), path) == entries
  {
    if path in entries {
      UnmaskInvolution(entries[path].1);
    }
  }

  /** Whether `fs::write` of these bytes to `out_path` joined with `in_path` succeeded; the file
      system is outside the model. */
  type Writer = (string, string, seq<byte>) -> bool

  /** The loaded archive. `decrypt` changes its entries in place. */
  class ResBin {
    var header: Layout.Header
    var entries: map<string, Entry>
    const key: seq<byte>

    constructor (a: Archive)
      ensures header == a.header && entries == a.entries && key == a.key
    {
      header := a.header;
      entries := a.entries;
      key := a.key;
    }

    /** `decrypt(path)`: the lookup, the in-place mask, then the block loop. A panic in the mask
        (data shorter than 8 bytes) leaves the bytes it already masked; with no entry of that
        path nothing changes. */
    method Decrypt(path: string) returns (r: Run<(), ResBinErr>)
      modifies this
      ensures header == old(header)
      ensures entries == Decrypted(old(entries), path)
      ensures path !in old(entries) ==> r == Err(EntryPath(path))
      ensures path in old(entries) ==>
        var (info, data) := old(entries)[path];
        r == if |data| < 8 then Panicked(IndexOutOfRange)
             else if BlocksWhole(|data|, info.size) then Ok(())
             else Panicked(LengthMismatch)
    {
      if path !in entries {
        return Err(EntryPath(path));
      }
      var (info, data) := entries[path];
      entries := entries[path := (info, Unmask(data))];
      if |data| < 8 {
        return Panicked(IndexOutOfRange);
      }
      r := DecryptBlocks(Unmask(data), info.size);
    }

    /** `dump(in_path, out_path)`: an unknown path is `EntryPath`, a failed write is `Dump`. */
    function Dump(inPath: string, outPath: string, write: Writer): (r: Run<(), ResBinErr>)
      reads this
      ensures r.Ok? <==> inPath in entries && write(outPath, inPath, entries[inPath].1)
      ensures inPath !in entries ==> r == Err(EntryPath(inPath))
      ensures inPath in entries && !r.Ok? ==> r == Err(ResBinErr.Dump)
    {
      if inPath !in entries then Err(EntryPath(inPath))
      else if write(outPath, inPath, entries[inPath].1) then Ok(())
      else Err(ResBinErr.Dump)
    }

    /** `dump_all(out_path)`: every entry in the map's iteration order `order`, which lists each
        path once, stopping at the first failed write. `tried` lists the paths handed to `dump`. */
    method DumpAll(outPath: string, write: Writer, order: seq<string>) returns (r: Run<(), ResBinErr>, tried: seq<string>)
      requires forall p :: p in entries <==> p in order
      requires forall i, j :: 0 <= i < j < |order| ==> order[i] != order[j]
      ensures |tried| <= |order| && tried == order[..|tried|]
      ensures forall i :: 0 <= i < |tried| - 1 ==> Dump(tried[i], outPath, write).Ok?
      ensures r.Ok? <==> tried == order && forall i :: 0 <= i < |order| ==> Dump(order[i], outPath, write).Ok?
      ensures !r.Ok? ==> |tried| > 0 && r == Err(ResBinErr.Dump) && Dump(tried[|tried| - 1], outPath, write) == r
    {
      tried := [];
      for i := 0 to |order|
        invariant tried == order[..i]
        invariant forall j :: 0 <= j < i ==> Dump(order[j], outPath, write).Ok?
      {
        tried := tried + [order[i]];
        var d := Dump(order[i], outPath, write);
        if !d.Ok? {
          return d, tried;
        }
      }
      return Ok(()), tried;
    }
  }
}
