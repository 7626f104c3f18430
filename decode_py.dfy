/** The Python cross-check `utils/decode.py`: its own `decode` and a script that unpacks the
    header, inflates the directory and lists one path character per record. Python integers
    are unbounded, so the seed is masked with `& 0xFFFFFFFF` after every step. The script
    raises where the Rust loaders report an error; raising is modelled as `Err`. */
module DecodeScript {
  import opened Bytes
  import Keystream
  import Layout

  /** The exceptions the script can raise once the file is read. */
  datatype PyError = StructError | ZlibError | UnicodeDecodeError

  /** `zlib.decompress(data, 31)`; `None` is `zlib.error`. It is foreign code, so the model takes
      it as a parameter. */
  type Zlib = seq<byte> -> Option<seq<byte>>

  /** What the script computes: the header, the `entries` list and the `paths` list it prints. */
  datatype Listing = Listing(header: Layout.Header, entries: seq<Layout.ResEntry>, paths: seq<string>)

  /** `x & 0xFFFFFFFF` of a Python integer, negative ones included. */
  function Mask(x: int): (r: u32)
  {
    x % 0x1_0000_0000
  }

  /** Python's `decode(buf, offset)`: the keystream of the Rust loaders, seeded with
      `0x19000000 + offset` reduced to 32 bits. */
  function PyDecodeSpec(buf: seq<byte>, offset: int): (out: seq<byte>)
    ensures |out| == |buf|
  {
    Keystream.DecodeFrom(Mask(Keystream.SEED_BASE + offset), buf)
  }

  lemma MaskShift(x: int, k: int)
    ensures Mask(x + k * 0x1_0000_0000) == Mask(x)
  {
  }

  /** Masking after the multiply-add is one step of the Rust generator from the masked seed. */
  lemma MaskStep(a: int)
    ensures Mask(a * 0x41C6_4E6D + 12345) == Keystream.Step(Mask(a))
  {
    var r := a % 0x1_0000_0000;
    var q := a / 0x1_0000_0000;
    assert a == q * 0x1_0000_0000 + r;
    assert a * 0x41C6_4E6D + 12345 == (r * 0x41C6_4E6D + 12345) + (q * 0x41C6_4E6D) * 0x1_0000_0000;
    MaskShift(r * 0x41C6_4E6D + 12345, q * 0x41C6_4E6D);
    var m := r * 0x41C6_4E6D;
    assert m + 12345 == (m % 0x1_0000_0000 + 12345) + (m / 0x1_0000_0000) * 0x1_0000_0000;
    MaskShift(m % 0x1_0000_0000 + 12345, m / 0x1_0000_0000);
  }

  /** The seed after the `i`-th masked step is the Rust generator's seed after `i + 1` steps
      from the masked first seed. */
  lemma PySeedStep(seed: int, offset: int, i: nat)
    requires i == 0 ==> seed == Keystream.SEED_BASE + offset
    requires i > 0 ==> seed == Keystream.SeedAfter(Mask(Keystream.SEED_BASE + offset), i)
    ensures Mask(seed * 0x41C6_4E6D + 12345) == Keystream.SeedAfter(Mask(Keystream.SEED_BASE + offset), i + 1)
  {
    var s0 := Mask(Keystream.SEED_BASE + offset);
    MaskStep(seed);
    MaskedSeed(seed, offset, i);
    assert Keystream.SeedAfter(s0, i + 1) == Keystream.Step(Keystream.SeedAfter(s0, i));
  }

  /** Before the `i`-th step, the masked Python seed is the Rust seed after `i` steps. */
  lemma MaskedSeed(seed: int, offset: int, i: nat)
    requires i == 0 ==> seed == Keystream.SEED_BASE + offset
    requires i > 0 ==> seed == Keystream.SeedAfter(Mask(Keystream.SEED_BASE + offset), i)
    ensures Mask(seed) == Keystream.SeedAfter(Mask(Keystream.SEED_BASE + offset), i)
  {
  }

  /** `decode(buf, offset)`: one masked generator step per byte, the byte XORed with `seed >> 24`
      and appended to `out`. The first seed is not masked; the mask after each step makes the
      result the Rust keystream from the masked seed. */
  method PyDecode(buf: seq<byte>, offset: int) returns (out: seq<byte>)
    ensures out == PyDecodeSpec(buf, offset)
  {
    ghost var s0 := Mask(Keystream.SEED_BASE + offset);
    ghost var ks := Keystream.KeyStream(s0, |buf|);
    var seed: int := 0x1900_0000 + offset;
    out := [];
    for i := 0 to |buf|
      invariant |out| == i
      invariant i == 0 ==> seed == Keystream.SEED_BASE + offset
      invariant i > 0 ==> seed == Keystream.SeedAfter(s0, i)
      invariant forall j :: 0 <= j < i ==> out[j] == Xor(buf[j], ks[j])
    {
      PySeedStep(seed, offset, i);
      Keystream.KeyStreamAt(s0, |buf|, i);
      var next: u32 := Mask(seed * 0x41C6_4E6D + 12345);
      seed := next;
      out := out + [Xor(buf[i], Keystream.HighByte(next))];
    }
  }

  /** Wherever the Rust addition `0x19000000 + offs` does not overflow, the Python `decode`
      and the Rust `decode` agree byte for byte. */
  lemma PyDecodeIsDecode(offs: u32, buf: seq<byte>)
    requires Keystream.SeedFits(offs)
    ensures PyDecodeSpec(buf, offs) == Keystream.Decode(offs, buf)
  {
  }

  /** Like Rust, Python `decode` is an involution for a fixed offset. */
  lemma PyDecodeInvolution(buf: seq<byte>, offset: int)
    ensures PyDecodeSpec(PyDecodeSpec(buf, offset), offset) == buf
  {
    var ks := Keystream.KeyStream(Mask(Keystream.SEED_BASE + offset), |buf|);
    var once := PyDecodeSpec(buf, offset);
    forall i | 0 <= i < |buf|
      ensures PyDecodeSpec(once, offset)[i] == buf[i]
    {
      XorTwice(buf[i], ks[i]);
    }
  }

  /** `buf[from:]`: Python slicing past the end gives the empty string. */
  function Tail(buf: seq<byte>, from: nat): (t: seq<byte>)
    ensures |t| == if from <= |buf| then |buf| - from else 0
  {
    if from <= |buf| then buf[from..] else []
  }

  /** `buf[0:n]`: at most the first `n` bytes. */
  function Head(buf: seq<byte>, n: nat): (h: seq<byte>)
    ensures |h| == if n <= |buf| then n else |buf|
  {
    if n <= |buf| then buf[..n] else buf
  }

  /** `Header(*struct.unpack('<IIII', decode(buf[0:16])))`: exactly 16 bytes or `struct.error`.
      No signature check follows. */
  function UnpackHeader(buf: seq<byte>): (r: Run<Layout.Header, PyError>)
    ensures !r.Panicked?
  {
    var h := PyDecodeSpec(Head(buf, Layout.HEADER_SIZE), 0);
    if |h| != Layout.HEADER_SIZE then Err(StructError) else Ok(Layout.HeaderOf(h))
  }

  /** The records loop: `struct.unpack_from('<III', dcmp, i)` for `i` in `range(0, n*12, 12)`
      over the buffer with the count stripped. Any record past the end is `struct.error`. */
  function UnpackEntries(body: seq<byte>, n: nat): (r: Run<seq<Layout.ResEntry>, PyError>)
    ensures r.Ok? <==> 12 * n <= |body|
    ensures r.Ok? ==> |r.value| == n
    ensures r.Err? ==> r.error == StructError
  {
    if 12 * n <= |body| then Ok(seq(n, i requires 0 <= i < n => Layout.EntryOf(body[12 * i..12 * i + 12])))
    else Err(StructError)
  }

  /** `struct.unpack_from('s', dcmp, e.path_offset)[0].decode('utf-8')`: format `'s'` is one byte,
      and a single byte decodes as UTF-8 only when it is below `0x80`. */
  function PathOf(body: seq<byte>, e: Layout.ResEntry): (r: Run<string, PyError>)
    ensures r.Ok? <==> e.pathOffs < |body| && body[e.pathOffs] < 0x80
    ensures r.Ok? ==> |r.value| == 1
    ensures r.Err? ==> r.error == if e.pathOffs < |body| then UnicodeDecodeError else StructError
  {
    if e.pathOffs + 1 > |body| then Err(StructError)
    else if body[e.pathOffs] >= 0x80 then Err(UnicodeDecodeError)
    else Ok([ByteChar(body[e.pathOffs])])
  }

  /** The paths loop over `es`, in order, raising at the first record whose path fails. */
  function Paths(body: seq<byte>, es: seq<Layout.ResEntry>): (r: Run<seq<string>, PyError>)
    ensures !r.Panicked?
    ensures r.Ok? ==> |r.value| == |es|
    decreases |es|
  {
    if es == [] then Ok([])
    else
      var init := Paths(body, es[..|es| - 1]);
      if !init.Ok? then init
      else
        var p := PathOf(body, es[|es| - 1]);
        if !p.Ok? then p.PropagateFailure() else Ok(init.value + [p.value])
  }

  /** The paths loop succeeds exactly when every path does, and then lists them in order;
      otherwise it raises what the first failing path raises. */
  lemma {:induction false} PathsOutcome(body: seq<byte>, es: seq<Layout.ResEntry>)
    ensures Paths(body, es).Ok? <==> forall i :: 0 <= i < |es| ==> PathOf(body, es[i]).Ok?
    ensures Paths(body, es).Ok? ==> forall i :: 0 <= i < |es| ==> Paths(body, es).value[i] == PathOf(body, es[i]).value
    ensures !Paths(body, es).Ok? ==>
      exists k :: (0 <= k < |es| && !PathOf(body, es[k]).Ok? &&
        (forall i :: 0 <= i < k ==> PathOf(body, es[i]).Ok?) && Paths(body, es) == Err(PathOf(body, es[k]).error))
    decreases |es|
  {
    if es != [] {
      var init := es[..|es| - 1];
      PathsOutcome(body, init);
      assert forall i :: 0 <= i < |init| ==> init[i] == es[i];
    }
  }

  /** Once the paths of a prefix raise, the whole loop raises the same. */
  lemma {:induction false} PathsPrefixFails(body: seq<byte>, es: seq<Layout.ResEntry>, k: nat)
    requires k <= |es| && !Paths(body, es[..k]).Ok?
    ensures Paths(body, es) == Paths(body, es[..k])
    decreases |es| - k
  {
    if k < |es| {
      assert es[..|es| - 1][..k] == es[..k];
      PathsPrefixFails(body, es[..|es| - 1], k);
    } else {
      assert es[..k] == es;
    }
  }

  /** The script body, given the file's bytes: the header, the directory region decoded from
      `header.offset` to the end of the file, `zlib.decompress` of it past its first four bytes,
      the count, the records and one path per record. */
  function ScriptSpec(zlib: Zlib, buf: seq<byte>): (r: Run<Listing, PyError>)
  {
    var header := UnpackHeader(buf);
    if !header.Ok? then header.PropagateFailure()
    else
      var region := PyDecodeSpec(Tail(buf, header.value.offs), header.value.offs);
      var dcmp := zlib(Tail(region, 4));
      if dcmp.None? then Err(ZlibError)
      else if |dcmp.value| < 4 then Err(StructError)
      else
        var body := dcmp.value[4..];
        var entries := UnpackEntries(body, Layout.WordAt(dcmp.value, 0));
        if !entries.Ok? then entries.PropagateFailure()
        else
          var paths := Paths(body, entries.value);
          if !paths.Ok? then paths.PropagateFailure()
          else Ok(Listing(header.value, entries.value, paths.value))
  }

  /** The records loop, as the statements run. */
  method UnpackEntriesLoop(body: seq<byte>, n: nat) returns (r: Run<seq<Layout.ResEntry>, PyError>)
    ensures r == UnpackEntries(body, n)
  {
    var entries: seq<Layout.ResEntry> := [];
    var i := 0;
    while i < n * 12
      invariant i == 12 * |entries| && |entries| <= n
      invariant forall j :: 0 <= j < |entries| ==> 12 * j + 12 <= |body| && entries[j] == Layout.EntryOf(body[12 * j..12 * j + 12])
    {
      if i + 12 > |body| {
        return Err(StructError);
      }
      entries := entries + [Layout.EntryOf(body[i..i + 12])];
      i := i + 12;
    }
    assert |entries| == n;
    assert n > 0 ==> 12 * (n - 1) + 12 <= |body|;
    assert entries == UnpackEntries(body, n).value;
    return Ok(entries);
  }

  /** The paths loop, as the statements run. */
  method PathsLoop(body: seq<byte>, entries: seq<Layout.ResEntry>) returns (r: Run<seq<string>, PyError>)
    ensures r == Paths(body, entries)
  {
    var paths: seq<string> := [];
    for k := 0 to |entries|
      invariant Paths(body, entries[..k]) == Ok(paths)
    {
      assert entries[..k + 1][..k] == entries[..k];
      var e := entries[k];
      if e.pathOffs + 1 > |body| {
        PathsPrefixFails(body, entries, k + 1);
        return Err(StructError);
      }
      var c := body[e.pathOffs];
      if c >= 0x80 {
        PathsPrefixFails(body, entries, k + 1);
        return Err(UnicodeDecodeError);
      }
      paths := paths + [[ByteChar(c)]];
    }
    assert entries[..|entries|] == entries;
    return Ok(paths);
  }

  /** The script body, as the statements run. */
  method RunScript(zlib: Zlib, buf: seq<byte>) returns (r: Run<Listing, PyError>)
    ensures r == ScriptSpec(zlib, buf)
  {
    var head := PyDecode(Head(buf, 16), 0);
    if |head| != 16 {
      return Err(StructError);
    }
    var header := Layout.HeaderOf(head);
    var region := PyDecode(Tail(buf, header.offs), header.offs);
    var z := zlib(Tail(region, 4));
    if z.None? {
      return Err(ZlibError);
    }
    var dcmp := z.value;
    if |dcmp| < 4 {
      return Err(StructError);
    }
    var n := Layout.WordAt(dcmp, 0);
    dcmp := dcmp[4..];
    var entries := UnpackEntriesLoop(dcmp, n);
    if !entries.Ok? {
      return entries.PropagateFailure();
    }
    var paths := PathsLoop(dcmp, entries.value);
    if !paths.Ok? {
      return paths.PropagateFailure();
    }
    return Ok(Listing(header, entries.value, paths.value));
  }

  /** The script's header is the Rust loaders' header: it unpacks exactly when the file has the
      16 header bytes, and then holds the same four fields. */
  lemma HeaderAgrees(buf: seq<byte>)
    ensures UnpackHeader(buf).Ok? <==> Layout.ReadHeader(buf).Some?
    ensures UnpackHeader(buf).Ok? ==> UnpackHeader(buf).value == Layout.ReadHeader(buf).value
  {
    if |buf| >= Layout.HEADER_SIZE {
      PyDecodeIsDecode(0, buf[..Layout.HEADER_SIZE]);
      assert ReadExact(buf, 0, Layout.HEADER_SIZE) == Some(buf[..Layout.HEADER_SIZE]);
    }
  }

  /** The script decodes the directory region to the end of the file rather than `cmp_size`
      bytes; its first `cmp_size` bytes are the Rust loaders' decoded compressed directory, so
      the stream handed to zlib starts with theirs. */
  lemma RegionAgrees(buf: seq<byte>, hd: Layout.Header)
    requires Keystream.SeedFits(hd.offs) && hd.offs + hd.cmpSize <= |buf|
    ensures var region := PyDecodeSpec(Tail(buf, hd.offs), hd.offs);
      && hd.cmpSize <= |region|
      && region[..hd.cmpSize] == Keystream.Decode(hd.offs, buf[hd.offs..hd.offs + hd.cmpSize])
  {
    var tail := buf[hd.offs..];
    PyDecodeIsDecode(hd.offs, tail);
    Keystream.DecodePrefix(hd.offs, tail, hd.cmpSize);
    assert tail[..hd.cmpSize] == buf[hd.offs..hd.offs + hd.cmpSize];
  }

  /** Record `i` of the script sits at `12 * i` of the stripped buffer, which is `4 + 12 * i`
      of the inflated directory: the script's records are the Rust loaders' records. */
  lemma EntriesAgree(dcmp: seq<byte>, n: nat)
    requires |dcmp| >= 4
    ensures UnpackEntries(dcmp[4..], n).Ok? <==> Layout.Records(dcmp, n).Some?
    ensures UnpackEntries(dcmp[4..], n).Ok? ==> UnpackEntries(dcmp[4..], n).value == Layout.Records(dcmp, n).value
  {
    var body := dcmp[4..];
    if 12 * n <= |body| {
      forall i | 0 <= i < n
        ensures body[12 * i..12 * i + 12] == dcmp[4 + 12 * i..4 + 12 * i + 12]
      {
      }
    }
  }

  /** The script applies path offsets to the stripped buffer: the one character it reads for a
      record is the byte four past `path_offs` in the inflated directory, where the Rust loaders
      start their `read_cstr`. */
  lemma PathByteShift(dcmp: seq<byte>, e: Layout.ResEntry)
    requires |dcmp| >= 4
    ensures PathOf(dcmp[4..], e).Ok? <==> e.pathOffs + 4 < |dcmp| && dcmp[e.pathOffs + 4] < 0x80
    ensures PathOf(dcmp[4..], e).Ok? ==> PathOf(dcmp[4..], e).value == [ByteChar(dcmp[e.pathOffs + 4])]
  {
  }

  /** A run that prints its list went through every record: the header fields are the Rust
      loaders' ones, the records are the directory's records, and there is one single-character
      path per record, the byte four past its `path_offs`. */
  lemma ScriptListing(zlib: Zlib, buf: seq<byte>)
    requires ScriptSpec(zlib, buf).Ok?
    ensures Layout.ReadHeader(buf).Some? && ScriptSpec(zlib, buf).value.header == Layout.ReadHeader(buf).value
    ensures var l := ScriptSpec(zlib, buf).value;
      var region := PyDecodeSpec(Tail(buf, l.header.offs), l.header.offs);
      var dcmp := zlib(Tail(region, 4));
      && dcmp.Some? && |dcmp.value| >= 4
      && Layout.Records(dcmp.value, Layout.WordAt(dcmp.value, 0)) == Some(l.entries)
      && |l.paths| == |l.entries|
      && forall i :: 0 <= i < |l.entries| ==>
           l.entries[i].pathOffs + 4 < |dcmp.value| && l.paths[i] == [ByteChar(dcmp.value[l.entries[i].pathOffs + 4])]
  {
    HeaderAgrees(buf);
    var l := ScriptSpec(zlib, buf).value;
    var region := PyDecodeSpec(Tail(buf, l.header.offs), l.header.offs);
    var dcmp := zlib(Tail(region, 4)).value;
    var body := dcmp[4..];
    EntriesAgree(dcmp, Layout.WordAt(dcmp, 0));
    PathsOutcome(body, l.entries);
    forall i | 0 <= i < |l.entries|
      ensures l.entries[i].pathOffs + 4 < |dcmp| && l.paths[i] == [ByteChar(dcmp[l.entries[i].pathOffs + 4])]
    {
      PathByteShift(dcmp, l.entries[i]);
    }
  }
}
