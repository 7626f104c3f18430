# ResBin container codec

This project models the loaders of `resources.bin` in Schala/KajarEngine. `resources.bin` is the
game's asset archive. It starts with a 16-byte header whose signature is the tag `ARC1`. The
header, the compressed directory and every entry's block are hidden under an offset-seeded
keystream: the generator `seed := seed * 0x41C64E6D + 12345 (mod 2^32)` starts at
`0x19000000 + offs`, and each byte is XORed with the high byte of the new seed. The directory
inflates to a little-endian entry count followed by packed 12-byte records
(`path_offs`, `data_offs`, `size`).

The project models three loaders and the helpers they use:

- **`KajarResBin`** is the full loader of the kajar crate.
  - `load` reads the 16-byte key from the game executable, then the header, the directory and
    every entry, each entry keyed by its NUL-terminated path.
  - `decrypt` changes one entry in place. `dump` and `dump_all` write entries out.
- **`OpenctResBin`** is the openct loader: the same pipeline without the key. Its `read_cstr`
  never reads a byte, so every entry is keyed by the empty path.
- **`LegacyResBin`** is the older loader. It inflates the directory as raw DEFLATE, then copies
  each entry's bytes out of the inflated directory itself.
- **`DecodeScript`** is the Python cross-check. It has its own `decode` over unbounded
  integers, then unpacks the header, the records and one path character per record.

The shared pieces are modelled once:

- `Bytes`: bytes, `u32`, the little-endian packing, XOR, the cursor's `read_exact`, and the
  outcome type. A Rust panic is an outcome of its own (`Panicked`), not a precondition.
- `Util`: `tag!` and the `while`-loop `read_cstr`. This loop appears in `src/util.rs` and,
  identically, in `src/openct-import/src/lib.rs`.
- `KajarLib`: the `get_u8` loop `read_cstr`.
- `Keystream`: `decode`, which is the same in all three loaders.
- `Layout`: the header and record layouts.
- `Blocks`:
  - `decompress` and `get_u32_le`, shared by the kajar and openct loaders;
  - the directory read and the entry-block read they share.
- `Insertion`: the entry loop. It is fail-fast, and later records win on `insert`.

Every operation that works step by step is a method proved against a specification function:
the in-place `decode`, the loaders, the loops of `read_cstr`, and the records, entries, `decrypt`
and `dump_all` loops. The lemmas then state, about those functions:

- the order in which the checks report errors;
- which error variants can never be produced;
- what a successful load holds;
- the involutions of `decode` and of the `decrypt` mask;
- where the Python script agrees with the Rust loaders.

Where the code differs from its own doc comments or names, the model follows the code:

- `tag!` is documented as a 32-bit big endian integer (src/util.rs:6), but it packs its four
  bytes little endian.
- `read_cstr` is documented as reading a null-terminated string (src/util.rs:15). The
  `while`-loop version reads nothing and returns `""`.
- `decompress` is documented as inflating zlib-compressed data
  (src/kajar-import/src/resbin.rs:203, src/openct-import/src/resbin.rs:198). It calls
  `inflateInit2_` with window bits 31, and those select gzip framing.
- `EntryDataDecmp` is declared (src/openct-import/src/resbin.rs:79), but no path builds it. An
  entry's inflation failure is reported as `Decmp(code)`, without the entry's path.
- `get_u32_le`'s name says little endian, but it reads its first byte as the most significant
  one.

Other behaviour of the code worth knowing:

- A successful `decompress` is not checked to have produced exactly the declared size. When the
  stream ends early, the output keeps the zero padding of `vec![0; n]`.
- A path that is not terminated does not produce `PathName`. The `while`-loop `read_cstr` reads
  nothing, and the kajar `read_cstr` panics in `get_u8` instead.

## Model

| member | source | states |
|---|---|---|
| Util.Tag | src/util.rs:6-13 | `tag!` is the little-endian reading of the literal's first four bytes, despite the "big endian" comment; bytes past index 3 do not matter. The copies at src/openct-import/src/lib.rs:14-21 and src/kajar-import/src/lib.rs:18-25 are identical |
| Util.ReadCStr | src/openct-import/src/lib.rs:24-36 | as written, `b` starts at 0 so the loop never runs: the result is `Ok("")` and nothing is consumed; the copy at src/util.rs:16-28 is identical |
| Util.CStrLoopBody | src/util.rs:20-25 | once entered, the loop fails exactly when no NUL remains; otherwise it returns exactly the non-zero bytes before the first NUL, as chars, and stops just past that NUL |
| Util.RunCStrLoop | src/openct-import/src/lib.rs:28-33 | the `while` loop computes the loop specification; a `read_exact` failure propagates as `Err(UnexpectedEof)` |
| Util.CStrLoopNoNul | src/util.rs:22-24 | a string the loop returns never contains `'\0'` |
| KajarLib.CStr | src/kajar-import/src/lib.rs:39-51 | never `Err`; `Ok` holds the chars of the bytes before the first NUL; with no NUL left it panics with `BufferUnderflow` |
| KajarLib.ReadCStr | src/kajar-import/src/lib.rs:41-48 | the `loop`/`break` computes `CStr`, and on success the cursor moves past the string and its NUL (chars + 1) |
| KajarLib.CStrShape | src/kajar-import/src/lib.rs:43-45 | the string never contains `'\0'` |
| KajarLib.NoTerminator | src/kajar-import/src/lib.rs:42 | with no NUL from `pos` on, `get_u8` panics: `Panicked(BufferUnderflow)` |
| KajarLib.FirstTerminator | src/kajar-import/src/lib.rs:42-47 | the bytes up to the first NUL are exactly what is returned |
| KajarLib.WhileLoopBodyAgrees | src/kajar-import/src/lib.rs:39-51 | the `get_u8` loop agrees with the body of the `while` loop once entered: same string, same stop position, failing together |
| Keystream.DecodeInPlace | src/kajar-import/src/resbin.rs:194-201 | the in-place loop leaves the array equal to `Decode(offs, old contents)` when `0x19000000 + offs` fits in 32 bits |
| Keystream.KeyStreamAt | src/kajar-import/src/resbin.rs:197-199 | key byte `i` is the high byte of the seed after `i + 1` generator steps |
| Keystream.DecodeInvolution | src/openct-import/src/resbin.rs:189-196 | `decode` (here the openct copy, identical to the kajar one) keeps the length, and decoding twice with the same offset gives the input back |
| Keystream.DecodePrefix | src/kajar-import/src/resbin.rs:197-200 | decoding a prefix gives the prefix of the decoding |
| Layout.LeBytesRoundTrip | src/kajar-import/src/resbin.rs:28-43 | a `u32` field written little-endian reads back as itself |
| Layout.HeaderRoundTrip | src/kajar-import/src/resbin.rs:28-35 | the 16-byte header cast reads back the header it was written from |
| Layout.HeaderOfInjective | src/kajar-import/src/resbin.rs:28-35 | two 16-byte blocks with the same header are the same bytes |
| Layout.SignatureBytes | src/kajar-import/src/resbin.rs:92-94 | `sig == tag!(b"ARC1")` exactly when the decoded header starts with the bytes `A R C 1` |
| Layout.ReadHeader | src/kajar-import/src/resbin.rs:83-90 | a header exists exactly when the file has 16 bytes, and its bytes are the first 16 file bytes decoded with offset 0 |
| Layout.EntryRoundTrip | src/kajar-import/src/resbin.rs:37-43 | the 12-byte record cast reads back the record it was written from |
| Layout.SegmentRoundTrip | src/kajar-import/src/resbin.rs:106-113 | a directory written as a count and packed records reads back the same count and records, in order |
| Layout.ReadRecords | src/kajar-import/src/resbin.rs:108-113 | the records loop succeeds exactly when `4 + 12n` bytes exist and yields the `n` packed records in stored order |
| Blocks.Decompress | src/kajar-import/src/resbin.rs:204-232 | `Ok` exactly when `inflateInit2_` gives `Z_OK` and `inflate` gives `Z_STREAM_END`; then exactly `dcmp_size` bytes; otherwise `Decmp` with the failing code. The copy at src/openct-import/src/resbin.rs:199-227 is identical |
| Blocks.DecompressFill | src/kajar-import/src/resbin.rs:205-231 | the output is what libz wrote, padded with the zeros of `vec![0; dcmp_size]` |
| Blocks.GetU32Le | src/openct-import/src/resbin.rs:230-232 | panics with fewer than 4 bytes; otherwise reads `buf[0]` as the most significant byte; the copy at src/kajar-import/src/resbin.rs:235-237 is identical |
| Blocks.GetU32LeIsBigEndian | src/kajar-import/src/resbin.rs:235-237 | it agrees with a little-endian reading only on palindromic byte quadruples |
| Blocks.DirectorySegment | src/kajar-import/src/resbin.rs:96-103 | `CmpRead` exactly when `cmp_size` bytes at `offs` are missing; a panic exactly when `0x19000000 + offs` overflows or `cmp_size < 4`; success gives `size` bytes |
| Blocks.EntryBlock | src/kajar-import/src/resbin.rs:122-130 | a short read exactly when `size` bytes at `data_offs` are missing; a panic exactly on overflow or `size < 4`; success gives as many bytes as the big-endian `get_u32_le` of the decoded block says |
| Blocks.ReadInto | src/kajar-import/src/resbin.rs:97-100 | `vec![0; n]` filled by `read_exact` at a position: it succeeds exactly when the slice exists and then holds it |
| Blocks.DirectoryRecords | src/kajar-import/src/resbin.rs:105-113 | the table holds the count's number of records, verbatim and in order; `EntryRead` exactly when the segment is too short for them; a panic when it is too short for the count |
| Blocks.ReadHeaderRecord | src/kajar-import/src/resbin.rs:83-90 | the header read into a zeroed record and decoded in place is `ReadHeader` |
| Blocks.ReadDirectory | src/kajar-import/src/resbin.rs:96-103 | the directory read, decode and inflation compute `DirectorySegment` |
| Blocks.ReadDirectoryRecords | src/kajar-import/src/resbin.rs:96-113 | the directory read plus the records loop compute the directory table |
| Blocks.ReadEntryBlock | src/kajar-import/src/resbin.rs:122-130 | the entry read, decode, size and inflation compute `EntryBlock` |
| Insertion.InsertedKeys | src/openct-import/src/resbin.rs:134-151 | after the inserts, the keys are exactly the inserted paths |
| Insertion.InsertedLastWins | src/openct-import/src/resbin.rs:151 | `insert` replaces: the value under a path is the one of the last record with that path |
| Insertion.InsertedUntouched | src/openct-import/src/resbin.rs:151 | a path no later record mentions keeps its value |
| Insertion.InsertedSameKey | src/resbin.rs:112 | when every record has the same path, only the last value remains |
| Insertion.InsertedSize | src/openct-import/src/resbin.rs:134-151 | the map has at most `n` keys |
| Insertion.FoldAllOk | src/openct-import/src/resbin.rs:135-155 | the entry loop succeeds exactly when every record's step does, and then holds every pair inserted in order |
| Insertion.FoldFirstFailure | src/openct-import/src/resbin.rs:135-155 | the loop returns the first failing record's error |
| Insertion.FoldFailureIsStepFailure | src/openct-import/src/resbin.rs:135-155 | a failed loop failed with one record's error |
| Insertion.FoldErrors | src/openct-import/src/resbin.rs:135-155 | any error the loop returns is one a step can return |
| KajarResBin.FillEntries | src/kajar-import/src/resbin.rs:116-133 | the entry loop method computes the fail-fast, last-wins fold of the per-record steps |
| KajarResBin.ReadContainer | src/kajar-import/src/resbin.rs:83-133 | the header, signature, directory and entry stages compute the container specification |
| KajarResBin.Load | src/kajar-import/src/resbin.rs:71-140 | `load` computes its specification: executable, key, container file, container |
| KajarResBin.KeyReadFirst | src/kajar-import/src/resbin.rs:73-81 | an executable too short for the key gives `KeyRead`, whatever the container holds |
| KajarResBin.KeyBytes | src/kajar-import/src/resbin.rs:73-77 | the key of a loaded archive is exactly the 16 executable bytes at `0x398EE8` |
| KajarResBin.HeaderErrors | src/kajar-import/src/resbin.rs:87-94 | fewer than 16 bytes give `HeaderRead`; a decoded signature other than `ARC1` gives `HeaderMismatch` carrying the decoded value |
| KajarResBin.ContainerErrors | src/kajar-import/src/resbin.rs:80-139 | once the key is read, `load` fails exactly when the container does, with the same error |
| KajarResBin.StepFailures | src/kajar-import/src/resbin.rs:117-133 | an entry fails only with `EntryDataRead` or `Decmp` (or a panic) |
| KajarResBin.DirectoryFailures | src/kajar-import/src/resbin.rs:96-113 | the directory fails only with `CmpRead`, `Decmp` or `EntryRead` |
| KajarResBin.ContainerFailures | src/kajar-import/src/resbin.rs:83-133 | the container fails only with the header, directory and entry errors |
| KajarResBin.NeverCipherInitNorPathName | src/kajar-import/src/resbin.rs:120-138 | `load` never returns `CipherInit` (the key has 16 bytes) nor `PathName` (`read_cstr` panics instead) |
| KajarResBin.StepPath | src/kajar-import/src/resbin.rs:117-132 | a successful step pairs the record's path with the record and its inflated block |
| KajarResBin.LoadedArchive | src/kajar-import/src/resbin.rs:80-139 | a successful `load` read the container file; its header is the decoded header with signature `ARC1`, and its entries are the entry loop's map over the records of the directory read with that header |
| KajarResBin.LoadedFromContainer | src/kajar-import/src/resbin.rs:80-139 | a successful `load` had a container file whose read succeeded, and it holds that read's header and map |
| KajarResBin.LoadedContainer | src/kajar-import/src/resbin.rs:83-133 | a container read that succeeds passed the header checks, read its directory, ran the entry loop to `Ok`, and returns the decoded header with that loop's map |
| KajarResBin.LoadedEntries | src/kajar-import/src/resbin.rs:116-132 | a loaded map has at most `n` keys, and holds under each path the last record with it and that record's inflated block |
| KajarResBin.UnmaskInvolution | src/kajar-import/src/resbin.rs:149-156 | the mask changes only bytes 0..8, and masking twice restores the data |
| KajarResBin.BlocksWholeClosedForm | src/kajar-import/src/resbin.rs:158-162 | the block loop panics exactly when a partial chunk on one side is paired with a chunk of the other |
| KajarResBin.BlocksWholeSameLength | src/kajar-import/src/resbin.rs:158-162 | with equal lengths the loop panics exactly when the length is not a multiple of 8 |
| KajarResBin.DecryptBlocks | src/kajar-import/src/resbin.rs:158-162 | the chunk loop returns `Ok` exactly when every chunk pair is a whole block, otherwise panics |
| KajarResBin.Decrypted | src/kajar-import/src/resbin.rs:143-156 | `decrypt` keeps the set of paths |
| KajarResBin.DecryptTwice | src/kajar-import/src/resbin.rs:143-164 | decrypting the same path twice restores every entry |
| KajarResBin.ResBin.constructor | src/kajar-import/src/resbin.rs:135-139 | the archive object holds the loaded header, entries and key |
| KajarResBin.ResBin.Decrypt | src/kajar-import/src/resbin.rs:143-165 | an unknown path is `EntryPath` and changes nothing; otherwise only that entry's first 8 bytes change (XOR mask), and the result is an index panic below 8 bytes, a length panic for a partial block, or `Ok` |
| KajarResBin.ResBin.Dump | src/kajar-import/src/resbin.rs:168-179 | an unknown path is `EntryPath`; otherwise `Ok` exactly when the entry's data is written, else `Dump` |
| KajarResBin.ResBin.DumpAll | src/kajar-import/src/resbin.rs:182-190 | every path in iteration order (each key listed once) is dumped until the first failure, which is returned; `Ok` exactly when all succeed |
| OpenctResBin.ResBin.DumpEntry | src/openct-import/src/resbin.rs:161-174 | an unknown path is `EntryPath`; otherwise `Ok` exactly when the entry's data is written, else `Dump` |
| OpenctResBin.ResBin.DumpAll | src/openct-import/src/resbin.rs:177-185 | fail-fast over the iteration order (each key listed once); `Ok` exactly when every dump succeeds |
| OpenctResBin.ReadEntry | src/openct-import/src/resbin.rs:136-151 | one pass of the entry loop computes the step specification |
| OpenctResBin.FillEntries | src/openct-import/src/resbin.rs:133-155 | the entry loop computes the fail-fast, last-wins fold |
| OpenctResBin.Load | src/openct-import/src/resbin.rs:92-158 | `load` computes its specification |
| OpenctResBin.LoadErrors | src/openct-import/src/resbin.rs:93-120 | errors come in this order: `FilePath`, `HeaderRead`, `HeaderMismatch(decoded sig)`, `CmpRead`, then `Decmp` for the directory |
| OpenctResBin.HeaderMismatchValue | src/openct-import/src/resbin.rs:106-110 | a decoded signature other than `ARC1` is reported with its decoded value |
| OpenctResBin.StepFailures | src/openct-import/src/resbin.rs:138-153 | a step succeeds exactly when the entry block does, under path `""`; it fails only with `EntryDataRead("")` or `Decmp` |
| OpenctResBin.EntryLoopErrors | src/openct-import/src/resbin.rs:135-155 | the entry loop fails only with `EntryDataRead` or `Decmp` |
| OpenctResBin.BufferReported | src/openct-import/src/resbin.rs:98-155 | loading a read buffer never reports `PathName`, `EntryDataDecmp` or `Inflate` |
| OpenctResBin.DirectoryReported | src/openct-import/src/resbin.rs:112-155 | once the header is checked, neither does the rest |
| OpenctResBin.NeverPathNameNorEntryDataDecmp | src/openct-import/src/resbin.rs:79-153 | `load` never returns `PathName`, `EntryDataDecmp` or `Inflate` |
| OpenctResBin.LoadedHeader | src/openct-import/src/resbin.rs:102-110 | a loaded file had a 16-byte header with the `ARC1` signature |
| OpenctResBin.LoadedDirectory | src/openct-import/src/resbin.rs:112-131 | its directory table was read |
| OpenctResBin.LoadedMap | src/openct-import/src/resbin.rs:133-155 | its entry loop succeeded |
| OpenctResBin.LoadOk | src/openct-import/src/resbin.rs:92-157 | a loaded archive is the decoded header, the directory's records and the entry loop's map |
| OpenctResBin.EntdataVerbatim | src/openct-import/src/resbin.rs:123-131 | `entdata` is all `n` records, verbatim and in stored order |
| OpenctResBin.SingleEntry | src/openct-import/src/resbin.rs:134-151 | every path is `""`, so the map is empty for no records and otherwise holds only the last record's inflated block |
| OpenctResBin.LoadEntries | src/openct-import/src/resbin.rs:134-157 | a loaded archive inflated every record's block and holds the last one under `""` |
| LegacyResBin.Inflated | src/resbin.rs:85 | `read_exact` from the decoder succeeds exactly when it yields `n` bytes, and then holds `n` bytes |
| LegacyResBin.InflatedIgnoresRest | src/resbin.rs:85 | what the decoder yields beyond `n` bytes does not matter |
| LegacyResBin.Segment | src/resbin.rs:77-88 | the inflated directory has `size` bytes; it fails only with `CmpRead` or `Inflate` |
| LegacyResBin.SegmentIsPrefix | src/resbin.rs:77-88 | success exactly when the read, the offset and `cmp_size >= 4` are fine and the decoder yields `size` bytes; the result is the first `size` bytes yielded |
| LegacyResBin.SegmentInflateError | src/resbin.rs:84-88 | a decoder that stops short gives `Inflate`, `InvalidInput` exactly when the stream is corrupt |
| LegacyResBin.DirectoryRecords | src/resbin.rs:90-98 | the table holds the count's number of records, verbatim and in order; `EntryRead` exactly when the segment is too short |
| LegacyResBin.DecodeBlock | src/resbin.rs:123-132 | `Ok(())` exactly when `0x19000000 + offs` fits, then the array is decoded; otherwise the debug-build panic, nothing changed |
| LegacyResBin.ReadSegment | src/resbin.rs:77-88 | the directory read, decode and inflation compute `Segment` |
| LegacyResBin.ReadDirectoryTable | src/resbin.rs:77-98 | the segment, count and records loop compute the directory table |
| LegacyResBin.ReadEntry | src/resbin.rs:102-115 | one pass of the entry loop computes the step specification |
| LegacyResBin.FillEntries | src/resbin.rs:100-116 | the entry loop computes the fail-fast, last-wins fold |
| LegacyResBin.New | src/resbin.rs:63-119 | `new` computes its specification |
| LegacyResBin.LoadErrors | src/resbin.rs:67-75 | fewer than 16 bytes give `HeaderRead`; a wrong decoded signature gives `HeaderMismatch(sig)`; then the directory decides |
| LegacyResBin.DirectoryErrors | src/resbin.rs:77-88 | a short container is `CmpRead`; the directory's failures and panics are what `new` returns |
| LegacyResBin.EntryLoopOutcome | src/resbin.rs:101-116 | the loop succeeds exactly when every record's bytes lie inside the inflated directory, and otherwise fails with `EntryDataRead("")` |
| LegacyResBin.SingleEntry | src/resbin.rs:101-112 | every path is `""`, so the map is empty for no records and otherwise holds only the last record's bytes |
| LegacyResBin.DirectoryNeverPathName | src/resbin.rs:90-116 | once the header is checked, `PathName` never occurs |
| LegacyResBin.NeverPathName | src/resbin.rs:104-115 | `new` never returns `PathName` |
| LegacyResBin.LoadOk | src/resbin.rs:63-118 | a loaded archive is the decoded header, the directory's records and the entry loop's map |
| LegacyResBin.LoadedRecords | src/resbin.rs:90-98 | `entdata` is all `n` records, verbatim and in stored order |
| LegacyResBin.LoadedEntries | src/resbin.rs:101-118 | a loaded archive holds at most one entry, under `""`: the last record's bytes sliced from the inflated directory, neither decoded nor inflated |
| DecodeScript.MaskStep | utils/decode.py:14 | masking after the multiply-add is one step of the Rust generator |
| DecodeScript.PySeedStep | utils/decode.py:11-14 | after `i + 1` masked steps the Python seed is the Rust seed after `i + 1` steps |
| DecodeScript.PyDecode | utils/decode.py:10-16 | the loop keeps the length, and byte `i` is `buf[i] ^ (s_{i+1} >> 24)` with `s_0 = 0x19000000 + offset` reduced to 32 bits |
| DecodeScript.PyDecodeIsDecode | utils/decode.py:11-15 | where the Rust addition does not overflow, Python `decode` equals Rust `decode` byte for byte |
| DecodeScript.PyDecodeInvolution | utils/decode.py:10-16 | Python `decode` is an involution for a fixed offset |
| DecodeScript.UnpackHeader | utils/decode.py:23-25 | the header unpacks from the first 16 bytes or raises `struct.error`; there is no signature check |
| DecodeScript.UnpackEntries | utils/decode.py:32-33 | `n` records exactly when `12n` bytes exist, else `struct.error` |
| DecodeScript.PathOf | utils/decode.py:37 | format `'s'` reads one byte: a one-char path when it is ASCII, `UnicodeDecodeError` above 0x7F, `struct.error` past the end |
| DecodeScript.Paths | utils/decode.py:35-37 | on success, one path per record |
| DecodeScript.PathsOutcome | utils/decode.py:35-37 | the paths loop succeeds exactly when every path does, lists them in order, and otherwise raises the first failure |
| DecodeScript.UnpackEntriesLoop | utils/decode.py:30-33 | the `range(0, n*12, 12)` loop computes `UnpackEntries` |
| DecodeScript.PathsLoop | utils/decode.py:35-37 | the paths loop computes `Paths` |
| DecodeScript.RunScript | utils/decode.py:19-37 | the script body computes its specification |
| DecodeScript.HeaderAgrees | utils/decode.py:23-25 | the script's header is the Rust loaders' header, and it exists exactly when theirs does |
| DecodeScript.RegionAgrees | utils/decode.py:26 | the region decoded to the end of the file starts with the Rust loaders' decoded `cmp_size` bytes |
| DecodeScript.EntriesAgree | utils/decode.py:28-33 | the records at `12i` of the stripped buffer are the Rust records at `4 + 12i` |
| DecodeScript.PathByteShift | utils/decode.py:37 | the path is read from the stripped buffer, 4 bytes past the Rust loaders' `path_offs` |
| DecodeScript.ScriptListing | utils/decode.py:23-37 | a run that lists its paths saw the Rust header, the directory's records and one single-char path per record |

## Left out

- File and process I/O is not modelled. `fs::read` results are inputs: the bytes, or `None` for a failed read. `fs::write` is a `Writer` oracle. The Python script's `open`, `argv`, `.out` file and `print` are not part of the model; the modelled script body starts from the file's bytes and ends with its lists. The CLI `src/openct/src/main.rs` is not part of this model.
- The `io::Error` payloads are not modelled. Every cursor read failure is `UnexpectedEof`; `ExeRead`, `FileRead` and `FilePath` carry no error.
- zlib and flate2 are foreign code, taken as parameters:
  - `Libz` gives the `inflateInit2_` and `inflate` codes and the bytes written;
  - `Deflater` gives the bytes the raw DEFLATE decoder yields and whether it found the stream corrupt;
  - `Zlib` models the Python `zlib.decompress`.
  The codecs themselves are not modelled. Neither is the difference between window bits 31 (gzip framing) and flate2's raw DEFLATE.
- Blowfish is foreign code. Its output lands in a local buffer that `decrypt` drops. Only the chunk-length panics of its loop are modelled, and the cipher object is the key bytes.
- `bytemuck` casts are modelled as explicit little-endian field decoding, as on a little-endian host.
- `dbg!` output and the `ws` nom combinator are not modelled. They are debugging output and a thin nom wrapper.
- `PathBuf` is modelled as the raw string. Component-wise equality, `push` and `as_path` are not modelled.
- `HashMap` iteration order is unspecified. `dump_all` takes it as the `order` parameter.
- The `to_str` skip of non-UTF-8 paths in `dump_all` is not modelled. Paths come from chars `\0`–`\xFF` pushed onto a `String`, which is always valid UTF-8.
- The copies of `tag!`, `read_cstr`, `decode`, `decompress` and `get_u32_le` are modelled once each. The two `while`-loop `read_cstr` copies are identical, and so are the kajar and openct copies of the rest.
- `src/kajar-import/src/lib.rs` does not compile as written: `get_u8` is called on an `impl Read`. `KajarLib` gives `read_cstr` the `bytes::Buf` meaning, which panics when the input runs out.
- LegacyResBin.DecodeBlock: returns the debug-build panic for an overflowing `0x19000000 + offs`, not the release build's silent wrap-around. The same holds for `decode` in every loader.
- The out-of-memory failures of `vec![0; n]` for huge sizes are not modelled.
- The Python `int.to_bytes(1)` call needs Python 3.11 or later for its default byte order. The model assumes such an interpreter.
- The Python `Header.format` (`'>I<III'`) and `Entry.format` attributes are never used by the script, so they are not modelled.
- KajarResBin.Load: does not build the Blowfish cipher. `BlowfishLE::new_from_slice` takes a key of 4 to 56 bytes, and the key always has 16, so `CipherInit` cannot occur (see `NeverCipherInitNorPathName`).
- When flate2 reports corruption rather than a short stream is the `corrupt` flag of the `Deflater` parameter; the model does not derive it from the stream.
