/** `read_cstr` of the kajar crate (`src/kajar-import/src/lib.rs`): a `loop` that takes one byte at
    a time with `bytes::Buf::get_u8` and stops at the first NUL. Its `tag!` is the same macro as
    `Util.Tag`. */
module KajarLib {
  import opened Bytes
  import Util

  /** The string `read_cstr` returns when the cursor is at `pos`: the bytes before the first NUL,
      one character per byte. Running out of bytes first makes `get_u8` panic. */
  function CStr(buf: seq<byte>, pos: nat): (r: Run<string, Util.IoError>)
    ensures !r.Err?
    ensures r.Ok? ==>
      pos + |r.value| < |buf| && buf[pos + |r.value|] == 0 &&
      Util.NoNul(buf[pos..pos + |r.value|]) && r.value == Util.Chars(buf[pos..pos + |r.value|])
    ensures r.Panicked? ==> r.kind == BufferUnderflow && Util.NoNul(if pos <= |buf| then buf[pos..] else [])
    decreases if pos <= |buf| then |buf| - pos else 0
  {
    if pos >= |buf| then Panicked(BufferUnderflow)
    else if buf[pos] == 0 then Ok("")
    else
      var rest := CStr(buf, pos + 1);
      assert buf[pos..] == [buf[pos]] + buf[pos + 1..];
      if rest.Ok? then
        var t := rest.value;
        assert buf[pos..pos + 1 + |t|] == [buf[pos]] + buf[pos + 1..pos + 1 + |t|];
        Ok([ByteChar(buf[pos])] + t)
      else rest
  }

  /** The string `read_cstr` returns never contains a NUL character. */
  lemma CStrShape(buf: seq<byte>, pos: nat)
    requires CStr(buf, pos).Ok?
    ensures '\0' !in CStr(buf, pos).value
  {
    var s := CStr(buf, pos).value;
    forall i | 0 <= i < |s|
      ensures s[i] != '\0'
    {
      Util.ByteCharNul(buf[pos + i]);
    }
  }

  /** `read_cstr`: push each non-NUL byte as a character, break on NUL. */
  method ReadCStr(buf: seq<byte>, pos: nat) returns (r: Run<string, Util.IoError>, next: nat)
    ensures r == CStr(buf, pos)
    ensures r.Ok? ==> next == pos + |r.value| + 1
  {
    var s := "";
    var p := pos;
    while true
      invariant p == pos + |s|
      invariant |s| > 0 ==> p <= |buf|
      invariant p <= |buf| ==> Util.NoNul(buf[pos..p]) && s == Util.Chars(buf[pos..p])
      decreases if p <= |buf| then |buf| - p else 0
    {
      if p >= |buf| {
        NoTerminator(buf, pos);
        return Panicked(BufferUnderflow), p;
      }
      var c := buf[p];
      assert buf[pos..p + 1] == buf[pos..p] + [c];
      if c != 0 {
        s := s + [ByteChar(c)];
        p := p + 1;
      } else {
        FirstTerminator(buf, pos, s);
        return Ok(s), p + 1;
      }
    }
  }

  /** No NUL from `pos` to the end of the buffer: `read_cstr` panics. */
  lemma NoTerminator(buf: seq<byte>, pos: nat)
    requires pos <= |buf| ==> Util.NoNul(buf[pos..])
    ensures CStr(buf, pos) == Panicked(BufferUnderflow)
  {
  }

  /** The first NUL at `pos + |s|`, preceded by the bytes of `s`: `read_cstr` returns `s`. */
  lemma FirstTerminator(buf: seq<byte>, pos: nat, s: string)
    requires pos + |s| < |buf| && buf[pos + |s|] == 0
    requires Util.NoNul(buf[pos..pos + |s|]) && s == Util.Chars(buf[pos..pos + |s|])
    ensures CStr(buf, pos) == Ok(s)
  {
    var r := CStr(buf, pos);
    var tail := buf[pos..];
    assert tail[|s|] == 0;
    assert r.Ok?;
    var t := r.value;
    assert tail[..|s|] == buf[pos..pos + |s|];
    assert tail[..|t|] == buf[pos..pos + |t|];
    FirstNulUnique(tail, |s|, |t|);
  }

  /** A byte string has at most one first NUL. */
  lemma FirstNulUnique(bs: seq<byte>, a: nat, b: nat)
    requires a < |bs| && b < |bs| && bs[a] == 0 && bs[b] == 0
    requires Util.NoNul(bs[..a]) && Util.NoNul(bs[..b])
    ensures a == b
  {
  }

  /** The loop body of the older `read_cstr` (the `while b[0] != 0` version), if its guard ever let
      it run, would read the same string as this one; where this one panics, that one returns the
      read error. */
  lemma WhileLoopBodyAgrees(buf: seq<byte>, pos: nat, b: byte)
    requires b != 0
    ensures CStr(buf, pos).Ok? <==> Util.CStrLoop(buf, pos, b, "").Ok?
    ensures CStr(buf, pos).Ok? ==> Util.CStrLoop(buf, pos, b, "").value == (CStr(buf, pos).value, pos + |CStr(buf, pos).value| + 1)
  {
    Util.CStrLoopBody(buf, pos, b, "");
    var loop := Util.CStrLoop(buf, pos, b, "");
    if loop.Ok? {
      var (t, q) := loop.value;
      assert "" + Util.Chars(buf[pos..q - 1]) == Util.Chars(buf[pos..q - 1]);
      FirstTerminator(buf, pos, Util.Chars(buf[pos..q - 1]));
    }
  }
}
