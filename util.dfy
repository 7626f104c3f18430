/** The helpers of `src/util.rs` (the `tag!` macro and `read_cstr`). The openct crate's
    `lib.rs` carries character-for-character copies of both, so this module models them too. */
module Util {
  import opened Bytes

  /** `tag!(b)`: `u32::from_be_bytes([b[3], b[2], b[1], b[0]])`. A literal shorter than four
      bytes does not compile, hence the precondition. */
  function Tag(b: seq<byte>): (t: u32)
    requires |b| >= 4
    ensures t == FromLeBytes(b[..4])
  {
    FromBeBytes([b[3], b[2], b[1], b[0]])
  }

  /** The `io::Error`s the readers here can report: the reader ran out of bytes before the
      buffer was full, or a DEFLATE decoder rejected its input. */
  datatype IoError = UnexpectedEof | InvalidInput

  /** The bytes as characters, one character per byte. */
  function Chars(bs: seq<byte>): (s: string)
    ensures |s| == |bs|
  {
    seq(|bs|, i requires 0 <= i < |bs| => ByteChar(bs[i]))
  }

  predicate NoNul(bs: seq<byte>)
  {
    forall i :: 0 <= i < |bs| ==> bs[i] != 0
  }

  /** The `while b[0] != 0` loop of `read_cstr`, run from the loop state: cursor `pos`, one-byte
      buffer `b`, string so far `s`. It yields the final string and cursor, or the read error. */
  function CStrLoop(buf: seq<byte>, pos: nat, b: byte, s: string): (r: Run<(string, nat), IoError>)
    ensures !r.Panicked?
    decreases if pos <= |buf| then |buf| - pos else 0
  {
    if b == 0 then Ok((s, pos))
    else if pos >= |buf| then Err(UnexpectedEof)
    else
      var c := buf[pos];
      CStrLoop(buf, pos + 1, c, if c != 0 then s + [ByteChar(c)] else s)
  }

  /** Once the guard has let the loop run, it reads up to and including the first NUL: the
      string grows by exactly the bytes before it, and a missing NUL is a read error. */
  lemma {:induction false} CStrLoopBody(buf: seq<byte>, pos: nat, b: byte, s: string)
    requires b != 0
    ensures CStrLoop(buf, pos, b, s).Err? <==> NoNul(if pos <= |buf| then buf[pos..] else [])
    ensures CStrLoop(buf, pos, b, s).Ok? ==>
      var (t, q) := CStrLoop(buf, pos, b, s).value;
      pos < q <= |buf| && buf[q - 1] == 0 && NoNul(buf[pos..q - 1]) && t == s + Chars(buf[pos..q - 1])
    decreases if pos <= |buf| then |buf| - pos else 0
  {
    if pos < |buf| {
      var c := buf[pos];
      assert buf[pos..] == [c] + buf[pos + 1..];
      if c != 0 {
        var s' := s + [ByteChar(c)];
        CStrLoopBody(buf, pos + 1, c, s');
        var r := CStrLoop(buf, pos + 1, c, s');
        if r.Ok? {
          var (t, q) := r.value;
          assert buf[pos..q - 1] == [c] + buf[pos + 1..q - 1];
          assert Chars(buf[pos..q - 1]) == [ByteChar(c)] + Chars(buf[pos + 1..q - 1]);
        }
      }
    }
  }

  /** The `while b[0] != 0` loop, executed from a given loop state. */
  method RunCStrLoop(buf: seq<byte>, pos: nat, b: byte, s: string) returns (r: Run<string, IoError>, next: nat)
    ensures r.Ok? <==> CStrLoop(buf, pos, b, s).Ok?
    ensures r.Ok? ==> (r.value, next) == CStrLoop(buf, pos, b, s).value
    ensures !r.Ok? ==> r == Err(UnexpectedEof)
  {
    var p, c, t := pos, b, s;
    while c != 0
      invariant CStrLoop(buf, p, c, t) == CStrLoop(buf, pos, b, s)
      decreases if p <= |buf| then |buf| - p else 0
    {
      if p >= |buf| {
        return Err(UnexpectedEof), p;
      }
      c := buf[p];
      p := p + 1;
      if c != 0 {
        t := t + [ByteChar(c)];
      }
    }
    return Ok(t), p;
  }

  /** `read_cstr`: the one-byte buffer starts out as `[0]`, so the loop guard fails at once and the
      result is the empty string, with nothing consumed. */
  method ReadCStr(buf: seq<byte>, pos: nat) returns (r: Run<string, IoError>, next: nat)
    ensures r == Ok("") && next == pos
  {
    var b: byte := 0;
    r, next := RunCStrLoop(buf, pos, b, "");
  }

  /** Whatever bytes the loop body reads, the string it builds never contains a NUL character. */
  lemma {:induction false} CStrLoopNoNul(buf: seq<byte>, pos: nat, b: byte, s: string)
    requires '\0' !in s
    ensures CStrLoop(buf, pos, b, s).Ok? ==> '\0' !in CStrLoop(buf, pos, b, s).value.0
    decreases if pos <= |buf| then |buf| - pos else 0
  {
    if b != 0 && pos < |buf| {
      var c := buf[pos];
      var s' := if c != 0 then s + [ByteChar(c)] else s;
      if c != 0 {
        ByteCharNul(c);
      }
      assert '\0' !in s';
      CStrLoopNoNul(buf, pos + 1, c, s');
    }
  }

  /** Only the zero byte becomes the NUL character. */
  lemma ByteCharNul(c: byte)
    requires c != 0
    ensures ByteChar(c) != '\0'
  {
  }
}
