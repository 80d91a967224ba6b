/**
 * The state of a `ReplayStream` as a value, and the reads it offers as pure
 * functions. A read returns its result together with the state it leaves
 * behind, on failure as well as on success, because the header decoder goes
 * on after an ignored failed read.
 *
 * The stream holds a queue of inflated bytes (`buffer`) and the compressed
 * blocks not yet inflated (`source`). Inflating is not modelled: each block
 * is given as the bytes zlib produces for it, or as `Corrupt` when reading
 * the block header or inflating it fails.
 */
module ReplayStreams {
  import opened Wrappers
  import opened Bytes
  import opened ReplayTypes

  datatype Block = Inflated(bytes: seq<Byte>) | Corrupt

  datatype Stream = Stream(buffer: seq<Byte>, source: seq<Block>)

  /** A value taken off the stream, with the state after it. */
  datatype Got<+T> = Got(value: T, rest: Stream)

  /** The outcome of a read and the state it leaves. */
  datatype Read<+T> = Read(result: Result<T, ParseError>, rest: Stream) {
    predicate IsFailure() {
      result.Err?
    }

    function PropagateFailure<U>(): Read<U>
      requires result.Err?
    {
      Read(Err(result.error), rest)
    }

    function Extract(): Got<T>
      requires result.Ok?
    {
      Got(result.value, rest)
    }
  }

  /** A measure every successful read shrinks. */
  function SourceSize(source: seq<Block>): nat
  {
    if source == [] then 0
    else (if source[0].Inflated? then |source[0].bytes| else 0) + 1 + SourceSize(source[1..])
  }

  function Size(st: Stream): nat
  {
    |st.buffer| + SourceSize(st.source)
  }

  /**
   * `decompress_data`: inflate the next block onto the end of the buffer.
   * No block left is an error; a corrupt block is consumed and reported.
   */
  function Refill(st: Stream): (r: Read<()>)
    ensures st.source != [] ==> Size(r.rest) < Size(st)
    ensures st.source == [] ==> r.rest == st
  {
    if st.source == [] then Read(Err(EndOfData), st)
    else match st.source[0]
      case Corrupt => Read(Err(BadBlock), Stream(st.buffer, st.source[1..]))
      case Inflated(bytes) => Read(Ok(()), Stream(st.buffer + bytes, st.source[1..]))
  }

  /** One round of the `read_bytes` loop: refill if the buffer is empty, then pop. */
  function NextByte(st: Stream): (r: Read<Byte>)
    ensures Size(r.rest) <= Size(st)
    ensures r.result.Ok? ==> Size(r.rest) < Size(st)
  {
    var filled :- if |st.buffer| < 1 then Refill(st) else Read(Ok(()), st);
    var buf := filled.rest.buffer;
    if buf == [] then Read(Err(EndOfData), filled.rest)
    else Read(Ok(buf[0]), Stream(buf[1..], filled.rest.source))
  }

  /** The `read_bytes` loop: `n` more bytes appended to `acc`. */
  function TakeAcc(st: Stream, n: nat, acc: seq<Byte>): (r: Read<seq<Byte>>)
    ensures Size(r.rest) <= Size(st)
    ensures r.result.Ok? ==> |r.result.value| == |acc| + n && r.result.value[..|acc|] == acc
    ensures r.result.Ok? ==> Size(r.rest) + n <= Size(st)
    decreases n
  {
    if n == 0 then Read(Ok(acc), st)
    else
      var b :- NextByte(st);
      TakeAcc(b.rest, n - 1, acc + [b.value])
  }

  /** `read_bytes(n)`. */
  function Take(st: Stream, n: nat): (r: Read<seq<Byte>>)
    ensures Size(r.rest) <= Size(st)
    ensures r.result.Ok? ==> |r.result.value| == n && Size(r.rest) + n <= Size(st)
  {
    TakeAcc(st, n, [])
  }

  // ---------------------------------------------------------------------
  // What the stream can deliver
  // ---------------------------------------------------------------------

  /**
   * The bytes the leading blocks inflate to, up to the first corrupt or
   * empty block: a refill that adds nothing makes the next pop fail.
   */
  function Deliverable(source: seq<Block>): seq<Byte>
  {
    if source == [] then []
    else match source[0]
      case Corrupt => []
      case Inflated(bytes) => if bytes == [] then [] else bytes + Deliverable(source[1..])
  }

  /** Every byte the stream yields before its first failure, in order. */
  function Readable(st: Stream): seq<Byte>
  {
    st.buffer + Deliverable(st.source)
  }

  /** A pop succeeds exactly when a byte is readable, and yields the first one. */
  lemma NextByteReadable(st: Stream)
    ensures NextByte(st).result.Ok? <==> |Readable(st)| > 0
    ensures NextByte(st).result.Ok? ==>
              NextByte(st).result.value == Readable(st)[0]
              && Readable(NextByte(st).rest) == Readable(st)[1..]
  {
    if st.buffer == [] && st.source != [] && st.source[0].Inflated? && st.source[0].bytes != [] {
      var bytes := st.source[0].bytes;
      assert Readable(st) == bytes + Deliverable(st.source[1..]);
      assert Readable(NextByte(st).rest) == bytes[1..] + Deliverable(st.source[1..]);
    }
  }

  lemma {:induction false} TakeAccReadable(st: Stream, n: nat, acc: seq<Byte>)
    ensures TakeAcc(st, n, acc).result.Ok? <==> n <= |Readable(st)|
    ensures TakeAcc(st, n, acc).result.Ok? ==>
              TakeAcc(st, n, acc).result.value == acc + Readable(st)[..n]
              && Readable(TakeAcc(st, n, acc).rest) == Readable(st)[n..]
    decreases n
  {
    if n > 0 {
      NextByteReadable(st);
      TakeAccStep(st, n, acc);
      var b := NextByte(st);
      if b.result.Ok? {
        TakeAccReadable(b.rest, n - 1, acc + [b.result.value]);
        if n <= |Readable(st)| {
          SliceAfterFirst(Readable(st), n);
        }
      }
    }
  }

  /** A take of `n > 0` bytes is a pop, then a take of the other `n - 1`. */
  lemma TakeAccStep(st: Stream, n: nat, acc: seq<Byte>)
    requires n > 0
    ensures NextByte(st).result.Err? ==> TakeAcc(st, n, acc).result.Err?
    ensures NextByte(st).result.Ok? ==>
              TakeAcc(st, n, acc) == TakeAcc(NextByte(st).rest, n - 1, acc + [NextByte(st).result.value])
  {
  }

  /** The first `n` and the rest after them, seen from the second element. */
  lemma SliceAfterFirst(r: seq<Byte>, n: nat)
    requires 0 < n <= |r|
    ensures r[..n] == [r[0]] + r[1..][..n - 1] && r[n..] == r[1..][n - 1..]
  {
  }

  /**
   * `read_bytes(n)` succeeds exactly when `n` bytes are readable; it returns
   * the first `n` of them and leaves the rest readable.
   */
  lemma TakeReadable(st: Stream, n: nat)
    ensures Take(st, n).result.Ok? <==> n <= |Readable(st)|
    ensures Take(st, n).result.Ok? ==>
              Take(st, n).result.value == Readable(st)[..n]
              && Readable(Take(st, n).rest) == Readable(st)[n..]
  {
    TakeAccReadable(st, n, []);
  }

  /** A read the buffer can serve leaves the compressed blocks untouched. */
  lemma {:induction false} TakeAccFromBuffer(st: Stream, n: nat, acc: seq<Byte>)
    requires n <= |st.buffer|
    ensures TakeAcc(st, n, acc) == Read(Ok(acc + st.buffer[..n]), Stream(st.buffer[n..], st.source))
    decreases n
  {
    if n > 0 {
      var rest := Stream(st.buffer[1..], st.source);
      assert NextByte(st) == Read(Ok(st.buffer[0]), rest);
      assert TakeAcc(st, n, acc) == TakeAcc(rest, n - 1, acc + [st.buffer[0]]);
      TakeAccFromBuffer(rest, n - 1, acc + [st.buffer[0]]);
      assert st.buffer[..n] == [st.buffer[0]] + rest.buffer[..n - 1];
      assert (acc + [st.buffer[0]]) + rest.buffer[..n - 1] == acc + st.buffer[..n];
      assert st.buffer[n..] == rest.buffer[n - 1..];
    } else {
      assert acc + st.buffer[..0] == acc && st.buffer[0..] == st.buffer;
    }
  }

  lemma TakeFromBuffer(st: Stream, n: nat)
    requires n <= |st.buffer|
    ensures Take(st, n) == Read(Ok(st.buffer[..n]), Stream(st.buffer[n..], st.source))
  {
    TakeAccFromBuffer(st, n, []);
  }

  // ---------------------------------------------------------------------
  // Fixed-width reads (byteorder, little endian)
  // ---------------------------------------------------------------------

  /** `read_unsigned_byte`. */
  function UnsignedByte(st: Stream): (r: Read<Byte>)
    ensures Size(r.rest) <= Size(st)
    ensures r.result.Ok? ==> Size(r.rest) < Size(st)
  {
    var g :- Take(st, 1);
    Read(Ok(g.value[0]), g.rest)
  }

  lemma UnsignedByteReadable(st: Stream)
    ensures UnsignedByte(st).result.Ok? <==> |Readable(st)| > 0
    ensures UnsignedByte(st).result.Ok? ==>
              UnsignedByte(st).result.value == Readable(st)[0] && Readable(UnsignedByte(st).rest) == Readable(st)[1..]
  {
    TakeReadable(st, 1);
  }

  /** An `n`-byte little-endian unsigned read (`read_u16` / `read_u32` / `read_u64`). */
  function Uint(st: Stream, n: nat): (r: Read<nat>)
    ensures Size(r.rest) <= Size(st)
    ensures r.result.Ok? ==> r.result.value < Pow2(8 * n) && Size(r.rest) + n <= Size(st)
  {
    var g :- Take(st, n);
    Read(Ok(LeUint(g.value)), g.rest)
  }

  /** `read_unsigned_word`. */
  function UnsignedWord(st: Stream): (r: Read<nat>)
    ensures Size(r.rest) <= Size(st)
    ensures r.result.Ok? ==> r.result.value < 0x1_0000 && Size(r.rest) < Size(st)
  {
    Pow2Widths();
    Uint(st, 2)
  }

  /** `read_unsigned_dword`. */
  function UnsignedDword(st: Stream): (r: Read<nat>)
    ensures Size(r.rest) <= Size(st)
    ensures r.result.Ok? ==> r.result.value < 0x1_0000_0000 && Size(r.rest) < Size(st)
  {
    Pow2Widths();
    Uint(st, 4)
  }

  /** `read_unsigned_qword`. */
  function UnsignedQword(st: Stream): (r: Read<nat>)
    ensures Size(r.rest) <= Size(st)
    ensures r.result.Ok? ==> r.result.value < 0x1_0000_0000_0000_0000 && Size(r.rest) < Size(st)
  {
    Pow2Widths();
    Uint(st, 8)
  }

  /** `read_signed_dword`: the two's complement reading of four bytes. */
  function SignedDword(st: Stream): (r: Read<int>)
    ensures Size(r.rest) <= Size(st)
    ensures r.result.Ok? ==> -0x8000_0000 <= r.result.value < 0x8000_0000 && Size(r.rest) < Size(st)
  {
    var g :- UnsignedDword(st);
    Read(Ok(ToI32(g.value)), g.rest)
  }

  /** `read_float32`, kept as its four raw bytes. */
  function Float32(st: Stream): (r: Read<seq<Byte>>)
    ensures Size(r.rest) <= Size(st)
    ensures r.result.Ok? ==> |r.result.value| == 4 && Size(r.rest) < Size(st)
  {
    Take(st, 4)
  }

  /** Fixed-width reads take exactly their width off the readable bytes. */
  lemma UintReadable(st: Stream, n: nat)
    ensures Uint(st, n).result.Ok? <==> n <= |Readable(st)|
    ensures Uint(st, n).result.Ok? ==>
              Uint(st, n).result.value == LeUint(Readable(st)[..n])
              && Readable(Uint(st, n).rest) == Readable(st)[n..]
  {
    TakeReadable(st, n);
  }

  /** `read_signed_dword` reads the i32 whose little-endian two's complement bytes are the next four. */
  lemma SignedDwordReadable(st: Stream)
    ensures SignedDword(st).result.Ok? <==> 4 <= |Readable(st)|
    ensures SignedDword(st).result.Ok? ==>
              LeUint(Readable(st)[..4]) < 0x1_0000_0000
              && SignedDword(st).result.value == ToI32(LeUint(Readable(st)[..4]))
              && Readable(SignedDword(st).rest) == Readable(st)[4..]
  {
    UintReadable(st, 4);
  }

  /** `read_float32` takes the next four readable bytes, unchanged. */
  lemma Float32Readable(st: Stream)
    ensures Float32(st).result.Ok? <==> 4 <= |Readable(st)|
    ensures Float32(st).result.Ok? ==>
              Float32(st).result.value == Readable(st)[..4]
              && Readable(Float32(st).rest) == Readable(st)[4..]
  {
    TakeReadable(st, 4);
  }

  // ---------------------------------------------------------------------
  // NUL-terminated strings
  // ---------------------------------------------------------------------

  /** The loop of `read_null_terminated_string`: bytes before the next 0. */
  function UntilNul(st: Stream, acc: seq<Byte>): (r: Read<seq<Byte>>)
    ensures Size(r.rest) <= Size(st)
    ensures r.result.Ok? ==> Size(r.rest) + |r.result.value| - |acc| < Size(st)
    decreases Size(st)
  {
    var b :- UnsignedByte(st);
    if b.value == 0 then Read(Ok(acc), b.rest)
    else UntilNul(b.rest, acc + [b.value])
  }

  /** `read_null_terminated_string`: the bytes before the 0, which must be UTF-8. */
  function NulTerminated(st: Stream): (r: Read<Text>)
    ensures Size(r.rest) <= Size(st)
    ensures r.result.Ok? ==> ValidUtf8(r.result.value) && Size(r.rest) + |r.result.value| < Size(st)
  {
    var g :- UntilNul(st, []);
    if ValidUtf8(g.value) then Read(Ok(g.value), g.rest) else Read(Err(InvalidUtf8), g.rest)
  }

  /** `read_encoded_string`: the bytes up to and including the 0, not checked. */
  function Encoded(st: Stream): (r: Read<seq<Byte>>)
    ensures Size(r.rest) <= Size(st)
    ensures r.result.Ok? ==> |r.result.value| > 0 && r.result.value[|r.result.value| - 1] == 0
  {
    var g :- UntilNul(st, []);
    Read(Ok(g.value + [0]), g.rest)
  }

  /** Index of the first 0 in `s`. */
  function FirstNul(s: seq<Byte>): (i: nat)
    requires 0 in s
    ensures i < |s| && s[i] == 0 && 0 !in s[..i]
  {
    if s[0] == 0 then 0 else FirstNul(s[1..]) + 1
  }

  lemma {:induction false} UntilNulReadable(st: Stream, acc: seq<Byte>)
    ensures UntilNul(st, acc).result.Ok? <==> 0 in Readable(st)
    ensures UntilNul(st, acc).result.Ok? ==>
              UntilNul(st, acc).result.value == acc + Readable(st)[..FirstNul(Readable(st))]
              && Readable(UntilNul(st, acc).rest) == Readable(st)[FirstNul(Readable(st)) + 1..]
    decreases Size(st)
  {
    var s := Readable(st);
    UnsignedByteReadable(st);
    var b := UnsignedByte(st);
    if |s| == 0 {
      assert UntilNul(st, acc).result.Err?;
    } else if s[0] == 0 {
      assert UntilNul(st, acc) == Read(Ok(acc), b.rest);
      assert FirstNul(s) == 0;
      assert acc + s[..0] == acc;
    } else {
      var next := acc + [s[0]];
      assert UntilNul(st, acc) == UntilNul(b.rest, next);
      UntilNulReadable(b.rest, next);
      var t := s[1..];
      assert Readable(b.rest) == t;
      FirstNulOfTail(acc, s);
    }
  }

  /** A string the buffer holds with its 0 is read without inflating a block. */
  lemma {:induction false} UntilNulFromBuffer(st: Stream, acc: seq<Byte>)
    requires 0 in st.buffer
    ensures UntilNul(st, acc) ==
              Read(Ok(acc + st.buffer[..FirstNul(st.buffer)]), Stream(st.buffer[FirstNul(st.buffer) + 1..], st.source))
    decreases |st.buffer|
  {
    var s := st.buffer;
    TakeFromBuffer(st, 1);
    var rest := Stream(s[1..], st.source);
    assert UnsignedByte(st) == Read(Ok(s[0]), rest);
    if s[0] == 0 {
      assert acc + s[..0] == acc;
    } else {
      UntilNulFromBuffer(rest, acc + [s[0]]);
      FirstNulOfTail(acc, s);
    }
  }

  /** Reading past a non-zero byte moves the first 0 one place closer. */
  lemma FirstNulOfTail(acc: seq<Byte>, s: seq<Byte>)
    requires |s| > 0 && s[0] != 0
    ensures 0 in s <==> 0 in s[1..]
    ensures 0 in s ==>
              FirstNul(s) == FirstNul(s[1..]) + 1
              && acc + s[..FirstNul(s)] == (acc + [s[0]]) + s[1..][..FirstNul(s[1..])]
              && s[FirstNul(s) + 1..] == s[1..][FirstNul(s[1..]) + 1..]
  {
    assert s == [s[0]] + s[1..];
    if 0 in s[1..] {
      SlicesPastFirst(acc, s, FirstNul(s[1..]));
    }
  }

  /** Slices of `s` seen from its second element. */
  lemma SlicesPastFirst(acc: seq<Byte>, s: seq<Byte>, z: nat)
    requires z + 1 < |s|
    ensures acc + s[..z + 1] == (acc + [s[0]]) + s[1..][..z]
    ensures s[z + 2..] == s[1..][z + 1..]
  {
    assert s[..z + 1] == [s[0]] + s[1..][..z];
  }

  /**
   * A NUL-terminated read succeeds exactly when a 0 is readable and the
   * bytes before it are UTF-8; it yields those bytes and consumes the 0.
   */
  lemma NulTerminatedReadable(st: Stream)
    ensures NulTerminated(st).result.Ok? <==>
              0 in Readable(st) && ValidUtf8(Readable(st)[..FirstNul(Readable(st))])
    ensures NulTerminated(st).result.Ok? ==>
              NulTerminated(st).result.value == Readable(st)[..FirstNul(Readable(st))]
              && Readable(NulTerminated(st).rest) == Readable(st)[FirstNul(Readable(st)) + 1..]
  {
    UntilNulReadable(st, []);
    var s := Readable(st);
    if 0 in s {
      assert [] + s[..FirstNul(s)] == s[..FirstNul(s)];
    }
  }

  /**
   * `read_encoded_string` returns the readable bytes up to and including the
   * first 0, and fails when no 0 is readable.
   */
  lemma EncodedReadable(st: Stream)
    ensures Encoded(st).result.Ok? <==> 0 in Readable(st)
    ensures Encoded(st).result.Ok? ==>
              Encoded(st).result.value == Readable(st)[..FirstNul(Readable(st)) + 1]
              && Readable(Encoded(st).rest) == Readable(st)[FirstNul(Readable(st)) + 1..]
  {
    UntilNulReadable(st, []);
    var s := Readable(st);
    if 0 in s {
      var i := FirstNul(s);
      assert [] + s[..i] == s[..i];
      PrefixOneMore(s, i);
    }
  }

  /** The first `i + 1` bytes are the first `i` and byte `i`. */
  lemma PrefixOneMore(s: seq<Byte>, i: nat)
    requires i < |s|
    ensures s[..i + 1] == s[..i] + [s[i]]
  {
  }

  lemma {:induction false} FirstNulAfter(text: seq<Byte>, tail: seq<Byte>)
    requires 0 !in text
    ensures FirstNul(text + [0] + tail) == |text|
  {
    if text != [] {
      assert (text + [0] + tail)[1..] == text[1..] + [0] + tail;
      FirstNulAfter(text[1..], tail);
    }
  }

  /** Writing a text and a 0 and reading it back returns the text. */
  lemma NulTerminatedRoundTrip(text: Text, tail: seq<Byte>, st: Stream)
    requires 0 !in text && ValidUtf8(text)
    requires Readable(st) == text + [0] + tail
    ensures NulTerminated(st).result == Ok(text)
    ensures Readable(NulTerminated(st).rest) == tail
  {
    var s := Readable(st);
    FirstNulAfter(text, tail);
    assert s[..|text|] == text;
    assert s[|text| + 1..] == tail;
    NulTerminatedReadable(st);
  }
}
