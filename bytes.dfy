/**
 * Byte-level vocabulary shared by the replay decoder and the services:
 * bytes, little-endian integers, single-bit tests, UTF-8 well-formedness
 * (what Rust's `String::from_utf8` accepts) and Rust's `u8::from_str`.
 *
 * Every Rust `String` of the system is modelled by its UTF-8 bytes, so
 * `String::len` is the length of the sequence.
 */
module Bytes {
  import opened Wrappers

  type Byte = b: int | 0 <= b < 256

  /** Rust text as its UTF-8 encoding. */
  type Text = seq<Byte>

  /** The bytes of an ASCII string literal. */
  function Ascii(s: string): (r: Text)
    ensures |r| == |s|
  {
    seq(|s|, i requires 0 <= i < |s| => (s[i] as int) % 256)
  }

  function Pow2(k: nat): (r: nat)
    ensures r >= 1
  {
    if k == 0 then 1 else 2 * Pow2(k - 1)
  }

  lemma {:induction false} Pow2Add(a: nat, b: nat)
    ensures Pow2(a + b) == Pow2(a) * Pow2(b)
  {
    if a > 0 {
      Pow2Add(a - 1, b);
    }
  }

  lemma Pow2Byte(n: nat)
    requires n >= 1
    ensures Pow2(8 * n) == 256 * Pow2(8 * (n - 1))
  {
    Pow2Add(8, 8 * (n - 1));
    assert 8 + 8 * (n - 1) == 8 * n;
    assert Pow2(8) == 256;
  }

  // ---------------------------------------------------------------------
  // Little-endian unsigned integers (byteorder's `LittleEndian`)
  // ---------------------------------------------------------------------

  /** The unsigned value of `s`, least significant byte first. */
  function LeUint(s: seq<Byte>): (r: nat)
    ensures r < Pow2(8 * |s|)
  {
    if s == [] then 0
    else
      Pow2Byte(|s|);
      s[0] + 256 * LeUint(s[1..])
  }

  /** The `n` little-endian bytes of `v`. */
  function LeBytes(v: nat, n: nat): (r: seq<Byte>)
    ensures |r| == n
  {
    if n == 0 then [] else [v % 256] + LeBytes(v / 256, n - 1)
  }

  lemma {:induction false} LeUintOfLeBytes(v: nat, n: nat)
    requires v < Pow2(8 * n)
    ensures LeUint(LeBytes(v, n)) == v
  {
    if n > 0 {
      Pow2Byte(n);
      LeUintOfLeBytes(v / 256, n - 1);
      assert LeBytes(v, n)[1..] == LeBytes(v / 256, n - 1);
    }
  }

  lemma {:induction false} LeBytesOfLeUint(s: seq<Byte>)
    ensures LeBytes(LeUint(s), |s|) == s
  {
    if s != [] {
      LeBytesOfLeUint(s[1..]);
    }
  }

  /** The powers of two that bound the fixed-width integers. */
  lemma Pow2Widths()
    ensures Pow2(8) == 0x100 && Pow2(16) == 0x1_0000
    ensures Pow2(32) == 0x1_0000_0000 && Pow2(64) == 0x1_0000_0000_0000_0000
  {
    assert Pow2(8) == 0x100;
    Pow2Add(8, 8);
    Pow2Add(16, 16);
    Pow2Add(32, 32);
  }

  /** Two's complement reading of a 32-bit unsigned value (Rust `i32`). */
  function ToI32(u: nat): (r: int)
    requires u < 0x1_0000_0000
    ensures -0x8000_0000 <= r < 0x8000_0000
    ensures (r + 0x1_0000_0000) % 0x1_0000_0000 == u
  {
    if u < 0x8000_0000 then u else u - 0x1_0000_0000
  }

  /** Whether bit `k` of `bits` is set (`bits & (1 << k) != 0`). */
  predicate BitSet(bits: nat, k: nat)
  {
    (bits / Pow2(k)) % 2 == 1
  }

  // ---------------------------------------------------------------------
  // UTF-8 well-formedness (section 4 of RFC 3629)
  // ---------------------------------------------------------------------

  predicate Continuation(b: Byte)
  {
    0x80 <= b <= 0xBF
  }

  /** Length of the well-formed character that starts `s`, or 0 if there is none. */
  function Utf8CharLen(s: seq<Byte>): (n: nat)
    requires |s| > 0
    ensures n <= |s| && n <= 4
    ensures s[0] < 0x80 <==> n == 1
  {
    var b := s[0];
    if b < 0x80 then 1
    else if 0xC2 <= b <= 0xDF then
      if |s| >= 2 && Continuation(s[1]) then 2 else 0
    else if b == 0xE0 then
      if |s| >= 3 && 0xA0 <= s[1] <= 0xBF && Continuation(s[2]) then 3 else 0
    else if b == 0xED then
      if |s| >= 3 && 0x80 <= s[1] <= 0x9F && Continuation(s[2]) then 3 else 0
    else if 0xE1 <= b <= 0xEF then
      if |s| >= 3 && Continuation(s[1]) && Continuation(s[2]) then 3 else 0
    else if b == 0xF0 then
      if |s| >= 4 && 0x90 <= s[1] <= 0xBF && Continuation(s[2]) && Continuation(s[3]) then 4 else 0
    else if b == 0xF4 then
      if |s| >= 4 && 0x80 <= s[1] <= 0x8F && Continuation(s[2]) && Continuation(s[3]) then 4 else 0
    else if 0xF1 <= b <= 0xF3 then
      if |s| >= 4 && Continuation(s[1]) && Continuation(s[2]) && Continuation(s[3]) then 4 else 0
    else 0
  }

  /** What `String::from_utf8` accepts. */
  predicate ValidUtf8(s: seq<Byte>)
    decreases |s|
  {
    s == [] || (Utf8CharLen(s) > 0 && ValidUtf8(s[Utf8CharLen(s)..]))
  }

  /** Every ASCII text is valid UTF-8. */
  lemma {:induction false} AsciiIsUtf8(s: seq<Byte>)
    requires forall i :: 0 <= i < |s| ==> s[i] < 0x80
    ensures ValidUtf8(s)
  {
    if s != [] {
      AsciiIsUtf8(s[1..]);
    }
  }

  // ---------------------------------------------------------------------
  // Rust's `u8::from_str` (decimal, optional leading '+')
  // ---------------------------------------------------------------------

  predicate IsDigit(b: Byte)
  {
    '0' as int <= b <= '9' as int
  }

  /** Big-endian decimal value of a run of ASCII digits. */
  function DecimalValue(s: seq<Byte>): nat
    requires forall i :: 0 <= i < |s| ==> IsDigit(s[i])
  {
    if s == [] then 0
    else
      assert IsDigit(s[|s| - 1]);
      DecimalValue(s[..|s| - 1]) * 10 + (s[|s| - 1] - '0' as int)
  }

  /**
   * `str::parse::<u8>`: an optional '+', then at least one ASCII digit,
   * and a value below 256; anything else is an error.
   */
  function ParseU8(s: Text): (r: Option<nat>)
    ensures r.Some? ==> r.value < 256
    ensures s == [] ==> r.None?
  {
    var digits := if |s| > 0 && s[0] == '+' as int then s[1..] else s;
    if digits == [] || exists i :: 0 <= i < |digits| && !IsDigit(digits[i]) then None
    else
      var v := DecimalValue(digits);
      if v < 256 then Some(v) else None
  }

  /** `u8::to_string`: the shortest decimal spelling of `n`. */
  function DecimalText(n: nat): (r: Text)
    ensures forall i :: 0 <= i < |r| ==> IsDigit(r[i])
    ensures |r| >= 1
  {
    if n < 10 then [n + '0' as int]
    else DecimalText(n / 10) + [n % 10 + '0' as int]
  }

  lemma {:induction false} DecimalValueOfText(n: nat)
    ensures DecimalValue(DecimalText(n)) == n
  {
    if n >= 10 {
      DecimalValueOfText(n / 10);
      var t := DecimalText(n);
      assert t[..|t| - 1] == DecimalText(n / 10);
    }
  }

  /** Parsing the decimal spelling of a byte value gives the value back. */
  lemma ParseU8OfDecimal(n: nat)
    requires n < 256
    ensures ParseU8(DecimalText(n)) == Some(n)
  {
    DecimalValueOfText(n);
    var t := DecimalText(n);
    assert t[0] != '+' as int;
  }
}
