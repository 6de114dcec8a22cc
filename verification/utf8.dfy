/**
  Rust's `String` is a UTF-8 byte buffer and `String::len()` counts bytes,
  not characters. This module gives the UTF-8 encoding of a Dafny string
  (a sequence of Unicode scalar values), so that the validator can compare
  the byte length with its limit exactly as the service does.
 */
module Utf8 {

  type byte = b: int | 0 <= b < 256

  /** True for a scalar value in the one-byte (ASCII) range. */
  predicate IsAscii(c: char) {
    c as int < 0x80
  }

  /** A continuation byte has the bit pattern 10xxxxxx. */
  predicate IsContinuation(b: byte) {
    0x80 <= b < 0xC0
  }

  /** The number of bytes a sequence announces through its lead byte (0 for a byte that cannot lead). */
  function LeadLength(b: byte): nat {
    if b < 0x80 then 1
    else if 0xC0 <= b < 0xE0 then 2
    else if 0xE0 <= b < 0xF0 then 3
    else if 0xF0 <= b < 0xF8 then 4
    else 0
  }

  /** The scalar value a well-formed one-character sequence stands for. */
  function DecodeScalar(b: seq<byte>): int
    requires 1 <= |b| <= 4
  {
    var b0, tail := b[0] as int, Payload(b[1..]);
    if |b| == 1 then b0
    else if |b| == 2 then (b0 - 0xC0) * 64 + tail
    else if |b| == 3 then (b0 - 0xE0) * 4096 + tail
    else (b0 - 0xF0) * 262144 + tail
  }

  /** The value carried by the six low bits of each continuation byte, most significant first. */
  function Payload(cs: seq<byte>): int {
    if cs == [] then 0 else Payload(cs[..|cs| - 1]) * 64 + (cs[|cs| - 1] as int - 0x80)
  }

  /** Splits off the low six bits of a value. */
  lemma SplitLowSix(n: nat)
    ensures n == (n / 64) * 64 + n % 64
    ensures 0 <= n % 64 < 64
  {
  }

  /** The two-byte form, for scalar values 0x80..0x7FF. */
  function TwoByteForm(n: int): (b: seq<byte>)
    requires 0x80 <= n < 0x800
    ensures |b| == 2 && LeadLength(b[0]) == 2 && IsContinuation(b[1])
    ensures DecodeScalar(b) == n
  {
    SplitLowSix(n);
    var q, r0 := n / 64, n % 64;
    assert Payload([0x80 + r0]) == r0;
    [0xC0 + q, 0x80 + r0]
  }

  /** The three-byte form, for scalar values 0x800..0xFFFF. */
  function ThreeByteForm(n: int): (b: seq<byte>)
    requires 0x800 <= n < 0x10000
    ensures |b| == 3 && LeadLength(b[0]) == 3 && IsContinuation(b[1]) && IsContinuation(b[2])
    ensures DecodeScalar(b) == n
  {
    SplitLowSix(n);
    var m1, r0 := n / 64, n % 64;
    SplitLowSix(m1);
    var q, r1 := m1 / 64, m1 % 64;
    assert n == (q * 64 + r1) * 64 + r0;
    assert 0 <= q < 16;
    assert Payload([0x80 + r1, 0x80 + r0]) == r1 * 64 + r0 by {
      assert [0x80 + r1, 0x80 + r0][..1] == [0x80 + r1];
      assert Payload([0x80 + r1]) == r1;
    }
    [0xE0 + q, 0x80 + r1, 0x80 + r0]
  }

  /** The four-byte form, for scalar values 0x10000..0x10FFFF. */
  function FourByteForm(n: int): (b: seq<byte>)
    requires 0x10000 <= n < 0x110000
    ensures |b| == 4 && LeadLength(b[0]) == 4
    ensures IsContinuation(b[1]) && IsContinuation(b[2]) && IsContinuation(b[3])
    ensures DecodeScalar(b) == n
  {
    SplitLowSix(n);
    var m1, r0 := n / 64, n % 64;
    SplitLowSix(m1);
    var m2, r1 := m1 / 64, m1 % 64;
    SplitLowSix(m2);
    var q, r2 := m2 / 64, m2 % 64;
    assert n == ((q * 64 + r2) * 64 + r1) * 64 + r0;
    assert 0 <= q < 8;
    assert Payload([0x80 + r2, 0x80 + r1, 0x80 + r0]) == (r2 * 64 + r1) * 64 + r0 by {
      assert [0x80 + r2, 0x80 + r1, 0x80 + r0][..2] == [0x80 + r2, 0x80 + r1];
      assert [0x80 + r2, 0x80 + r1][..1] == [0x80 + r2];
      assert Payload([0x80 + r2]) == r2;
      assert Payload([0x80 + r2, 0x80 + r1]) == r2 * 64 + r1;
    }
    [0xF0 + q, 0x80 + r2, 0x80 + r1, 0x80 + r0]
  }

  /** The UTF-8 encoding of one scalar value (section 3 of RFC 3629). */
  function EncodeScalar(c: char): (b: seq<byte>)
    ensures 1 <= |b| <= 4
    ensures LeadLength(b[0]) == |b|
    ensures forall i :: 1 <= i < |b| ==> IsContinuation(b[i])
    ensures |b| == 1 <==> IsAscii(c)
    ensures |b| >= 3 ==> c as int >= 0x800
    ensures |b| == 4 ==> c as int >= 0x10000
    ensures DecodeScalar(b) == c as int
  {
    var n := c as int;
    if n < 0x80 then [n]
    else if n < 0x800 then TwoByteForm(n)
    else if n < 0x10000 then ThreeByteForm(n)
    else FourByteForm(n)
  }

  /** The UTF-8 byte buffer holding a string. */
  function Encode(s: string): (b: seq<byte>)
    ensures |s| <= |b| <= 4 * |s|
    ensures |b| == |s| <==> forall i :: 0 <= i < |s| ==> IsAscii(s[i])
  {
    if s == [] then []
    else
      var rest := Encode(s[1..]);
      assert forall i :: 1 <= i < |s| ==> s[1..][i - 1] == s[i];
      EncodeScalar(s[0]) + rest
  }

  /** `String::len()`: the number of bytes in the string's UTF-8 buffer. */
  function ByteLength(s: string): (n: nat)
    ensures |s| <= n <= 4 * |s|
    ensures n == |s| <==> forall i :: 0 <= i < |s| ==> IsAscii(s[i])
  {
    |Encode(s)|
  }

  /** Encoding distributes over concatenation, so byte lengths add up. */
  lemma {:induction false} EncodeAppend(s: string, t: string)
    ensures Encode(s + t) == Encode(s) + Encode(t)
    decreases |s|
  {
    if s == [] {
      assert s + t == t;
    } else {
      assert (s + t)[1..] == s[1..] + t;
      EncodeAppend(s[1..], t);
    }
  }

  /** A string with no ASCII character takes at least two bytes per character. */
  lemma {:induction false} NonAsciiAtLeastTwoBytes(s: string)
    requires forall i :: 0 <= i < |s| ==> !IsAscii(s[i])
    ensures ByteLength(s) >= 2 * |s|
    decreases |s|
  {
    if s != [] {
      assert forall i :: 0 <= i < |s[1..]| ==> s[1..][i] == s[i + 1];
      NonAsciiAtLeastTwoBytes(s[1..]);
    }
  }
}
