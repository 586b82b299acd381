/**
 * Go strings are byte strings; converting a Go `string` holding text to
 * `[]byte` yields its UTF-8 encoding.  Dafny strings are sequences of
 * Unicode scalar values, so this module gives the UTF-8 encoding explicitly.
 */
module Utf8 {
  import opened Wrappers

  /** One octet. */
  type byte = b: int | 0 <= b < 256

  /** A continuation byte of a multi-byte sequence: 10xxxxxx. */
  predicate IsContinuation(b: byte) { 0x80 <= b < 0xC0 }

  /** The number of bytes UTF-8 uses for code point `v`. */
  function RuneLength(v: int): nat
  {
    if v < 0x80 then 1 else if v < 0x800 then 2 else if v < 0x10000 then 3 else 4
  }

  /** The length of the sequence a lead byte announces. */
  function SequenceLength(b: byte): nat
  {
    if b < 0x80 then 1 else if b < 0xE0 then 2 else if b < 0xF0 then 3 else 4
  }

  /** The code point a sequence of one to four bytes carries in its payload bits. */
  function RuneValue(bs: seq<byte>): int
    requires 1 <= |bs| <= 4
  {
    if |bs| == 1 then bs[0] as int
    else if |bs| == 2 then (bs[0] as int - 0xC0) * 64 + (bs[1] as int - 0x80)
    else if |bs| == 3 then ((bs[0] as int - 0xE0) * 64 + (bs[1] as int - 0x80)) * 64 + (bs[2] as int - 0x80)
    else (((bs[0] as int - 0xF0) * 64 + (bs[1] as int - 0x80)) * 64 + (bs[2] as int - 0x80)) * 64 + (bs[3] as int - 0x80)
  }

  /** The code points a Dafny `char` can hold: every Unicode scalar value. */
  predicate IsScalarValue(v: int) { 0 <= v < 0xD800 || 0xE000 <= v < 0x11_0000 }

  /**
   * The UTF-8 encoding of one scalar value: the shortest sequence whose lead
   * byte announces its length, followed by continuation bytes, carrying the
   * code point.
   */
  function EncodeRune(ch: char): (bs: seq<byte>)
    ensures 1 <= |bs| <= 4
    ensures |bs| == RuneLength(ch as int) && |bs| == SequenceLength(bs[0])
    ensures |bs| == 1 ==> bs[0] == ch as int
    ensures forall i :: 1 <= i < |bs| ==> IsContinuation(bs[i])
    ensures RuneValue(bs) == ch as int
  {
    var c := ch as int;
    var c1 := c / 64;
    var c2 := c1 / 64;
    if c < 0x80 then [c]
    else if c < 0x800 then [0xC0 + c1, 0x80 + c % 64]
    else if c < 0x10000 then [0xE0 + c2, 0x80 + c1 % 64, 0x80 + c % 64]
    else [0xF0 + c2 / 64, 0x80 + c2 % 64, 0x80 + c1 % 64, 0x80 + c % 64]
  }

  /** The UTF-8 encoding of a string: what Go's `[]byte(s)` holds. */
  function Encode(s: string): (bs: seq<byte>)
    ensures |s| <= |bs| <= 4 * |s|
  {
    if s == [] then [] else EncodeRune(s[0]) + Encode(s[1..])
  }

  /**
   * Decoding UTF-8: fails on a truncated sequence, a missing continuation
   * byte, an overlong form, a surrogate or a value beyond U+10FFFF.
   */
  function Decode(bs: seq<byte>): Option<string>
    decreases |bs|
  {
    if bs == [] then Some([])
    else
      var n := SequenceLength(bs[0]);
      if |bs| < n || exists i :: 1 <= i < n && !IsContinuation(bs[i]) then None
      else
        var v := RuneValue(bs[..n]);
        if !IsScalarValue(v) || RuneLength(v) != n then None
        else match Decode(bs[n..])
          case None => None
          case Some(rest) => Some([v as char] + rest)
  }

  /** Decoding the encoding of a string gives the string back. */
  lemma {:induction false} DecodeEncode(s: string)
    ensures Decode(Encode(s)) == Some(s)
  {
    if s != [] {
      var head, tail := EncodeRune(s[0]), Encode(s[1..]);
      var bs := head + tail;
      assert bs[0] == head[0];
      assert bs[..|head|] == head;
      assert bs[|head|..] == tail;
      DecodeEncode(s[1..]);
      assert (s[0] as int) as char == s[0];
      assert s == [s[0]] + s[1..];
    }
  }

  /** Distinct strings have distinct encodings. */
  lemma EncodeInjective(a: string, b: string)
    ensures Encode(a) == Encode(b) <==> a == b
  {
    DecodeEncode(a);
    DecodeEncode(b);
  }

  predicate IsAscii(s: string) { forall i :: 0 <= i < |s| ==> s[i] as int < 0x80 }

  /** Encoding distributes over concatenation: `[]byte(a + b)` is `[]byte(a)` followed by `[]byte(b)`. */
  lemma {:induction false} EncodeConcat(a: string, b: string)
    ensures Encode(a + b) == Encode(a) + Encode(b)
  {
    if a != [] {
      assert (a + b)[0] == a[0];
      assert (a + b)[1..] == a[1..] + b;
      EncodeConcat(a[1..], b);
    } else {
      assert a + b == b;
    }
  }

  /** An ASCII string is encoded as one byte per character, with the character's code. */
  lemma {:induction false} EncodeAscii(s: string)
    requires IsAscii(s)
    ensures |Encode(s)| == |s|
    ensures forall i :: 0 <= i < |s| ==> Encode(s)[i] == s[i] as int
  {
    if s != [] {
      EncodeAscii(s[1..]);
    }
  }
}
