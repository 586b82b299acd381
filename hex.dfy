/** Go's `encoding/hex`: `EncodeToString` and its inverse `DecodeString`. */
module Hex {
  import opened Wrappers
  import opened Utf8

  /** The characters `EncodeToString` writes: 0-9 and lower-case a-f. */
  predicate IsLowerHex(ch: char) { '0' <= ch <= '9' || 'a' <= ch <= 'f' }

  /** The characters `DecodeString` accepts, in either case. */
  predicate IsHexChar(ch: char) { IsLowerHex(ch) || 'A' <= ch <= 'F' }

  function HexDigit(d: nat): (ch: char)
    requires d < 16
    ensures IsLowerHex(ch) && IsHexChar(ch) && HexValue(ch) == d
  {
    if d < 10 then ('0' as int + d) as char else ('a' as int + d - 10) as char
  }

  function HexValue(ch: char): (d: nat)
    requires IsHexChar(ch)
    ensures d < 16
  {
    if ch <= '9' then ch as int - '0' as int
    else if ch <= 'F' then ch as int - 'A' as int + 10
    else ch as int - 'a' as int + 10
  }

  /** `hex.EncodeToString`: two lower-case digits per byte, high nibble first. */
  function HexEncode(bs: seq<byte>): (s: string)
    ensures |s| == 2 * |bs|
    ensures forall i :: 0 <= i < |s| ==> IsLowerHex(s[i])
  {
    if bs == [] then [] else [HexDigit(bs[0] / 16), HexDigit(bs[0] % 16)] + HexEncode(bs[1..])
  }

  /** `hex.DecodeString`: fails on an odd length or a non-hex character. */
  function HexDecode(s: string): (r: Option<seq<byte>>)
    ensures r.Some? ==> |s| == 2 * |r.value|
  {
    if s == [] then Some([])
    else if |s| < 2 || !IsHexChar(s[0]) || !IsHexChar(s[1]) then None
    else match HexDecode(s[2..])
      case None => None
      case Some(rest) => Some([HexValue(s[0]) * 16 + HexValue(s[1])] + rest)
  }

  /** Decoding an encoding gives back the bytes. */
  lemma {:induction false} HexRoundTrip(bs: seq<byte>)
    ensures HexDecode(HexEncode(bs)) == Some(bs)
  {
    if bs != [] {
      var s := HexEncode(bs);
      assert s[0] == HexDigit(bs[0] / 16) && s[1] == HexDigit(bs[0] % 16);
      assert s[2..] == HexEncode(bs[1..]);
      assert HexValue(s[0]) * 16 + HexValue(s[1]) == bs[0];
      HexRoundTrip(bs[1..]);
      assert bs == [bs[0]] + bs[1..];
    }
  }
}
