/** Go's `encoding/hex`: `EncodeToString` (lowercase, two characters per byte)
    and `DecodeString`, its inverse. */
module Hex {
  import opened Wrappers

  newtype byte = x: int | 0 <= x < 256

  const HexDigits: string := "0123456789abcdef"

  predicate IsLowerHex(c: char) {
    ('0' <= c <= '9') || ('a' <= c <= 'f')
  }

  function HexChar(d: nat): (c: char)
    requires d < 16
    ensures IsLowerHex(c)
  {
    HexDigits[d]
  }

  /** The value of one hexadecimal digit; `DecodeString` accepts both cases. */
  function HexValue(c: char): Option<nat> {
    if '0' <= c <= '9' then Some(c as int - '0' as int)
    else if 'a' <= c <= 'f' then Some(c as int - 'a' as int + 10)
    else if 'A' <= c <= 'F' then Some(c as int - 'A' as int + 10)
    else None
  }

  /** `hex.EncodeToString`: each byte becomes its high then its low nibble. */
  function Encode(bs: seq<byte>): (s: string)
    ensures |s| == 2 * |bs|
    ensures forall i :: 0 <= i < |s| ==> IsLowerHex(s[i])
  {
    if |bs| == 0 then ""
    else [HexChar(bs[0] as nat / 16), HexChar(bs[0] as nat % 16)] + Encode(bs[1..])
  }

  /** `hex.DecodeString`: None for odd length or a non-hexadecimal character. */
  function Decode(s: string): Option<seq<byte>>
    decreases |s|
  {
    if |s| == 0 then Some([])
    else if |s| == 1 then None
    else match (HexValue(s[0]), HexValue(s[1]), Decode(s[2..]))
      case (Some(hi), Some(lo), Some(rest)) =>
        if hi < 16 && lo < 16 then Some([(hi * 16 + lo) as byte] + rest) else None
      case _ => None
  }

  lemma HexCharValue(d: nat)
    requires d < 16
    ensures HexValue(HexChar(d)) == Some(d)
  {
    var hs := HexDigits;
    assert hs[0] == '0' && hs[1] == '1' && hs[2] == '2' && hs[3] == '3';
    assert hs[4] == '4' && hs[5] == '5' && hs[6] == '6' && hs[7] == '7';
    assert hs[8] == '8' && hs[9] == '9' && hs[10] == 'a' && hs[11] == 'b';
    assert hs[12] == 'c' && hs[13] == 'd' && hs[14] == 'e' && hs[15] == 'f';
  }

  /** Decoding an encoding gives back the bytes. */
  lemma {:induction false} DecodeEncode(bs: seq<byte>)
    ensures Decode(Encode(bs)) == Some(bs)
  {
    if |bs| > 0 {
      var s := Encode(bs);
      var b := bs[0] as nat;
      HexCharValue(b / 16);
      HexCharValue(b % 16);
      assert s[2..] == Encode(bs[1..]);
      DecodeEncode(bs[1..]);
      assert [(b / 16 * 16 + b % 16) as byte] + bs[1..] == bs;
    }
  }

  /** Encoding is injective: different byte strings never share a hex string. */
  lemma EncodeInjective(a: seq<byte>, b: seq<byte>)
    requires Encode(a) == Encode(b)
    ensures a == b
  {
    DecodeEncode(a);
    DecodeEncode(b);
  }
}
