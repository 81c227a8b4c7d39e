/** Go's encoding/hex: base16 as in section 8 of RFC 4648, accepting either letter case. */
module Hex {
  import opened Wrappers

  newtype byte = x: int | 0 <= x < 256

  /** hex.ErrLength and hex.InvalidByteError. */
  datatype HexError = ErrLength | InvalidByte(c: char)

  predicate IsHexDigit(c: char)
  {
    ('0' <= c <= '9') || ('a' <= c <= 'f') || ('A' <= c <= 'F')
  }

  function HexValue(c: char): (v: nat)
    requires IsHexDigit(c)
    ensures v < 16
  {
    if '0' <= c <= '9' then c as int - '0' as int
    else if 'a' <= c <= 'f' then c as int - 'a' as int + 10
    else c as int - 'A' as int + 10
  }

  /**
   * hex.DecodeString. Pairs are decoded left to right, the first character of a pair
   * checked before the second; a trailing odd character is checked before the length
   * is reported. So the first non-hex character anywhere wins, and ErrLength is
   * reported only for an odd-length string of hex digits.
   */
  function DecodeString(s: string): (r: Result<seq<byte>, HexError>)
    ensures r.Success? ==> 2 * |r.value| == |s|
    decreases |s|
  {
    if |s| == 0 then Success([])
    else if !IsHexDigit(s[0]) then Failure(InvalidByte(s[0]))
    else if |s| == 1 then Failure(ErrLength)
    else if !IsHexDigit(s[1]) then Failure(InvalidByte(s[1]))
    else
      match DecodeString(s[2..])
      case Failure(e) => Failure(e)
      case Success(rest) => Success([(HexValue(s[0]) * 16 + HexValue(s[1])) as byte] + rest)
  }

  function LowerHexDigit(v: nat): (c: char)
    requires v < 16
    ensures IsHexDigit(c) && HexValue(c) == v
  {
    if v < 10 then ('0' as int + v) as char else ('a' as int + v - 10) as char
  }

  /** hex.EncodeToString: two lower-case digits per byte, high nibble first. */
  function EncodeToString(b: seq<byte>): (s: string)
    ensures |s| == 2 * |b|
  {
    if b == [] then ""
    else [LowerHexDigit(b[0] as int / 16), LowerHexDigit(b[0] as int % 16)] + EncodeToString(b[1..])
  }

  /** Decoding undoes encoding. */
  lemma {:induction false} DecodeEncode(b: seq<byte>)
    ensures DecodeString(EncodeToString(b)) == Success(b)
  {
    if b != [] {
      var s := EncodeToString(b);
      assert s[2..] == EncodeToString(b[1..]);
      DecodeEncode(b[1..]);
      assert [b[0]] + b[1..] == b;
    }
  }

  /** Decoding succeeds exactly on even-length strings of hex digits. */
  lemma {:induction false} DecodeSucceedsIff(s: string)
    ensures DecodeString(s).Success? <==>
      |s| % 2 == 0 && forall i :: 0 <= i < |s| ==> IsHexDigit(s[i])
    decreases |s|
  {
    if |s| >= 2 && IsHexDigit(s[0]) && IsHexDigit(s[1]) {
      DecodeSucceedsIff(s[2..]);
      assert forall i :: 2 <= i < |s| ==> s[i] == s[2..][i - 2];
    }
  }

  /** Byte i of the key comes from characters 2i and 2i+1, high nibble first. */
  lemma {:induction false} DecodedByte(s: string, i: nat)
    requires DecodeString(s).Success? && i < |DecodeString(s).value|
    ensures IsHexDigit(s[2 * i]) && IsHexDigit(s[2 * i + 1])
    ensures DecodeString(s).value[i] as int == HexValue(s[2 * i]) * 16 + HexValue(s[2 * i + 1])
    decreases |s|
  {
    if i > 0 {
      DecodedByte(s[2..], i - 1);
    }
  }

  /** The first character that is not a hex digit is the one reported. */
  lemma {:induction false} FirstInvalidReported(s: string, i: nat)
    requires i < |s| && !IsHexDigit(s[i])
    requires forall j :: 0 <= j < i ==> IsHexDigit(s[j])
    ensures DecodeString(s) == Failure(InvalidByte(s[i]))
    decreases |s|
  {
    if i >= 2 {
      FirstInvalidReported(s[2..], i - 2);
    }
  }

  /** An odd number of hex digits is a length error. */
  lemma {:induction false} OddLengthReported(s: string)
    requires |s| % 2 == 1
    requires forall j :: 0 <= j < |s| ==> IsHexDigit(s[j])
    ensures DecodeString(s) == Failure(ErrLength)
    decreases |s|
  {
    if |s| > 1 {
      OddLengthReported(s[2..]);
    }
  }
}
