/**
 * PHP strings are byte strings. This module holds the byte-level helpers the
 * client-build check relies on: `presence` (null for a missing or blank
 * value) and `hex2bin` (hexadecimal text to raw bytes, failing on odd length
 * or a non-hexadecimal character), together with `bin2hex`, its inverse.
 */
module Bytes {
  import opened Wrappers

  newtype Byte = b: int | 0 <= b < 256

  /** The bytes PHP's `trim` strips by default: space, \t, \n, \r, \0 and \x0B. */
  predicate IsTrimmed(c: Byte) {
    c == 32 || c == 9 || c == 10 || c == 13 || c == 0 || c == 11
  }

  /** A value is blank when trimming leaves nothing. */
  predicate IsBlank(s: seq<Byte>) {
    forall i :: 0 <= i < |s| ==> IsTrimmed(s[i])
  }

  /** `presence($s)`: the value itself when it is present and not blank, otherwise null. */
  function Presence(s: Option<seq<Byte>>): (r: Option<seq<Byte>>)
    ensures r.Some? <==> s.Some? && !IsBlank(s.value)
    ensures r.Some? ==> r.value == s.value && |r.value| > 0
  {
    match s
    case None => None
    case Some(v) => if IsBlank(v) then None else Some(v)
  }

  /** The value 0..15 of one hexadecimal digit, either case; None for any other byte. */
  function HexDigit(c: Byte): (r: Option<int>)
    ensures r.Some? ==> 0 <= r.value < 16
  {
    if 48 <= c <= 57 then Some(c as int - 48)          // '0'..'9'
    else if 65 <= c <= 70 then Some(c as int - 55)     // 'A'..'F'
    else if 97 <= c <= 102 then Some(c as int - 87)    // 'a'..'f'
    else None
  }

  predicate IsHexText(s: seq<Byte>) {
    |s| % 2 == 0 && forall i :: 0 <= i < |s| ==> HexDigit(s[i]).Some?
  }

  /**
   * `hex2bin($s)`: every pair of hexadecimal digits becomes one byte, high
   * nibble first. PHP returns `false` for odd-length input and for input with
   * a character that is not a hexadecimal digit; that is None here.
   */
  function Hex2Bin(s: seq<Byte>): (r: Option<seq<Byte>>)
    ensures r.Some? <==> IsHexText(s)
    ensures r.Some? ==> |s| == 2 * |r.value|
  {
    if |s| % 2 == 1 then None
    else if |s| == 0 then Some([])
    else
      var hi, lo, rest := HexDigit(s[0]), HexDigit(s[1]), Hex2Bin(s[2..]);
      assert forall i :: 2 <= i < |s| ==> s[i] == s[2..][i - 2];
      if hi.Some? && lo.Some? && rest.Some? then
        Some([(hi.value * 16 + lo.value) as Byte] + rest.value)
      else
        None
  }

  /** One lower-case hexadecimal digit for a value 0..15, as PHP's `bin2hex` and `md5` write it. */
  function LowerHexDigit(v: int): (c: Byte)
    requires 0 <= v < 16
    ensures HexDigit(c) == Some(v)
  {
    if v < 10 then (48 + v) as Byte else (87 + v) as Byte
  }

  /** `bin2hex($b)`: two lower-case hexadecimal digits per byte. */
  function Bin2Hex(b: seq<Byte>): (r: seq<Byte>)
    ensures |r| == 2 * |b|
  {
    if |b| == 0 then []
    else [LowerHexDigit(b[0] as int / 16), LowerHexDigit(b[0] as int % 16)] + Bin2Hex(b[1..])
  }

  /** `hex2bin` undoes `bin2hex`: decoding the hexadecimal form of any bytes gives them back. */
  lemma {:induction false} Hex2BinOfBin2Hex(b: seq<Byte>)
    ensures Hex2Bin(Bin2Hex(b)) == Some(b)
  {
    if |b| > 0 {
      var h := Bin2Hex(b);
      Hex2BinOfBin2Hex(b[1..]);
      assert h[2..] == Bin2Hex(b[1..]);
      assert HexDigit(h[0]) == Some(b[0] as int / 16);
      assert HexDigit(h[1]) == Some(b[0] as int % 16);
      assert [b[0]] + b[1..] == b;
    }
  }
}
