/**
 * Store-assigned document identifiers: twelve bytes, written as 24 hexadecimal
 * characters. `Hex` is the lower-case rendering the store hands back after an
 * insert; `ObjectIdFromHex` is the parser every update runs first. The parser
 * accepts exactly 24 characters, all hexadecimal digits of either case.
 */
module ObjectIds {
  import opened Wrappers

  newtype byte = x: int | 0 <= x < 256

  /** An identifier is exactly twelve bytes. */
  type ObjectId = s: seq<byte> | |s| == 12 witness [0, 0, 0, 0, 0, 0, 0, 0, 0, 0, 0, 0]

  /** The all-zero identifier: a record carrying it has no identifier yet. */
  const NIL_OBJECT_ID: ObjectId := [0, 0, 0, 0, 0, 0, 0, 0, 0, 0, 0, 0]

  /** Number of characters in the text form of an identifier. */
  const OBJECT_ID_HEX_LENGTH := 24

  predicate IsHexDigit(c: char) {
    '0' <= c <= '9' || 'a' <= c <= 'f' || 'A' <= c <= 'F'
  }

  predicate IsLowerHexDigit(c: char) {
    '0' <= c <= '9' || 'a' <= c <= 'f'
  }

  /** The lower-case digit for a nibble. */
  function HexDigit(n: int): (c: char)
    requires 0 <= n < 16
    ensures IsLowerHexDigit(c)
  {
    if n < 10 then ('0' as int + n) as char else ('a' as int + n - 10) as char
  }

  /** The nibble a digit of either case stands for. */
  function NibbleOf(c: char): (n: int)
    requires IsHexDigit(c)
    ensures 0 <= n < 16
  {
    if '0' <= c <= '9' then c as int - '0' as int
    else if 'a' <= c <= 'f' then c as int - 'a' as int + 10
    else c as int - 'A' as int + 10
  }

  /** Two lower-case digits per byte, high nibble first. */
  function Hex(bytes: seq<byte>): (s: string)
    ensures |s| == 2 * |bytes|
    ensures forall i :: 0 <= i < |s| ==> IsLowerHexDigit(s[i])
  {
    if bytes == [] then ""
    else [HexDigit(bytes[0] as int / 16), HexDigit(bytes[0] as int % 16)] + Hex(bytes[1..])
  }

  /** Decodes pairs of digits into bytes; fails at the first character that is not a digit. */
  function DecodeHex(s: string): (r: Option<seq<byte>>)
    requires |s| % 2 == 0
    ensures r.Some? ==> 2 * |r.value| == |s|
  {
    if s == [] then Some([])
    else if !IsHexDigit(s[0]) || !IsHexDigit(s[1]) then None
    else
      match DecodeHex(s[2..])
      case None => None
      case Some(rest) => Some([(NibbleOf(s[0]) * 16 + NibbleOf(s[1])) as byte] + rest)
  }

  /** The text forms the parser accepts. */
  predicate IsObjectIdHex(s: string) {
    |s| == OBJECT_ID_HEX_LENGTH && forall i :: 0 <= i < |s| ==> IsHexDigit(s[i])
  }

  /** Parses the text form: the length is checked first, then every digit. */
  function ObjectIdFromHex(s: string): (r: Option<ObjectId>)
    ensures r.Some? ==> |s| == OBJECT_ID_HEX_LENGTH
  {
    if |s| != OBJECT_ID_HEX_LENGTH then None
    else
      match DecodeHex(s)
      case None => None
      case Some(bytes) => Some(bytes)
  }

  /** Decoding succeeds exactly when every character is a hexadecimal digit. */
  lemma {:induction false} DecodeHexAccepts(s: string)
    requires |s| % 2 == 0
    ensures DecodeHex(s).Some? <==> forall i :: 0 <= i < |s| ==> IsHexDigit(s[i])
  {
    if s != [] && IsHexDigit(s[0]) && IsHexDigit(s[1]) {
      DecodeHexAccepts(s[2..]);
      if DecodeHex(s).None? {
        var i :| 2 <= i < |s| && !IsHexDigit(s[i]);
        assert !IsHexDigit(s[2..][i - 2]);
      }
    }
  }

  /** The parser accepts a string if and only if it is 24 hexadecimal digits. */
  lemma ObjectIdFromHexAccepts(s: string)
    ensures ObjectIdFromHex(s).Some? <==> IsObjectIdHex(s)
  {
    if |s| == OBJECT_ID_HEX_LENGTH {
      DecodeHexAccepts(s);
    }
  }

  lemma ByteDigits(b: byte)
    ensures (NibbleOf(HexDigit(b as int / 16)) * 16 + NibbleOf(HexDigit(b as int % 16))) as byte == b
  {
  }

  /** Decoding the rendering of any bytes gives the bytes back. */
  lemma {:induction false} HexRoundTrip(bytes: seq<byte>)
    ensures DecodeHex(Hex(bytes)) == Some(bytes)
  {
    if bytes != [] {
      var s := Hex(bytes);
      assert s[2..] == Hex(bytes[1..]);
      HexRoundTrip(bytes[1..]);
      ByteDigits(bytes[0]);
      assert bytes == [bytes[0]] + bytes[1..];
    }
  }

  /** The text the store returns for an identifier parses back to that identifier. */
  lemma ObjectIdRoundTrip(id: ObjectId)
    ensures IsObjectIdHex(Hex(id))
    ensures ObjectIdFromHex(Hex(id)) == Some(id)
  {
    HexRoundTrip(id);
  }
}
