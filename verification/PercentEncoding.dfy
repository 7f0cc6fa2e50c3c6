/** Percent encoding of one path segment of the runr API. */
module PercentEncoding {

  newtype byte = n: int | 0 <= n < 256

  /** Bytes that pass unchanged: RFC 3986 unreserved characters and `@`. */
  predicate Literal(b: byte) {
    || 'A' <= b as char <= 'Z' || 'a' <= b as char <= 'z' || '0' <= b as char <= '9'
    || b as char == '-' || b as char == '.' || b as char == '_' || b as char == '~' || b as char == '@'
  }

  function HexDigit(d: int): char
    requires 0 <= d < 16
  {
    if d < 10 then '0' + d as char else 'A' + (d - 10) as char
  }

  function HexValue(c: char): (r: int)
    ensures -1 <= r < 16
  {
    if '0' <= c <= '9' then (c - '0') as int
    else if 'A' <= c <= 'F' then (c - 'A') as int + 10
    else -1
  }

  function EncodeByte(b: byte): string {
    if Literal(b) then [b as char]
    else ['%', HexDigit(b as int / 16), HexDigit(b as int % 16)]
  }

  function EncodeAll(bytes: seq<byte>): string {
    if bytes == [] then [] else EncodeByte(bytes[0]) + EncodeAll(bytes[1..])
  }

  /** `percent_encode_path_segment`. */
  method PercentEncode(bytes: seq<byte>) returns (out: string)
    ensures out == EncodeAll(bytes)
  {
    out := "";
    assert bytes[0..] == bytes;
    for i := 0 to |bytes|
      invariant out + EncodeAll(bytes[i..]) == EncodeAll(bytes)
    {
      assert bytes[i..][0] == bytes[i] && bytes[i..][1..] == bytes[i + 1..];
      var b := bytes[i];
      assert (out + EncodeByte(b)) + EncodeAll(bytes[i + 1..]) == out + (EncodeByte(b) + EncodeAll(bytes[i + 1..]));
      if Literal(b) {
        out := out + [b as char];
      } else {
        out := out + ['%', HexDigit(b as int / 16), HexDigit(b as int % 16)];
      }
    }
    assert bytes[|bytes|..] == [];
  }

  datatype Decoded = Bytes(bytes: seq<byte>) | Malformed

  /** Decoding as section 2.1 of RFC 3986 defines it, with upper-case digits. */
  function Decode(s: string): Decoded {
    if s == [] then Bytes([])
    else if s[0] == '%' then
      if |s| < 3 || HexValue(s[1]) < 0 || HexValue(s[2]) < 0 then Malformed
      else
        match Decode(s[3..])
        case Malformed => Malformed
        case Bytes(rest) => Bytes([(HexValue(s[1]) * 16 + HexValue(s[2])) as byte] + rest)
    else if s[0] as int >= 256 then Malformed
    else
      match Decode(s[1..])
      case Malformed => Malformed
      case Bytes(rest) => Bytes([s[0] as byte] + rest)
  }

  lemma HexRoundTrip(d: int)
    requires 0 <= d < 16
    ensures HexValue(HexDigit(d)) == d
  {
  }

  /** Every byte string is recovered from its encoding. */
  lemma {:induction false} DecodeInvertsEncode(bytes: seq<byte>)
    ensures Decode(EncodeAll(bytes)) == Bytes(bytes)
  {
    if bytes != [] {
      var b, rest := bytes[0], bytes[1..];
      DecodeInvertsEncode(rest);
      var s := EncodeAll(bytes);
      if Literal(b) {
        assert s[0] == b as char && s[1..] == EncodeAll(rest);
      } else {
        HexRoundTrip(b as int / 16);
        HexRoundTrip(b as int % 16);
        assert s[0] == '%' && s[1] == HexDigit(b as int / 16) && s[2] == HexDigit(b as int % 16);
        assert s[3..] == EncodeAll(rest);
      }
      assert bytes == [b] + rest;
    }
  }

  /** Unreserved characters, `@` and the escape sign: all may stand in a segment (RFC 3986, section 3.3). */
  predicate SegmentChar(c: char) {
    || 'A' <= c <= 'Z' || 'a' <= c <= 'z' || '0' <= c <= '9'
    || c == '-' || c == '.' || c == '_' || c == '~' || c == '@' || c == '%'
  }

  /** Segment characters only, and every escape sign starts a two-digit escape. */
  ghost predicate IsSegment(s: string) {
    forall i :: 0 <= i < |s| ==> SegmentChar(s[i]) && (s[i] == '%' ==> EscapeAt(s, i))
  }

  predicate EscapeAt(s: string, i: nat) {
    i + 2 < |s| && HexValue(s[i + 1]) >= 0 && HexValue(s[i + 2]) >= 0
  }

  lemma SegmentConcat(a: string, b: string)
    requires IsSegment(a) && IsSegment(b)
    ensures IsSegment(a + b)
  {
    hide SegmentChar, HexValue;
    var s := a + b;
    forall i | 0 <= i < |s|
      ensures SegmentChar(s[i]) && (s[i] == '%' ==> EscapeAt(s, i))
    {
      if i < |a| {
        assert s[i] == a[i] && (a[i] == '%' ==> EscapeAt(a, i));
      } else {
        assert s[i] == b[i - |a|] && (b[i - |a|] == '%' ==> EscapeAt(b, i - |a|));
      }
    }
  }

  lemma EncodedByteIsASegment(b: byte)
    ensures IsSegment(EncodeByte(b))
  {
    var s := EncodeByte(b);
    if !Literal(b) {
      HexRoundTrip(b as int / 16);
      HexRoundTrip(b as int % 16);
      assert EscapeAt(s, 0);
    }
  }

  /** Whatever the bytes, the encoding is a legal path segment with well-formed escapes. */
  lemma {:induction false} EncodingIsASegment(bytes: seq<byte>)
    ensures IsSegment(EncodeAll(bytes))
  {
    hide IsSegment, EncodeByte;
    if bytes == [] {
      EmptyIsASegment();
    } else {
      EncodingIsASegment(bytes[1..]);
      EncodedByteIsASegment(bytes[0]);
      SegmentConcat(EncodeByte(bytes[0]), EncodeAll(bytes[1..]));
    }
  }

  lemma EmptyIsASegment()
    ensures IsSegment([])
  {
  }

  // ---------------------------------------------------------------- which bytes are escaped

  lemma {:induction false} EncodeConcat(a: seq<byte>, b: seq<byte>)
    ensures EncodeAll(a + b) == EncodeAll(a) + EncodeAll(b)
  {
    hide EncodeByte;
    if a == [] {
      assert a + b == b;
    } else {
      EncodeConcat(a[1..], b);
      assert (a + b)[0] == a[0] && (a + b)[1..] == a[1..] + b;
    }
  }

  /**
   The encoding goes byte by byte: letters, digits and the five signs `-._~@` stay as they are, and every other
   byte becomes an escape sign and two upper-case hexadecimal digits.
   */
  lemma {:induction false} EncodingTells(before: seq<byte>, b: byte, after: seq<byte>) returns (encoded: string)
    ensures EncodeAll(before + [b] + after) == EncodeAll(before) + encoded + EncodeAll(after)
    ensures if 65 <= b <= 90 || 97 <= b <= 122 || 48 <= b <= 57 || b == 45 || b == 46 || b == 95 || b == 126 || b == 64
            then encoded == [b as char]
            else |encoded| == 3 && encoded[0] == '%'
                 && encoded[1] == "0123456789ABCDEF"[b / 16] && encoded[2] == "0123456789ABCDEF"[b % 16]
  {
    encoded := EncodeByte(b);
    EncodeConcat(before + [b], after);
    EncodeConcat(before, [b]);
    assert EncodeAll([b]) == EncodeByte(b) by { assert [b][1..] == []; }
    HexTells(b as int / 16);
    HexTells(b as int % 16);
  }

  lemma HexTells(d: int)
    requires 0 <= d < 16
    ensures HexDigit(d) == "0123456789ABCDEF"[d]
  {
  }
}
