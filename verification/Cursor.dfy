// Page cursors: {"offset":N} printed as compact JSON and wrapped in padded URL-safe base64
// (section 5 of RFC 4648).
module Cursor {
  import opened Base
  import opened Text

  type Byte = b: int | 0 <= b < 256
  type Sextet = v: int | 0 <= v < 64

  // The URL-safe alphabet of section 5 of RFC 4648.
  function SextetChar(v: Sextet): char
  {
    if v < 26 then (v + 65) as char
    else if v < 52 then (v - 26 + 97) as char
    else if v < 62 then (v - 52 + 48) as char
    else if v == 62 then '-'
    else '_'
  }

  function SextetValue(c: char): Option<Sextet>
  {
    if 'A' <= c <= 'Z' then Some(c as int - 65)
    else if 'a' <= c <= 'z' then Some(c as int - 97 + 26)
    else if '0' <= c <= '9' then Some(c as int - 48 + 52)
    else if c == '-' then Some(62)
    else if c == '_' then Some(63)
    else None
  }

  lemma SextetRoundTrip(v: Sextet)
    ensures SextetValue(SextetChar(v)) == Some(v)
  {
  }

  // Three bytes are cut into four sextets ...
  function Cut0(x: Byte): Sextet { x / 4 }
  function Cut1(x: Byte, y: Byte): Sextet { x % 4 * 16 + y / 16 }
  function Cut2(y: Byte, z: Byte): Sextet { y % 16 * 4 + z / 64 }
  function Cut3(z: Byte): Sextet { z % 64 }

  // ... and four sextets are glued back into three bytes.
  function Glue0(a: Sextet, b: Sextet): Byte { a * 4 + b / 16 }
  function Glue1(b: Sextet, c: Sextet): Byte { b % 16 * 16 + c / 4 }
  function Glue2(c: Sextet, d: Sextet): Byte { c % 4 * 64 + d }

  lemma GlueCut(x: Byte, y: Byte, z: Byte)
    ensures Glue0(Cut0(x), Cut1(x, y)) == x
    ensures Glue1(Cut1(x, y), Cut2(y, z)) == y
    ensures Glue2(Cut2(y, z), Cut3(z)) == z
  {
    assert (x % 4 * 16 + y / 16) / 16 == x % 4 && (x % 4 * 16 + y / 16) % 16 == y / 16;
    assert (y % 16 * 4 + z / 64) / 4 == y % 16 && (y % 16 * 4 + z / 64) % 4 == z / 64;
  }

  function Base64Encode(bytes: seq<Byte>): (s: string)
    ensures bytes != [] ==> s != ""
  {
    if |bytes| == 0 then ""
    else if |bytes| == 1 then [SextetChar(Cut0(bytes[0])), SextetChar(Cut1(bytes[0], 0)), '=', '=']
    else if |bytes| == 2 then
      [SextetChar(Cut0(bytes[0])), SextetChar(Cut1(bytes[0], bytes[1])), SextetChar(Cut2(bytes[1], 0)), '=']
    else
      [SextetChar(Cut0(bytes[0])), SextetChar(Cut1(bytes[0], bytes[1])),
       SextetChar(Cut2(bytes[1], bytes[2])), SextetChar(Cut3(bytes[2]))] + Base64Encode(bytes[3..])
  }

  // Groups of four characters; only the last group may be padded.
  function Base64Decode(s: string): Option<seq<Byte>> {
    if s == "" then Some([])
    else if |s| < 4 then None
    else
      match (SextetValue(s[0]), SextetValue(s[1]), SextetValue(s[2]), SextetValue(s[3]))
      case (Some(a), Some(b), Some(c), Some(d)) =>
        (match Base64Decode(s[4..])
         case Some(rest) => Some([Glue0(a, b), Glue1(b, c), Glue2(c, d)] + rest)
         case None => None)
      case (Some(a), Some(b), Some(c), None) =>
        if s[3..] == "=" then Some([Glue0(a, b), Glue1(b, c)]) else None
      case (Some(a), Some(b), None, None) =>
        if s[2..] == "==" then Some([Glue0(a, b)]) else None
      case _ => None
  }

  lemma DecodeTwoSextets(a: Sextet, b: Sextet)
    ensures Base64Decode([SextetChar(a), SextetChar(b), '=', '=']) == Some([Glue0(a, b)])
  {
    SextetRoundTrip(a);
    SextetRoundTrip(b);
    assert [SextetChar(a), SextetChar(b), '=', '='][2..] == "==";
  }

  lemma DecodeThreeSextets(a: Sextet, b: Sextet, c: Sextet)
    ensures Base64Decode([SextetChar(a), SextetChar(b), SextetChar(c), '=']) == Some([Glue0(a, b), Glue1(b, c)])
  {
    SextetRoundTrip(a);
    SextetRoundTrip(b);
    SextetRoundTrip(c);
    assert [SextetChar(a), SextetChar(b), SextetChar(c), '='][3..] == "=";
  }

  lemma DecodeFourSextets(a: Sextet, b: Sextet, c: Sextet, d: Sextet, s: string, rest: seq<Byte>)
    requires Base64Decode(s) == Some(rest)
    ensures Base64Decode([SextetChar(a), SextetChar(b), SextetChar(c), SextetChar(d)] + s)
            == Some([Glue0(a, b), Glue1(b, c), Glue2(c, d)] + rest)
  {
    SextetRoundTrip(a);
    SextetRoundTrip(b);
    SextetRoundTrip(c);
    SextetRoundTrip(d);
    assert ([SextetChar(a), SextetChar(b), SextetChar(c), SextetChar(d)] + s)[4..] == s;
  }

  lemma DecodeGroup(x: Byte, y: Byte, z: Byte, rest: seq<Byte>)
    requires Base64Decode(Base64Encode(rest)) == Some(rest)
    ensures Base64Decode(Base64Encode([x, y, z] + rest)) == Some([x, y, z] + rest)
  {
    GlueCut(x, y, z);
    assert ([x, y, z] + rest)[3..] == rest;
    DecodeFourSextets(Cut0(x), Cut1(x, y), Cut2(y, z), Cut3(z), Base64Encode(rest), rest);
  }

  lemma DecodeOne(x: Byte)
    ensures Base64Decode(Base64Encode([x])) == Some([x])
  {
    GlueCut(x, 0, 0);
    DecodeTwoSextets(Cut0(x), Cut1(x, 0));
  }

  lemma DecodeTwo(x: Byte, y: Byte)
    ensures Base64Decode(Base64Encode([x, y])) == Some([x, y])
  {
    GlueCut(x, y, 0);
    DecodeThreeSextets(Cut0(x), Cut1(x, y), Cut2(y, 0));
  }

  lemma {:induction false} Base64RoundTrip(bytes: seq<Byte>)
    ensures Base64Decode(Base64Encode(bytes)) == Some(bytes)
  {
    if |bytes| == 1 {
      DecodeOne(bytes[0]);
      assert bytes == [bytes[0]];
    } else if |bytes| == 2 {
      DecodeTwo(bytes[0], bytes[1]);
      assert bytes == [bytes[0], bytes[1]];
    } else if |bytes| >= 3 {
      Base64RoundTrip(bytes[3..]);
      DecodeGroup(bytes[0], bytes[1], bytes[2], bytes[3..]);
      assert bytes == [bytes[0], bytes[1], bytes[2]] + bytes[3..];
    }
  }

  // ---------- the JSON payload ----------

  const OFFSET_OPEN := "{\"offset\":"

  function OffsetJson(offset: int): (s: string)
    ensures IsAscii(s)
  {
    OFFSET_OPEN + DecimalInt(offset) + "}"
  }

  // A JSON integer: an optional sign and digits without a leading zero.
  function ParseInt(s: string): Option<int> {
    if s != "" && s[0] == '-' then
      (if IsPlainInt(s[1..]) then Some(-(ParseDigits(s[1..]) as int)) else None)
    else if IsPlainInt(s) then Some(ParseDigits(s))
    else None
  }

  predicate IsPlainInt(s: string) {
    s != "" && AllDigits(s) && (s[0] != '0' || |s| == 1)
  }

  function ParseOffset(s: string): Option<int> {
    var n := |OFFSET_OPEN|;
    if |s| > n && s[..n] == OFFSET_OPEN && s[|s| - 1] == '}' then ParseInt(s[n..|s| - 1]) else None
  }

  predicate IsAscii(s: string) {
    forall i :: 0 <= i < |s| ==> s[i] < 128 as char
  }

  function AsciiBytes(s: string): (bytes: seq<Byte>)
    requires IsAscii(s)
    ensures |bytes| == |s|
  {
    seq(|s|, i requires 0 <= i < |s| => s[i] as int)
  }

  function AsciiText(bytes: seq<Byte>): Option<string> {
    if exists i :: 0 <= i < |bytes| && bytes[i] >= 128 then None
    else Some(seq(|bytes|, i requires 0 <= i < |bytes| => bytes[i] as char))
  }

  function EncodeCursor(offset: int): string {
    Base64Encode(AsciiBytes(OffsetJson(offset)))
  }

  // A missing or empty cursor is offset 0; a negative offset is clamped to 0.
  function DecodeCursor(cursor: Option<string>): Result<nat> {
    if cursor.None? || cursor.value == "" then Ok(0)
    else
      match Base64Decode(cursor.value)
      case None => Err(BadRequest("invalid_cursor"))
      case Some(bytes) =>
        match AsciiText(bytes)
        case None => Err(BadRequest("invalid_cursor"))
        case Some(text) =>
          match ParseOffset(text)
          case None => Err(BadRequest("invalid_cursor"))
          case Some(n) => Ok(if n < 0 then 0 else n)
  }

  lemma IntRoundTrip(n: int)
    ensures ParseInt(DecimalInt(n)) == Some(n)
  {
    var s := DecimalInt(n);
    if n < 0 {
      assert s[1..] == Decimal(-n);
      ParseDecimal(-n);
    } else {
      ParseDecimal(n);
      assert IsDigit(s[0]);
    }
  }

  lemma OffsetJsonRoundTrip(offset: int)
    ensures ParseOffset(OffsetJson(offset)) == Some(offset)
  {
    var s := OffsetJson(offset);
    assert s[|OFFSET_OPEN|..|s| - 1] == DecimalInt(offset);
    IntRoundTrip(offset);
  }

  lemma AsciiRoundTrip(s: string)
    requires IsAscii(s)
    ensures AsciiText(AsciiBytes(s)) == Some(s)
  {
    var bytes := AsciiBytes(s);
    assert forall i :: 0 <= i < |bytes| ==> bytes[i] < 128 && bytes[i] as char == s[i];
    assert AsciiText(bytes).value == s;
  }

  lemma DecodeBytes(cursor: string, bytes: seq<Byte>)
    requires cursor != "" && Base64Decode(cursor) == Some(bytes)
    requires AsciiText(bytes).Some? && ParseOffset(AsciiText(bytes).value).Some?
    ensures var n := ParseOffset(AsciiText(bytes).value).value;
            DecodeCursor(Some(cursor)) == Ok(if n < 0 then 0 else n)
  {
  }

  // Every cursor the service hands out is non-empty and reads back as the offset it was made from,
  // clamped at zero.
  lemma CursorRoundTrip(offset: int)
    ensures EncodeCursor(offset) != ""
    ensures DecodeCursor(Some(EncodeCursor(offset))) == Ok(if offset < 0 then 0 else offset)
  {
    var text := OffsetJson(offset);
    var bytes := AsciiBytes(text);
    Base64RoundTrip(bytes);
    AsciiRoundTrip(text);
    OffsetJsonRoundTrip(offset);
    assert bytes != [];
    DecodeBytes(Base64Encode(bytes), bytes);
  }

  lemma CursorInjective(m: nat, n: nat)
    requires EncodeCursor(m) == EncodeCursor(n)
    ensures m == n
  {
    CursorRoundTrip(m);
    CursorRoundTrip(n);
  }
}
