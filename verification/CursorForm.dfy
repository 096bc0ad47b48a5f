// The cursors the service hands out, character by character, and exactly which ones it accepts back
// (encode_cursor and decode_cursor of panda_trace/log_query.py).
module CursorForm {
  import opened Base
  import opened Text
  import opened Cursor

  // The four characters of a whole group.
  function Coded(x: Byte, y: Byte, z: Byte): string {
    [SextetChar(Cut0(x)), SextetChar(Cut1(x, y)), SextetChar(Cut2(y, z)), SextetChar(Cut3(z))]
  }

  lemma Group(x: Byte, y: Byte, z: Byte, rest: seq<Byte>)
    ensures Base64Encode([x, y, z] + rest) == Coded(x, y, z) + Base64Encode(rest)
  {
    assert ([x, y, z] + rest)[3..] == rest;
  }

  // The test vectors of section 10 of RFC 4648: "f", "fo", "foo" and "foobar".
  lemma ShortVectors()
    ensures Base64Encode([]) == "" && Base64Encode([102]) == "Zg==" && Base64Encode([102, 111]) == "Zm8="
  {
  }

  lemma LongVectors()
    ensures Base64Encode([102, 111, 111]) == "Zm9v"
    ensures Base64Encode([102, 111, 111] + [98, 97, 114]) == "Zm9vYmFy"
  {
    assert Coded(102, 111, 111) == "Zm9v" && Coded(98, 97, 114) == "YmFy";
    hide Coded;
    Group(102, 111, 111, []);
    Group(98, 97, 114, []);
    Group(102, 111, 111, [98, 97, 114]);
    assert [102, 111, 111] + [] == [102, 111, 111] && [98, 97, 114] + [] == [98, 97, 114];
    hide *;
    assert "Zm9vYmFy" == "Zm9v" + "YmFy";
  }

  // The two characters in which the URL-safe alphabet differs.
  lemma UrlSafeVector()
    ensures Base64Encode([251, 255]) == "-_8="
  {
  }

  // The cursor of the first page, {"offset":0}.
  lemma FirstCursor()
    ensures EncodeCursor(0) == "eyJvZmZzZXQiOjB9"
  {
    FirstBytes();
    FirstGroups();
    hide *;
    var d := [58, 48, 125];
    var c := [101, 116, 34] + d;
    var b := [102, 102, 115] + c;
    Group(123, 34, 111, b);
    Group(102, 102, 115, c);
    Group(101, 116, 34, d);
    Group(58, 48, 125, []);
    assert d + [] == d;
    NothingCoded();
    assert "eyJvZmZzZXQiOjB9" == "eyJv" + ("ZmZz" + ("ZXQi" + "OjB9"));
  }

  lemma NothingCoded()
    ensures Base64Encode([]) == ""
  {
  }

  lemma FirstGroups()
    ensures Coded(123, 34, 111) == "eyJv" && Coded(102, 102, 115) == "ZmZz"
    ensures Coded(101, 116, 34) == "ZXQi" && Coded(58, 48, 125) == "OjB9"
  {
  }

  lemma FirstBytes()
    ensures EncodeCursor(0) == Base64Encode([123, 34, 111] + ([102, 102, 115] + ([101, 116, 34] + [58, 48, 125])))
  {
    assert DecimalInt(0) == "0";
    assert OffsetJson(0) == "{\"offset\":0}";
    assert AsciiBytes("{\"offset\":0}")
           == [123, 34, 111] + ([102, 102, 115] + ([101, 116, 34] + [58, 48, 125]));
    hide Base64Encode;
  }

  // ---------- what is accepted ----------

  lemma {:induction false} NumeralIsDecimal(s: string)
    requires IsPlainInt(s)
    ensures Decimal(ParseDigits(s)) == s
  {
    var n := |s| - 1;
    if n == 0 {
      assert s[..n] == "" && ParseDigits("") == 0;
      assert s == [Digit(DigitValue(s[0]))];
    } else {
      NumeralIsDecimal(s[..n]);
      PositiveNumeral(s[..n]);
      var q, d := ParseDigits(s[..n]), DigitValue(s[n]);
      assert (10 * q + d) / 10 == q && (10 * q + d) % 10 == d;
      assert Digit(d) == s[n];
      assert s == s[..n] + [s[n]];
    }
  }

  // A numeral that does not begin with a zero is not zero.
  lemma {:induction false} PositiveNumeral(s: string)
    requires s != "" && AllDigits(s) && s[0] != '0'
    ensures ParseDigits(s) >= 1
  {
    if |s| == 1 {
      assert s[..0] == "";
    } else {
      PositiveNumeral(s[..|s| - 1]);
    }
  }

  // The spellings of an integer in JSON: its decimal one, and for zero also "-0".
  predicate SpellsInt(s: string, n: int) {
    s == DecimalInt(n) || (s == "-0" && n == 0)
  }

  lemma ParseIntIff(s: string, n: int)
    ensures ParseInt(s) == Some(n) <==> SpellsInt(s, n)
  {
    if SpellsInt(s, n) {
      IntRoundTrip(n);
      assert "-0"[1..] == "0" && "0"[..0] == "";
    }
    if ParseInt(s) == Some(n) {
      if s[0] == '-' {
        NumeralIsDecimal(s[1..]);
        NegativeSpelling(s, n);
      } else {
        NumeralIsDecimal(s);
      }
    }
  }

  lemma NegativeSpelling(s: string, n: int)
    requires s != "" && s[0] == '-' && IsPlainInt(s[1..]) && n == -(ParseDigits(s[1..]) as int)
    requires Decimal(ParseDigits(s[1..])) == s[1..]
    ensures SpellsInt(s, n)
  {
    assert s == "-" + s[1..];
    if n == 0 {
      assert Decimal(0) == "0";
    }
  }

  // {"offset":n} as compact JSON.
  ghost predicate HoldsOffset(text: string, n: int) {
    exists number :: SpellsInt(number, n) && text == "{\"offset\":" + number + "}"
  }

  lemma ParseOffsetIff(text: string, n: int)
    ensures ParseOffset(text) == Some(n) <==> HoldsOffset(text, n)
  {
    var k := |OFFSET_OPEN|;
    if HoldsOffset(text, n) {
      var number :| SpellsInt(number, n) && text == "{\"offset\":" + number + "}";
      ParseIntIff(number, n);
      assert number != "";
      assert text[..k] == OFFSET_OPEN && text[k..|text| - 1] == number;
    }
    if ParseOffset(text) == Some(n) {
      var number := text[k..|text| - 1];
      ParseIntIff(number, n);
      assert text == "{\"offset\":" + number + "}";
    }
  }

  lemma AsciiTextIff(bytes: seq<Byte>, text: string)
    ensures AsciiText(bytes) == Some(text) <==> IsAscii(text) && AsciiBytes(text) == bytes
  {
    if IsAscii(text) && AsciiBytes(text) == bytes {
      AsciiRoundTrip(text);
    }
    if AsciiText(bytes) == Some(text) {
      assert AsciiBytes(text) == bytes;
    }
  }

  // The cursor is the base64 form of {"offset":n}.
  ghost predicate CursorOf(cursor: string, n: int) {
    exists text :: HoldsOffset(text, n) && IsAscii(text) && Base64Decode(cursor) == Some(AsciiBytes(text))
  }

  // A cursor is read as an offset if and only if it is missing or empty, for zero, or the base64 form of
  // {"offset":n}, for n or, if that is negative, for zero. Any other cursor is an error.
  lemma CursorReadIff(cursor: Option<string>, offset: nat)
    ensures DecodeCursor(cursor) == Ok(offset) <==>
              if cursor.None? || cursor.value == "" then offset == 0
              else exists n :: CursorOf(cursor.value, n) && offset == if n < 0 then 0 else n
    ensures DecodeCursor(cursor).Err? ==> DecodeCursor(cursor).error == BadRequest("invalid_cursor")
  {
    if cursor.Some? && cursor.value != "" {
      if DecodeCursor(cursor) == Ok(offset) {
        var bytes := Base64Decode(cursor.value).value;
        var text := AsciiText(bytes).value;
        var n := ParseOffset(text).value;
        AsciiTextIff(bytes, text);
        ParseOffsetIff(text, n);
        assert CursorOf(cursor.value, n);
      }
      if n :| CursorOf(cursor.value, n) && offset == if n < 0 then 0 else n {
        var text :| HoldsOffset(text, n) && IsAscii(text) && Base64Decode(cursor.value) == Some(AsciiBytes(text));
        AsciiTextIff(AsciiBytes(text), text);
        ParseOffsetIff(text, n);
        DecodeBytes(cursor.value, AsciiBytes(text));
      }
    }
  }
}
