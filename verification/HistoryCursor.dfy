/**
 The text form of a payment history cursor: base64url (section 5 of RFC 4648, without padding) of a
 JSON object. JSON and the date parser are libraries and come in as functions.
 */
module HistoryCursor {
  import opened Wrappers

  type Byte = x: int | 0 <= x < 256

  // ---------------------------------------------------------------- base64url

  function Letter(v: nat): (c: char)
    requires v < 64
    ensures IsLetter(c) && Sextet(c) == v
  {
    if v < 26 then 'A' + v as char
    else if v < 52 then 'a' + (v - 26) as char
    else if v < 62 then '0' + (v - 52) as char
    else if v == 62 then '-' else '_'
  }

  predicate IsLetter(c: char) {
    'A' <= c <= 'Z' || 'a' <= c <= 'z' || '0' <= c <= '9' || c == '-' || c == '_'
  }

  function Sextet(c: char): (v: nat)
    requires IsLetter(c)
    ensures v < 64
  {
    if 'A' <= c <= 'Z' then c as int - 'A' as int
    else if 'a' <= c <= 'z' then c as int - 'a' as int + 26
    else if '0' <= c <= '9' then c as int - '0' as int + 52
    else if c == '-' then 62 else 63
  }

  predicate AllLetters(s: string) {
    forall i :: 0 <= i < |s| ==> IsLetter(s[i])
  }

  function ToBase64Url(b: seq<Byte>): (s: string)
    ensures AllLetters(s) && (s == "" <==> b == [])
  {
    if b == [] then ""
    else if |b| == 1 then [Letter(b[0] / 4), Letter(b[0] % 4 * 16)]
    else if |b| == 2 then [Letter(b[0] / 4), Letter(b[0] % 4 * 16 + b[1] / 16), Letter(b[1] % 16 * 4)]
    else
      [Letter(b[0] / 4), Letter(b[0] % 4 * 16 + b[1] / 16), Letter(b[1] % 16 * 4 + b[2] / 64), Letter(b[2] % 64)]
      + ToBase64Url(b[3..])
  }

  /** Reads whole groups of letters; left-over bits, and a single left-over letter, are dropped. */
  function FromBase64Url(s: string): seq<Byte>
    requires AllLetters(s)
  {
    if |s| <= 1 then []
    else
      var first: Byte := Sextet(s[0]) * 4 + Sextet(s[1]) / 16;
      if |s| == 2 then [first]
      else
        var second: Byte := Sextet(s[1]) % 16 * 16 + Sextet(s[2]) / 4;
        if |s| == 3 then [first, second]
        else
          var third: Byte := Sextet(s[2]) % 4 * 64 + Sextet(s[3]);
          [first, second, third] + FromBase64Url(s[4..])
  }

  /** The alphabet of section 5 of RFC 4648: where its ranges begin and end, and that they run through. */
  lemma AlphabetIsBase64Url(v: nat)
    requires v < 64
    ensures Letter(0) == 'A' && Letter(25) == 'Z' && Letter(26) == 'a' && Letter(51) == 'z'
    ensures Letter(52) == '0' && Letter(61) == '9' && Letter(62) == '-' && Letter(63) == '_'
    ensures v !in {25, 51, 61, 62, 63} ==> Letter(v + 1) as int == Letter(v) as int + 1
  {
  }

  /** The value of a text read as a number in base `base`, digit by digit. */
  function Number(digits: seq<nat>, base: nat): nat {
    if digits == [] then 0 else Number(digits[..|digits| - 1], base) * base + digits[|digits| - 1]
  }

  lemma NumberOfThree(a: nat, b: nat, c: nat, base: nat)
    ensures Number([a, b, c], base) == (a * base + b) * base + c
  {
    assert [a][..0] == [] && [a, b][..1] == [a] && [a, b, c][..2] == [a, b];
    assert Number([a], base) == a;
    assert Number([a, b], base) == a * base + b;
  }

  lemma NumberOfFour(a: nat, b: nat, c: nat, d: nat, base: nat)
    ensures Number([a, b, c, d], base) == ((a * base + b) * base + c) * base + d
  {
    assert [a, b, c, d][..3] == [a, b, c];
    NumberOfThree(a, b, c, base);
  }

  /** Three bytes and the four letters for them are the same number of 24 bits. */
  lemma GroupsKeepTheirBits(b: seq<Byte>)
    requires |b| >= 3
    ensures var s := ToBase64Url(b);
            |s| >= 4 && Number([Sextet(s[0]), Sextet(s[1]), Sextet(s[2]), Sextet(s[3])], 64) == Number([b[0], b[1], b[2]], 256)
  {
    var s := ToBase64Url(b);
    NumberOfThree(b[0], b[1], b[2], 256);
    NumberOfFour(Sextet(s[0]), Sextet(s[1]), Sextet(s[2]), Sextet(s[3]), 64);
  }

  lemma {:induction false} Base64UrlRoundTrip(b: seq<Byte>)
    ensures FromBase64Url(ToBase64Url(b)) == b
    decreases |b|
  {
    if |b| == 1 {
      assert b == [b[0]];
    } else if |b| == 2 {
      assert b == [b[0], b[1]];
    } else if |b| >= 3 {
      Base64UrlRoundTrip(b[3..]);
      assert ToBase64Url(b)[4..] == ToBase64Url(b[3..]);
      assert b == [b[0], b[1], b[2]] + b[3..];
    }
  }

  /** Re-encoding what was read accepts exactly the strings that the encoder writes. */
  lemma ReencodingFindsCanonical(s: string)
    ensures AllLetters(s) && ToBase64Url(FromBase64Url(s)) == s <==> exists b :: s == ToBase64Url(b)
  {
    if b :| s == ToBase64Url(b) {
      Base64UrlRoundTrip(b);
    }
  }

  // ---------------------------------------------------------------- The cursor

  datatype Cursor = Cursor(createdAt: string, id: string)

  /** A JSON value, as far as the decoder looks at it: the two members if they are strings. */
  datatype Json = Object(createdAt: Option<string>, id: Option<string>) | NotAnObject

  /** The library functions in use: JSON over UTF-8, which may fail to parse, and whether Date.parse is finite. */
  datatype Library = Library(stringify: Json -> seq<Byte>, parse: seq<Byte> -> Option<Json>, isDate: string -> bool)

  predicate IsHex(c: char) {
    '0' <= c <= '9' || 'a' <= c <= 'f' || 'A' <= c <= 'F'
  }

  /** The pattern of a UUID: 8-4-4-4-12 hexadecimal digits. */
  predicate IsUuid(s: string) {
    && |s| == 36
    && forall i :: 0 <= i < 36 ==> if i in {8, 13, 18, 23} then s[i] == '-' else IsHex(s[i])
  }

  predicate AllHex(s: string) {
    forall i :: 0 <= i < |s| ==> IsHex(s[i])
  }

  /** Five groups of 8, 4, 4, 4 and 12 hexadecimal digits. */
  predicate Groups(a: string, b: string, c: string, d: string, e: string) {
    |a| == 8 && |b| == 4 && |c| == 4 && |d| == 4 && |e| == 12
    && AllHex(a) && AllHex(b) && AllHex(c) && AllHex(d) && AllHex(e)
  }

  lemma UuidIsGroups(s: string)
    ensures IsUuid(s) <==> exists a, b, c, d, e :: Groups(a, b, c, d, e) && s == a + "-" + b + "-" + c + "-" + d + "-" + e
  {
    if IsUuid(s) {
      var a, b, c, d, e := s[..8], s[9..13], s[14..18], s[19..23], s[24..];
      assert Groups(a, b, c, d, e) && s == a + "-" + b + "-" + c + "-" + d + "-" + e;
    }
    forall a, b, c, d, e | Groups(a, b, c, d, e) ensures IsUuid(a + "-" + b + "-" + c + "-" + d + "-" + e) {
      GroupsAreUuid(a, b, c, d, e);
    }
  }

  lemma GroupsAreUuid(a: string, b: string, c: string, d: string, e: string)
    requires Groups(a, b, c, d, e)
    ensures IsUuid(a + "-" + b + "-" + c + "-" + d + "-" + e)
  {
    var s := a + "-" + b + "-" + c + "-" + d + "-" + e;
    forall i | 0 <= i < 36 && i !in {8, 13, 18, 23} ensures IsHex(s[i]) {
      assert s[i] == if i < 8 then a[i] else if i < 13 then b[i - 9] else if i < 18 then c[i - 14]
                     else if i < 23 then d[i - 19] else e[i - 24];
    }
  }

  predicate ValidCursor(lib: Library, v: Json) {
    && v.Object? && v.createdAt.Some? && v.id.Some?
    && lib.isDate(v.createdAt.value) && IsUuid(v.id.value)
  }

  function DecodeHistoryCursor(lib: Library, cursor: string): Option<Cursor> {
    if cursor == "" || !AllLetters(cursor) then None
    else
      var decoded := FromBase64Url(cursor);
      if ToBase64Url(decoded) != cursor then None
      else
        var value := lib.parse(decoded);
        if value.None? || !ValidCursor(lib, value.value) then None
        else Some(Cursor(value.value.createdAt.value, value.value.id.value))
  }

  function EncodeHistoryCursor(lib: Library, createdAt: string, id: string): string {
    ToBase64Url(lib.stringify(Object(Some(createdAt), Some(id))))
  }

  /** A cursor handed out by a page is read back as the position it was made from. */
  lemma CursorRoundTrip(lib: Library, createdAt: string, id: string)
    requires var v := Object(Some(createdAt), Some(id)); lib.parse(lib.stringify(v)) == Some(v) && lib.stringify(v) != []
    requires lib.isDate(createdAt) && IsUuid(id)
    ensures DecodeHistoryCursor(lib, EncodeHistoryCursor(lib, createdAt, id)) == Some(Cursor(createdAt, id))
  {
    Base64UrlRoundTrip(lib.stringify(Object(Some(createdAt), Some(id))));
  }

  /** Exactly the canonical encodings of an object with a date and a UUID are accepted; everything else is refused. */
  lemma AcceptsExactlyCanonicalCursors(lib: Library, cursor: string, c: Cursor)
    ensures DecodeHistoryCursor(lib, cursor) == Some(c)
            <==> lib.isDate(c.createdAt) && IsUuid(c.id)
                 && exists b :: b != [] && cursor == ToBase64Url(b) && lib.parse(b) == Some(Object(Some(c.createdAt), Some(c.id)))
  {
    ReencodingFindsCanonical(cursor);
    forall b | cursor == ToBase64Url(b) ensures b == FromBase64Url(cursor) {
      Base64UrlRoundTrip(b);
    }
  }
}
