/** UTF-8 validity and the length-prefixed string fields of section 1.5.3 of MQTT 3.1.1. */
module Utf8 {
  import opened Common
  import opened Errors

  predicate Continuation(b: byte) {
    0x80 <= b < 0xC0
  }

  /** Bytes taken by the scalar value at the front of `s`; 0 when no well-formed one starts there. */
  function ScalarWidth(s: seq<byte>): (k: nat)
    requires s != []
    ensures k <= |s|
  {
    var b := s[0];
    if b < 0x80 then 1
    else if |s| >= 2 && 0xC2 <= b < 0xE0 && Continuation(s[1]) then 2
    else if && |s| >= 3 && 0xE0 <= b < 0xF0 && Continuation(s[1]) && Continuation(s[2])
            && (b == 0xE0 ==> s[1] >= 0xA0) && (b == 0xED ==> s[1] < 0xA0) then 3
    else if && |s| >= 4 && 0xF0 <= b < 0xF5
            && Continuation(s[1]) && Continuation(s[2]) && Continuation(s[3])
            && (b == 0xF0 ==> s[1] >= 0x90) && (b == 0xF4 ==> s[1] < 0x90) then 4
    else 0
  }

  predicate Valid(s: seq<byte>) {
    s == [] || (ScalarWidth(s) > 0 && Valid(s[ScalarWidth(s)..]))
  }

  lemma {:induction false} AsciiValid(s: seq<byte>)
    requires forall i :: 0 <= i < |s| ==> s[i] < 0x80
    ensures Valid(s)
  {
    if s != [] {
      AsciiValid(s[1..]);
    }
  }

  // ---- The same by code points ----

  /** The code points that UTF-8 encodes: all but the surrogates. */
  predicate Scalar(c: int) {
    0 <= c < 0xD800 || 0xE000 <= c < 0x11_0000
  }

  /** The UTF-8 encoding of one code point, table 3-6 of the Unicode Standard. */
  function EncodeScalar(c: int): (s: seq<byte>)
    requires Scalar(c)
    ensures s != []
  {
    if c < 0x80 then [c]
    else if c < 0x800 then [0xC0 + c / 64, 0x80 + c % 64]
    else if c < 0x1_0000 then [0xE0 + c / 4096, 0x80 + c / 64 % 64, 0x80 + c % 64]
    else [0xF0 + c / 262_144, 0x80 + c / 4096 % 64, 0x80 + c / 64 % 64, 0x80 + c % 64]
  }

  ghost predicate Scalars(cs: seq<int>) {
    forall i :: 0 <= i < |cs| ==> Scalar(cs[i])
  }

  function EncodeText(cs: seq<int>): seq<byte>
    requires forall i :: 0 <= i < |cs| ==> Scalar(cs[i])
  {
    if cs == [] then [] else EncodeScalar(cs[0]) + EncodeText(cs[1..])
  }

  /** Appending a group of six bits. */
  lemma SixBits(high: nat, low: nat)
    requires low < 64
    ensures (64 * high + low) / 64 == high && (64 * high + low) % 64 == low
  {
  }

  lemma DivideTwice(c: nat)
    ensures c / 64 / 64 == c / 4096 && c / 4096 / 64 == c / 262_144
  {
  }

  lemma WidthOfLong(c: int, s: seq<byte>)
    requires Scalar(c) && c >= 0x1_0000 && |s| >= 4 && s[..4] == EncodeScalar(c)
    ensures ScalarWidth(s) == 4
  {
    assert s[0] == s[..4][0] && s[1] == s[..4][1] && s[2] == s[..4][2] && s[3] == s[..4][3];
    DivideTwice(c);
  }

  lemma WidthOfMiddle(c: int, s: seq<byte>)
    requires Scalar(c) && 0x800 <= c < 0x1_0000 && |s| >= 3 && s[..3] == EncodeScalar(c)
    ensures ScalarWidth(s) == 3
  {
    assert s[0] == s[..3][0] && s[1] == s[..3][1] && s[2] == s[..3][2];
    DivideTwice(c);
  }

  lemma WidthOfShort(c: int, s: seq<byte>)
    requires Scalar(c) && c < 0x800 && EncodeScalar(c) <= s
    ensures ScalarWidth(s) == |EncodeScalar(c)|
  {
  }

  /** An encoded code point is taken off as a whole. */
  lemma WidthOfScalar(c: int, rest: seq<byte>)
    requires Scalar(c)
    ensures ScalarWidth(EncodeScalar(c) + rest) == |EncodeScalar(c)|
  {
    hide ScalarWidth;
    var s := EncodeScalar(c) + rest;
    if c < 0x800 {
      WidthOfShort(c, s);
    } else if c < 0x1_0000 {
      assert s[..3] == EncodeScalar(c);
      WidthOfMiddle(c, s);
    } else {
      assert s[..4] == EncodeScalar(c);
      WidthOfLong(c, s);
    }
  }

  lemma TwoBytes(a: byte, b: byte) returns (c: int)
    requires 0xC2 <= a < 0xE0 && Continuation(b)
    ensures Scalar(c) && EncodeScalar(c) == [a, b]
  {
    c := 64 * (a as int - 0xC0) + (b as int - 0x80);
    SixBits(a - 0xC0, b - 0x80);
  }

  lemma ThreeBytes(a: byte, b: byte, d: byte) returns (c: int)
    requires 0xE0 <= a < 0xF0 && Continuation(b) && Continuation(d)
    requires (a == 0xE0 ==> b >= 0xA0) && (a == 0xED ==> b < 0xA0)
    ensures Scalar(c) && EncodeScalar(c) == [a, b, d]
  {
    var high: nat := 64 * (a as int - 0xE0) + (b as int - 0x80);
    c := 64 * high + (d as int - 0x80);
    SixBits(a - 0xE0, b - 0x80);
    SixBits(high, d - 0x80);
    DivideTwice(c);
  }

  lemma FourBytes(a: byte, b: byte, d: byte, e: byte) returns (c: int)
    requires 0xF0 <= a < 0xF5 && Continuation(b) && Continuation(d) && Continuation(e)
    requires (a == 0xF0 ==> b >= 0x90) && (a == 0xF4 ==> b < 0x90)
    ensures Scalar(c) && EncodeScalar(c) == [a, b, d, e]
  {
    var high: nat := 64 * (a as int - 0xF0) + (b as int - 0x80);
    var middle: nat := 64 * high + (d as int - 0x80);
    c := 64 * middle + (e as int - 0x80);
    SixBits(a - 0xF0, b - 0x80);
    SixBits(high, d - 0x80);
    SixBits(middle, e - 0x80);
    DivideTwice(c);
    DivideTwice(middle);
  }

  /** And what is taken off is an encoded code point. */
  lemma ScalarAtFront(s: seq<byte>) returns (c: int)
    requires s != [] && ScalarWidth(s) > 0
    ensures Scalar(c) && s[..ScalarWidth(s)] == EncodeScalar(c)
  {
    var k := ScalarWidth(s);
    if k == 1 {
      c := s[0];
    } else if k == 2 {
      c := TwoBytes(s[0], s[1]);
    } else if k == 3 {
      c := ThreeBytes(s[0], s[1], s[2]);
    } else {
      c := FourBytes(s[0], s[1], s[2], s[3]);
    }
  }

  lemma {:induction false} EncodedTextValid(cs: seq<int>)
    requires Scalars(cs)
    ensures Valid(EncodeText(cs))
  {
    if cs != [] {
      hide ScalarWidth, EncodeScalar;
      EncodedTextValid(cs[1..]);
      WidthOfScalar(cs[0], EncodeText(cs[1..]));
      assert EncodeText(cs)[|EncodeScalar(cs[0])|..] == EncodeText(cs[1..]);
    }
  }

  lemma {:induction false} ValidIsText(s: seq<byte>) returns (cs: seq<int>)
    requires Valid(s)
    ensures Scalars(cs) && EncodeText(cs) == s
  {
    if s == [] {
      cs := [];
    } else {
      hide ScalarWidth, EncodeScalar;
      var c := ScalarAtFront(s);
      var rest := ValidIsText(s[ScalarWidth(s)..]);
      cs := [c] + rest;
      assert cs[1..] == rest;
      assert s == s[..ScalarWidth(s)] + s[ScalarWidth(s)..];
    }
  }

  /** Valid means: the encodings of some code points, one after the other. */
  lemma ValidExactly(s: seq<byte>)
    ensures Valid(s) <==> exists cs :: Scalars(cs) && EncodeText(cs) == s
  {
    if Valid(s) {
      var cs := ValidIsText(s);
    }
    forall cs | Scalars(cs) && EncodeText(cs) == s
      ensures Valid(s)
    {
      EncodedTextValid(cs);
    }
  }

  const MAX_STRING: u16 := 65_535

  /** A string that a two-byte length prefix can announce. */
  predicate Encodable(s: Str) {
    |s| <= MAX_STRING && Valid(s)
  }

  /** Writes a string field; the prefix saturates and the bytes are cut at 65,535. */
  function EncodeString(s: Str): seq<byte> {
    var len := if |s| < MAX_STRING then |s| else MAX_STRING;
    ToBe(len) + s[..len]
  }

  function DecodeString(buf: seq<byte>): (r: Decoded<(Str, nat)>)
    ensures r.Ok? ==> 2 <= r.value.1 <= |buf| && r.value.1 == 2 + |r.value.0|
    ensures r.Err? ==> r.error.MalformedPayload?
  {
    if |buf| < 2 then Err(MalformedPayload(StringPrefixTruncated))
    else
      var end := 2 + FromBe(buf[0], buf[1]);
      if |buf| < end then Err(MalformedPayload(StringTooLong))
      else if !Valid(buf[2..end]) then Err(MalformedPayload(InvalidUtf8))
      else Ok((buf[2..end], end))
  }

  lemma StringBytes(s: Str)
    ensures |s| <= 65_535 ==> EncodeString(s) == [|s| / 256, |s| % 256] + s
    ensures |s| > 65_535 ==> EncodeString(s) == [255, 255] + s[..65_535]
  {
    hide Valid;
    assert s[..|s|] == s;
  }

  lemma ReadField(s: Str, rest: seq<byte>)
    requires |s| <= 65_535 && Valid(s)
    ensures DecodeString([|s| / 256, |s| % 256] + s + rest) == Ok((s, 2 + |s|))
  {
    hide Valid;
    var buf := [|s| / 256, |s| % 256] + s + rest;
    assert buf[2..2 + |s|] == s;
  }

  lemma DecodedShort(buf: seq<byte>)
    requires DecodeString(buf).Ok?
    ensures |DecodeString(buf).value.0| <= 65_535
  {
    hide Valid;
  }

  /** A string field is its length, high byte first, and its bytes, cut at 65,535. It is read back, whatever follows,
      exactly when it was short enough not to be cut. */
  lemma StringRoundTrip(s: Str, rest: seq<byte>)
    requires Valid(s)
    ensures DecodeString(EncodeString(s) + rest) == Ok((s, 2 + |s|)) <==> |s| <= MAX_STRING
    ensures |s| <= 65_535 ==> EncodeString(s) == [|s| / 256, |s| % 256] + s
    ensures |s| > 65_535 ==> EncodeString(s) == [255, 255] + s[..65_535]
  {
    hide EncodeString, DecodeString, Valid;
    StringBytes(s);
    if |s| <= 65_535 {
      ReadField(s, rest);
    } else if DecodeString(EncodeString(s) + rest).Ok? {
      DecodedShort(EncodeString(s) + rest);
    }
  }

  /** Whatever is accepted has the length that the first two bytes say, high byte first, is encodable, and its encoding
      is the bytes that were read. */
  lemma StringNormalForm(buf: seq<byte>)
    requires DecodeString(buf).Ok?
    ensures var (s, n) := DecodeString(buf).value;
            && Encodable(s) && EncodeString(s) == buf[..n]
            && |s| == 256 * buf[0] as int + buf[1] as int && s == buf[2..n]
  {
    var (s, n) := DecodeString(buf).value;
    assert s[..|s|] == s;
  }
}
