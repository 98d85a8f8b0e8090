/**
 * The byte count of src/contracts/browser-wire.ts against the encoding it counts: UTF-8 as in section 3
 * of RFC 3629, of a UTF-16 text whose lone surrogates are replaced, as TextEncoder does.
 */
module Utf8 {
  import opened Wrappers
  import opened BrowserWire

  type CodePoint = c: int | 0 <= c < 0x11_0000

  const REPLACEMENT: CodePoint := 0xFFFD

  /** The code point of a surrogate pair. */
  function Paired(high: CodeUnit, low: CodeUnit): CodePoint
    requires 0xD800 <= high < 0xDC00 && 0xDC00 <= low < 0xE000
  {
    0x1_0000 + (high as int - 0xD800) * 0x400 + (low as int - 0xDC00)
  }

  /** The code points of a text: pairs joined, lone surrogates replaced. */
  function CodePoints(t: Text): seq<CodePoint> {
    if t == [] then []
    else if 0xD800 <= t[0] < 0xDC00 && |t| > 1 && 0xDC00 <= t[1] < 0xE000 then
      [Paired(t[0], t[1])] + CodePoints(t[2..])
    else [if 0xD800 <= t[0] < 0xE000 then REPLACEMENT else t[0]] + CodePoints(t[1..])
  }

  function EncodeOne(c: CodePoint): seq<int> {
    if c < 0x80 then [c]
    else if c < 0x800 then [0xC0 + c / 0x40, 0x80 + c % 0x40]
    else if c < 0x1_0000 then [0xE0 + c / 0x1000, 0x80 + c / 0x40 % 0x40, 0x80 + c % 0x40]
    else [0xF0 + c / 0x4_0000, 0x80 + c / 0x1000 % 0x40, 0x80 + c / 0x40 % 0x40, 0x80 + c % 0x40]
  }

  function Encode(cs: seq<CodePoint>): seq<int> {
    if cs == [] then [] else EncodeOne(cs[0]) + Encode(cs[1..])
  }

  predicate Continues(bytes: seq<int>, n: nat) {
    |bytes| > n && forall i :: 1 <= i <= n ==> 0x80 <= bytes[i] < 0xC0
  }

  /** The first code point and its length; what is not the shortest form is not decoded. */
  function DecodeOne(bytes: seq<int>): Option<(int, nat)>
    requires bytes != []
  {
    var b := bytes[0];
    if 0 <= b < 0x80 then Some((b, 1))
    else if 0xC0 <= b < 0xE0 && Continues(bytes, 1) then
      var c := (b - 0xC0) * 0x40 + (bytes[1] - 0x80);
      if c >= 0x80 then Some((c, 2)) else None
    else if 0xE0 <= b < 0xF0 && Continues(bytes, 2) then
      var c := (b - 0xE0) * 0x1000 + (bytes[1] - 0x80) * 0x40 + (bytes[2] - 0x80);
      if c >= 0x800 then Some((c, 3)) else None
    else if 0xF0 <= b < 0xF8 && Continues(bytes, 3) then
      var c := (b - 0xF0) * 0x4_0000 + (bytes[1] - 0x80) * 0x1000 + (bytes[2] - 0x80) * 0x40 + (bytes[3] - 0x80);
      if c >= 0x1_0000 then Some((c, 4)) else None
    else None
  }

  function Decode(bytes: seq<int>): Option<seq<int>>
    decreases |bytes|
  {
    if bytes == [] then Some([])
    else
      var first := DecodeOne(bytes);
      if first.None? || first.value.1 > |bytes| then None
      else
        var rest := Decode(bytes[first.value.1..]);
        if rest.None? then None else Some([first.value.0] + rest.value)
  }

  lemma Digits(c: CodePoint)
    ensures c == c / 0x40 * 0x40 + c % 0x40
    ensures c / 0x40 == c / 0x1000 * 0x40 + c / 0x40 % 0x40
    ensures c / 0x1000 == c / 0x4_0000 * 0x40 + c / 0x1000 % 0x40
  {
    assert c / 0x1000 == c / 0x40 / 0x40 && c / 0x4_0000 == c / 0x1000 / 0x40;
  }

  lemma TwoRoundTrip(c: CodePoint, bytes: seq<int>)
    requires 0x80 <= c < 0x800 && |bytes| >= 2 && bytes[..2] == EncodeOne(c)
    ensures DecodeOne(bytes) == Some((c, 2))
  {
    assert bytes[0] == bytes[..2][0] && bytes[1] == bytes[..2][1];
    Digits(c);
  }

  lemma ThreeRoundTrip(c: CodePoint, bytes: seq<int>)
    requires 0x800 <= c < 0x1_0000 && |bytes| >= 3 && bytes[..3] == EncodeOne(c)
    ensures DecodeOne(bytes) == Some((c, 3))
  {
    assert bytes[0] == bytes[..3][0] && bytes[1] == bytes[..3][1] && bytes[2] == bytes[..3][2];
    Digits(c);
  }

  lemma FourRoundTrip(c: CodePoint, bytes: seq<int>)
    requires 0x1_0000 <= c && |bytes| >= 4 && bytes[..4] == EncodeOne(c)
    ensures DecodeOne(bytes) == Some((c, 4))
  {
    assert bytes[0] == bytes[..4][0] && bytes[1] == bytes[..4][1] && bytes[2] == bytes[..4][2] && bytes[3] == bytes[..4][3];
    Digits(c);
  }

  lemma OneRoundTrip(c: CodePoint, rest: seq<int>)
    ensures DecodeOne(EncodeOne(c) + rest) == Some((c, |EncodeOne(c)|))
  {
    var bytes := EncodeOne(c) + rest;
    assert bytes[..|EncodeOne(c)|] == EncodeOne(c);
    if c < 0x80 {
      assert bytes[0] == c;
    } else if c < 0x800 {
      TwoRoundTrip(c, bytes);
    } else if c < 0x1_0000 {
      ThreeRoundTrip(c, bytes);
    } else {
      FourRoundTrip(c, bytes);
    }
  }

  /** Decoding gives back the code points, so no other lengths would do. */
  lemma {:induction false} RoundTrip(cs: seq<CodePoint>)
    ensures Decode(Encode(cs)) == Some(cs)
  {
    if cs != [] {
      var first, rest := EncodeOne(cs[0]), Encode(cs[1..]);
      RoundTrip(cs[1..]);
      OneRoundTrip(cs[0], rest);
      assert (first + rest)[|first|..] == rest;
      assert [cs[0]] + cs[1..] == cs;
    }
  }

  /** What both sides of the wire count is the length of the encoding. */
  lemma {:induction false} LengthIsEncoded(t: Text)
    ensures Utf8Length(t) == |Encode(CodePoints(t))|
    decreases |t|
  {
    if t == [] {
    } else if High(t[0]) && |t| > 1 && LowHalf(t[1]) {
      LengthIsEncoded(t[2..]);
      var c := Paired(t[0], t[1]);
      assert ([c] + CodePoints(t[2..]))[1..] == CodePoints(t[2..]);
    } else {
      LengthIsEncoded(t[1..]);
      var c: CodePoint := if 0xD800 <= t[0] < 0xE000 then REPLACEMENT else t[0];
      assert ([c] + CodePoints(t[1..]))[1..] == CodePoints(t[1..]);
    }
  }
}
