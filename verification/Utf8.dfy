/** UTF-8 from the other side (section 3 of RFC 3629): the encoding of scalar values, and what the encoder's repair
    of text does to it. */
module Utf8 {
  import opened Common
  import opened Wire

  /** A Unicode scalar value: any code point but the surrogates. */
  predicate Scalar(c: int) {
    0 <= c <= 0x10FFFF && !(0xD800 <= c <= 0xDFFF)
  }

  function Encode(c: int): (r: Bytes)
    requires Scalar(c)
    ensures 1 <= |r| <= 4
  {
    if c < 0x80 then [c]
    else if c < 0x800 then [0xC0 + c / 0x40, 0x80 + c % 0x40]
    else if c < 0x1_0000 then [0xE0 + c / 0x1000, 0x80 + c / 0x40 % 0x40, 0x80 + c % 0x40]
    else [0xF0 + c / 0x4_0000, 0x80 + c / 0x1000 % 0x40, 0x80 + c / 0x40 % 0x40, 0x80 + c % 0x40]
  }

  predicate AllScalars(cs: seq<int>) {
    forall i :: 0 <= i < |cs| ==> Scalar(cs[i])
  }

  function EncodeAll(cs: seq<int>): Bytes
    requires AllScalars(cs)
  {
    if cs == [] then [] else Encode(cs[0]) + EncodeAll(cs[1..])
  }

  /** The encoding of this scalar value stands in front. */
  predicate Begins(s: Bytes, c: int) {
    Scalar(c) && Encode(c) <= s
  }

  // ----- Widths -----

  lemma WidthOfEncoded(c: int, rest: Bytes)
    requires Scalar(c)
    ensures RuneWidth(Encode(c) + rest) == |Encode(c)|
  {
    var s := Encode(c) + rest;
    assert forall i :: 0 <= i < |Encode(c)| ==> s[i] == Encode(c)[i];
  }

  lemma TwoBytes(a: int, b: int) returns (c: int)
    requires 0xC2 <= a <= 0xDF && 0x80 <= b <= 0xBF
    ensures Scalar(c) && Encode(c) == [a, b]
  {
    c := (a - 0xC0) * 0x40 + (b - 0x80);
  }

  lemma ThreeBytes(a: int, b: int, d: int) returns (c: int)
    requires 0xE0 <= a <= 0xEF && 0x80 <= b <= 0xBF && 0x80 <= d <= 0xBF
    requires (a == 0xE0 ==> 0xA0 <= b) && (a == 0xED ==> b <= 0x9F)
    ensures Scalar(c) && Encode(c) == [a, b, d]
  {
    c := (a - 0xE0) * 0x1000 + (b - 0x80) * 0x40 + (d - 0x80);
    assert c / 0x40 == (a - 0xE0) * 0x40 + (b - 0x80);
  }

  lemma FourBytes(a: int, b: int, d: int, e: int) returns (c: int)
    requires 0xF0 <= a <= 0xF4 && 0x80 <= b <= 0xBF && 0x80 <= d <= 0xBF && 0x80 <= e <= 0xBF
    requires (a == 0xF0 ==> 0x90 <= b) && (a == 0xF4 ==> b <= 0x8F)
    ensures Scalar(c) && Encode(c) == [a, b, d, e]
  {
    c := (a - 0xF0) * 0x4_0000 + (b - 0x80) * 0x1000 + (d - 0x80) * 0x40 + (e - 0x80);
    assert c / 0x40 == (a - 0xF0) * 0x1000 + (b - 0x80) * 0x40 + (d - 0x80);
    assert c / 0x1000 == (a - 0xF0) * 0x40 + (b - 0x80);
  }

  lemma WidthMeansScalar(s: Bytes) returns (c: int)
    requires RuneWidth(s) > 0
    ensures Scalar(c) && Encode(c) == s[..RuneWidth(s)]
  {
    hide Encode;
    var w := RuneWidth(s);
    if w == 1 {
      c := OneByte(s[0]);
    } else if w == 2 {
      c := TwoBytes(s[0], s[1]);
    } else if w == 3 {
      c := ThreeBytes(s[0], s[1], s[2]);
    } else {
      c := FourBytes(s[0], s[1], s[2], s[3]);
    }
  }

  lemma OneByte(a: int) returns (c: int)
    requires 0 <= a < 0x80
    ensures Scalar(c) && Encode(c) == [a]
  {
    c := a;
  }

  /** A rune is found in front exactly when the encoding of a scalar value stands there, and it is that wide. */
  lemma WidthIsExact(s: Bytes)
    ensures RuneWidth(s) == 0 <==> !exists c :: Begins(s, c)
    ensures forall c :: Begins(s, c) ==> RuneWidth(s) == |Encode(c)|
  {
    hide Encode;
    forall c | Begins(s, c) ensures RuneWidth(s) == |Encode(c)| && |Encode(c)| > 0 {
      assert s == Encode(c) + s[|Encode(c)|..];
      WidthOfEncoded(c, s[|Encode(c)|..]);
    }
    if RuneWidth(s) > 0 {
      var c := WidthMeansScalar(s);
      assert Begins(s, c);
    }
  }

  // ----- Whole strings -----

  /** A string is accepted as UTF-8 exactly when it is the encoding of some scalar values, one after another. */
  lemma {:induction false} ValidExactlyEncodings(s: Bytes)
    ensures ValidUtf8(s) <==> exists cs :: AllScalars(cs) && EncodeAll(cs) == s
  {
    if ValidUtf8(s) {
      var cs := Decoded(s);
    }
    if cs :| AllScalars(cs) && EncodeAll(cs) == s {
      EncodingIsValid(cs);
    }
  }

  lemma {:induction false} EncodingIsValid(cs: seq<int>)
    requires AllScalars(cs)
    ensures ValidUtf8(EncodeAll(cs))
  {
    hide Encode, RuneWidth;
    if cs == [] {
    } else {
      var rest := EncodeAll(cs[1..]);
      EncodingIsValid(cs[1..]);
      WidthOfEncoded(cs[0], rest);
      assert (Encode(cs[0]) + rest)[|Encode(cs[0])|..] == rest;
    }
  }

  lemma {:induction false} Decoded(s: Bytes) returns (cs: seq<int>)
    requires ValidUtf8(s)
    ensures AllScalars(cs) && EncodeAll(cs) == s
    decreases |s|
  {
    hide Encode, RuneWidth;
    if s == [] {
      cs := [];
    } else {
      var w := RuneWidth(s);
      var c := WidthMeansScalar(s);
      var rest := Decoded(s[w..]);
      cs := [c] + rest;
      assert cs[1..] == rest;
      assert s == s[..w] + s[w..];
    }
  }

  // What the encoder does to text is two things, by what stands in front, and nothing else.

  /** The encoding of a scalar value stays. */
  lemma CoerceKeepsScalars(c: int, rest: Bytes)
    requires Scalar(c)
    ensures Coerce(Encode(c) + rest) == Encode(c) + Coerce(rest)
  {
    hide Encode, RuneWidth;
    WidthOfEncoded(c, rest);
    assert (Encode(c) + rest)[..|Encode(c)|] == Encode(c) && (Encode(c) + rest)[|Encode(c)|..] == rest;
  }

  /** A byte in front of which no such encoding begins becomes U+FFFD. */
  lemma {:induction false} CoerceReplacesTheRest(s: Bytes)
    ensures Coerce([]) == []
    ensures s != [] && !(exists c :: Begins(s, c)) ==> Coerce(s) == [0xEF, 0xBF, 0xBD] + Coerce(s[1..])
  {
    hide Encode, RuneWidth;
    WidthIsExact(s);
  }
}
