/** Length-prefixed fields, and the reader that takes them apart again. */
module Encoding {
  import opened Common

  const TWO32 := 0x1_0000_0000

  /** uint32(n) in big-endian order; the conversion keeps n modulo 2^32. */
  function U32(n: int): (r: Bytes)
    ensures |r| == 4
  {
    var m := n % TWO32;
    [m / 0x100_0000, m / 0x1_0000 % 0x100, m / 0x100 % 0x100, m % 0x100]
  }

  function FromU32(b: Bytes): nat
    requires |b| == 4
  {
    (b[0] as int) * 0x100_0000 + (b[1] as int) * 0x1_0000 + (b[2] as int) * 0x100 + b[3] as int
  }

  function Prefixed(v: Bytes): (r: Bytes)
    ensures |r| == 4 + |v|
  {
    U32(|v|) + v
  }

  function BoolByte(b: bool): byte {
    if b then 1 else 0
  }

  // Readers: each takes one field off the front and returns the rest.

  function ReadLiteral(literal: Bytes, b: Bytes): Option<Bytes> {
    if literal <= b then Some(b[|literal|..]) else None
  }

  function ReadU32(b: Bytes): Option<(nat, Bytes)> {
    if |b| < 4 then None else Some((FromU32(b[..4]), b[4..]))
  }

  function ReadPrefixed(b: Bytes): Option<(Bytes, Bytes)> {
    var (n, rest) :- ReadU32(b);
    if |rest| < n then None else Some((rest[..n], rest[n..]))
  }

  function ReadBool(b: Bytes): Option<(bool, Bytes)> {
    if b == [] || b[0] > 1 then None else Some((b[0] == 1, b[1..]))
  }

  lemma U32RoundTrip(n: int)
    ensures FromU32(U32(n)) == n % TWO32
  {
    var m := n % TWO32;
    var a := m / 0x100;
    var c := m / 0x1_0000;
    assert m == 0x100 * a + m % 0x100;
    assert a / 0x100 == c && a == 0x100 * c + a % 0x100;
    assert c / 0x100 == m / 0x100_0000 && c == 0x100 * (m / 0x100_0000) + c % 0x100;
  }

  lemma U32Injective(m: int, n: int)
    ensures U32(m) == U32(n) <==> m % TWO32 == n % TWO32
  {
    U32RoundTrip(m);
    U32RoundTrip(n);
  }

  lemma U32Wraps(n: int, k: int)
    requires n - k == TWO32
    ensures U32(n) == U32(k)
  {
    assert n % TWO32 == k % TWO32;
  }

  lemma ReadU32Of(n: int, rest: Bytes)
    ensures ReadU32(U32(n) + rest) == Some((n % TWO32, rest))
  {
    U32RoundTrip(n);
    var b := U32(n) + rest;
    assert b[..4] == U32(n) && b[4..] == rest;
  }

  lemma ReadPrefixedOf(v: Bytes, rest: Bytes)
    requires |v| < TWO32
    ensures ReadPrefixed(Prefixed(v) + rest) == Some((v, rest))
  {
    ReadU32Of(|v|, v + rest);
    assert Prefixed(v) + rest == U32(|v|) + (v + rest);
    assert (v + rest)[..|v|] == v && (v + rest)[|v|..] == rest;
  }

  lemma ReadBoolOf(b: bool, rest: Bytes)
    ensures ReadBool([BoolByte(b)] + rest) == Some((b, rest))
  {
    assert ([BoolByte(b)] + rest)[1..] == rest;
  }

  lemma ReadLiteralOf(literal: Bytes, rest: Bytes)
    ensures ReadLiteral(literal, literal + rest) == Some(rest)
  {
    assert (literal + rest)[|literal|..] == rest;
  }
}
