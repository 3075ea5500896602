/** The authenticated data every seal is bound to, and why it can be read back in one way only. */
module Aad {
  import opened Common
  import opened Encoding

  // The bytes of "touchvault/v1/aad".
  const AAD_INFO: Bytes :=
    [0x74, 0x6F, 0x75, 0x63, 0x68, 0x76, 0x61, 0x75, 0x6C, 0x74, 0x2F, 0x76, 0x31, 0x2F, 0x61, 0x61, 0x64]

  const KIND_KEY: byte := 1
  const KIND_SECRET: byte := 2

  /** The part of a sealed vault that every seal authenticates. */
  datatype Header = Header(format: int, rpID: Bytes, userVerified: bool, entropyVerified: bool, salt: Bytes)

  function HeaderAad(h: Header): Bytes {
    AAD_INFO + U32(h.format) + Prefixed(h.rpID)
    + [BoolByte(h.userVerified), BoolByte(h.entropyVerified)] + Prefixed(h.salt)
  }

  function KeyAad(h: Header, slot: int, credentialID: Bytes): Bytes {
    HeaderAad(h) + [KIND_KEY] + U32(slot) + Prefixed(credentialID)
  }

  function SecretAad(h: Header, name: Bytes): Bytes {
    HeaderAad(h) + [KIND_SECRET] + Prefixed(name)
  }

  // ----- Decoding -----

  /** What one AAD says: which header, and which key entry or which secret. */
  datatype Binding =
    | KeyBinding(header: Header, slot: int, credentialID: Bytes)
    | SecretBinding(header: Header, name: Bytes)

  /** What survives uint32 truncation of the format and of the slot. */
  function Truncated(h: Header): Header {
    h.(format := h.format % TWO32)
  }

  predicate HeaderFits(h: Header) {
    |h.rpID| < TWO32 && |h.salt| < TWO32
  }

  function ReadHeader(b: Bytes): Option<(Header, Bytes)> {
    var b :- ReadLiteral(AAD_INFO, b);
    var (format, b) :- ReadU32(b);
    var (rpID, b) :- ReadPrefixed(b);
    var (userVerified, b) :- ReadBool(b);
    var (entropyVerified, b) :- ReadBool(b);
    var (salt, b) :- ReadPrefixed(b);
    Some((Header(format, rpID, userVerified, entropyVerified, salt), b))
  }

  /** Reads an AAD strictly from the front; nothing may be left over. */
  function Decode(b: Bytes): Option<Binding> {
    var (h, b) :- ReadHeader(b);
    if b == [] then None
    else if b[0] == KIND_KEY then
      var (slot, b) :- ReadU32(b[1..]);
      var (credentialID, b) :- ReadPrefixed(b);
      if b == [] then Some(KeyBinding(h, slot, credentialID)) else None
    else if b[0] == KIND_SECRET then
      var (name, b) :- ReadPrefixed(b[1..]);
      if b == [] then Some(SecretBinding(h, name)) else None
    else None
  }

  lemma ReadHeaderOf(h: Header, rest: Bytes)
    requires HeaderFits(h)
    ensures ReadHeader(HeaderAad(h) + rest) == Some((Truncated(h), rest))
  {
    var fromSalt := Prefixed(h.salt) + rest;
    var fromEntropy := [BoolByte(h.entropyVerified)] + fromSalt;
    var fromUser := [BoolByte(h.userVerified)] + fromEntropy;
    var fromRpID := Prefixed(h.rpID) + fromUser;
    var fromFormat := U32(h.format) + fromRpID;
    assert HeaderAad(h) + rest == AAD_INFO + fromFormat;
    ReadLiteralOf(AAD_INFO, fromFormat);
    ReadU32Of(h.format, fromRpID);
    ReadPrefixedOf(h.rpID, fromUser);
    ReadBoolOf(h.userVerified, fromEntropy);
    ReadBoolOf(h.entropyVerified, fromSalt);
    ReadPrefixedOf(h.salt, rest);
  }

  /** Decoding a key AAD gives back its header, its slot modulo 2^32 and its credential. */
  lemma KeyAadRoundTrip(h: Header, slot: int, credentialID: Bytes)
    requires HeaderFits(h) && |credentialID| < TWO32
    ensures Decode(KeyAad(h, slot, credentialID)) == Some(KeyBinding(Truncated(h), slot % TWO32, credentialID))
  {
    hide HeaderAad, ReadHeader, U32, FromU32, ReadU32, Prefixed, ReadPrefixed;
    var tail := [KIND_KEY] + U32(slot) + Prefixed(credentialID);
    assert KeyAad(h, slot, credentialID) == HeaderAad(h) + tail;
    ReadHeaderOf(h, tail);
    assert tail[1..] == U32(slot) + Prefixed(credentialID);
    ReadU32Of(slot, Prefixed(credentialID));
    ReadPrefixedOf(credentialID, []);
    assert Prefixed(credentialID) + [] == Prefixed(credentialID);
  }

  /** Decoding a secret AAD gives back its header and its name. */
  lemma SecretAadRoundTrip(h: Header, name: Bytes)
    requires HeaderFits(h) && |name| < TWO32
    ensures Decode(SecretAad(h, name)) == Some(SecretBinding(Truncated(h), name))
  {
    hide HeaderAad, ReadHeader, U32, FromU32, ReadU32, Prefixed, ReadPrefixed;
    var tail := [KIND_SECRET] + Prefixed(name);
    assert SecretAad(h, name) == HeaderAad(h) + tail;
    ReadHeaderOf(h, tail);
    assert tail[1..] == Prefixed(name);
    ReadPrefixedOf(name, []);
    assert Prefixed(name) + [] == Prefixed(name);
  }

  /** Two key AADs agree exactly when headers, slots (modulo 2^32) and credentials agree. */
  lemma KeyAadInjective(h: Header, slot: int, credentialID: Bytes, h': Header, slot': int, credentialID': Bytes)
    requires HeaderFits(h) && HeaderFits(h') && |credentialID| < TWO32 && |credentialID'| < TWO32
    ensures KeyAad(h, slot, credentialID) == KeyAad(h', slot', credentialID')
       <==> Truncated(h) == Truncated(h') && slot % TWO32 == slot' % TWO32 && credentialID == credentialID'
  {
    KeyAadRoundTrip(h, slot, credentialID);
    KeyAadRoundTrip(h', slot', credentialID');
    U32Injective(slot, slot');
    U32Injective(h.format, h'.format);
  }

  /** Two secret AADs agree exactly when headers and names agree. */
  lemma SecretAadInjective(h: Header, name: Bytes, h': Header, name': Bytes)
    requires HeaderFits(h) && HeaderFits(h') && |name| < TWO32 && |name'| < TWO32
    ensures SecretAad(h, name) == SecretAad(h', name') <==> Truncated(h) == Truncated(h') && name == name'
  {
    SecretAadRoundTrip(h, name);
    SecretAadRoundTrip(h', name');
    U32Injective(h.format, h'.format);
  }

  /** No key AAD is ever a secret AAD, not even across two different headers. */
  lemma KindsDisjoint(h: Header, slot: int, credentialID: Bytes, h': Header, name: Bytes)
    requires HeaderFits(h) && HeaderFits(h') && |credentialID| < TWO32 && |name| < TWO32
    ensures KeyAad(h, slot, credentialID) != SecretAad(h', name)
  {
    KeyAadRoundTrip(h, slot, credentialID);
    SecretAadRoundTrip(h', name);
  }

  // ----- Fields that only grow cannot collide, whatever their length -----

  /** Whatever follows the header, a longer RP ID or a longer last field shows. */
  lemma GrownFieldsShow(h: Header, kind: Bytes, last: Bytes, rpID: Bytes, last': Bytes)
    requires |rpID| >= |h.rpID| && |last'| >= |last|
    ensures HeaderAad(h.(rpID := rpID)) + kind + Prefixed(last') == HeaderAad(h) + kind + Prefixed(last)
       <==> rpID == h.rpID && last' == last
  {
    hide HeaderAad;
    FieldsBehindHeader(h.(rpID := rpID), kind, last');
    FieldsBehindHeader(h, kind, last);
    if HeaderAad(h.(rpID := rpID)) + kind + Prefixed(last') == HeaderAad(h) + kind + Prefixed(last) {
      GrownFields(AAD_INFO + U32(h.format), U32(|rpID|), rpID, Between(h) + kind, U32(|last'|), last',
                  U32(|h.rpID|), h.rpID, U32(|last|), last);
    }
  }

  function Between(h: Header): (r: Bytes)
    ensures |r| == 6 + |h.salt|
  {
    [BoolByte(h.userVerified), BoolByte(h.entropyVerified)] + Prefixed(h.salt)
  }

  lemma FieldsBehindHeader(h: Header, kind: Bytes, last: Bytes)
    ensures HeaderAad(h) + kind + Prefixed(last)
         == AAD_INFO + U32(h.format) + U32(|h.rpID|) + h.rpID + (Between(h) + kind) + U32(|last|) + last
  {
  }

  lemma GrownFields(front: Bytes, n: Bytes, v: Bytes, middle: Bytes, m: Bytes, w: Bytes,
                    n': Bytes, v': Bytes, m': Bytes, w': Bytes)
    requires |n| == |n'| && |m| == |m'| && |v| >= |v'| && |w| >= |w'|
    requires front + n + v + middle + m + w == front + n' + v' + middle + m' + w'
    ensures v == v' && w == w'
  {
    var a, b := front + n + v + middle + m + w, front + n' + v' + middle + m' + w';
    var i := |front| + |n|;
    assert a[i..i + |v|] == v && b[i..i + |v'|] == v';
    assert a[|a| - |w|..] == w && b[|b| - |w'|..] == w';
  }

  // ----- Why the kind tag and the bounds are there -----

  function UntaggedKeyAad(h: Header, slot: int, credentialID: Bytes): Bytes {
    HeaderAad(h) + U32(slot) + Prefixed(credentialID)
  }

  function UntaggedSecretAad(h: Header, name: Bytes): Bytes {
    HeaderAad(h) + Prefixed(name)
  }

  /** Without the tag a key entry and a secret collide exactly when the slot is the name's
      length and the name is the length-prefixed credential. */
  lemma UntaggedCollision(h: Header, slot: int, credentialID: Bytes, name: Bytes)
    requires 4 + |credentialID| < TWO32 && |name| < TWO32
    ensures UntaggedKeyAad(h, slot, credentialID) == UntaggedSecretAad(h, name)
       <==> slot % TWO32 == 4 + |credentialID| && name == Prefixed(credentialID)
  {
    hide HeaderAad, U32;
    SameTail(HeaderAad(h), U32(slot), Prefixed(credentialID), U32(|name|), name);
    U32Injective(slot, |name|);
  }

  lemma SameTail(head: Bytes, a: Bytes, b: Bytes, c: Bytes, d: Bytes)
    requires |a| == |c|
    ensures head + a + b == head + (c + d) <==> a == c && b == d
  {
    if head + a + b == head + (c + d) {
      var n, l, r := |head|, head + a + b, head + (c + d);
      assert l[n..n + |a|] == a && r[n..n + |a|] == c;
      assert l[n + |a|..] == b && r[n + |a|..] == d;
    }
    assert head + a + b == head + (a + b);
  }

  /** So every credential has a slot and a name that would have collided. */
  lemma TagIsNecessary(h: Header, credentialID: Bytes)
    requires 4 + |credentialID| < TWO32
    ensures exists slot: nat, name: Bytes :: UntaggedKeyAad(h, slot, credentialID) == UntaggedSecretAad(h, name)
  {
    UntaggedCollision(h, 4 + |credentialID|, credentialID, Prefixed(credentialID));
  }

  /** The slot is bound only modulo 2^32: an entry at slot s + 2^32 carries the same AAD. */
  lemma SlotWraps(h: Header, slot: nat, credentialID: Bytes)
    ensures KeyAad(h, slot, credentialID) == KeyAad(h, slot + TWO32, credentialID)
  {
    U32Wraps(slot + TWO32, slot);
  }

  // ----- The bound on field lengths -----

  ghost predicate KeyFieldsUpTo(h: Header, credentialID: Bytes, bound: nat) {
    |h.rpID| <= bound && |h.salt| <= bound && |credentialID| <= bound
  }

  ghost predicate SecretFieldsUpTo(h: Header, name: Bytes, bound: nat) {
    |h.rpID| <= bound && |h.salt| <= bound && |name| <= bound
  }

  /** Key AADs over fields of at most this length say one thing only. */
  ghost predicate KeyAadsUnique(bound: nat) {
    forall h, slot, credentialID, h', slot', credentialID' ::
      KeyFieldsUpTo(h, credentialID, bound) && KeyFieldsUpTo(h', credentialID', bound)
      && KeyAad(h, slot, credentialID) == KeyAad(h', slot', credentialID')
      ==> Truncated(h) == Truncated(h') && slot % TWO32 == slot' % TWO32 && credentialID == credentialID'
  }

  /** And so do secret AADs. */
  ghost predicate SecretAadsUnique(bound: nat) {
    forall h, name, h', name' ::
      SecretFieldsUpTo(h, name, bound) && SecretFieldsUpTo(h', name', bound)
      && SecretAad(h, name) == SecretAad(h', name')
      ==> Truncated(h) == Truncated(h') && name == name'
  }

  /** Both encodings are unambiguous up to a bound exactly when the bound fits the length prefix. */
  lemma UniqueExactlyBelowTwo32(bound: nat)
    ensures KeyAadsUnique(bound) <==> bound < TWO32
    ensures SecretAadsUnique(bound) <==> bound < TWO32
  {
    hide KeyAad, SecretAad;
    if bound < TWO32 {
      ShortKeyAadsUnique(bound);
      ShortSecretAadsUnique(bound);
    } else {
      LongKeyAadsCollide(bound);
      LongSecretAadsCollide(bound);
    }
  }

  lemma ShortKeyAadsUnique(bound: nat)
    requires bound < TWO32
    ensures KeyAadsUnique(bound)
  {
    hide KeyAad;
    forall h, slot, credentialID, h', slot', credentialID' |
      KeyFieldsUpTo(h, credentialID, bound) && KeyFieldsUpTo(h', credentialID', bound)
      && KeyAad(h, slot, credentialID) == KeyAad(h', slot', credentialID')
      ensures Truncated(h) == Truncated(h') && slot % TWO32 == slot' % TWO32 && credentialID == credentialID'
    {
      KeyAadInjective(h, slot, credentialID, h', slot', credentialID');
    }
  }

  lemma ShortSecretAadsUnique(bound: nat)
    requires bound < TWO32
    ensures SecretAadsUnique(bound)
  {
    hide SecretAad;
    forall h, name, h', name' |
      SecretFieldsUpTo(h, name, bound) && SecretFieldsUpTo(h', name', bound) && SecretAad(h, name) == SecretAad(h', name')
      ensures Truncated(h) == Truncated(h') && name == name'
    {
      SecretAadInjective(h, name, h', name');
    }
  }

  function Filler(n: nat): (r: Bytes)
    ensures |r| == n
  {
    seq(n, _ => 0)
  }

  /** At 2^32 a length prefix wraps to zero, and an RP ID of that length swallows every field behind it. */
  lemma LongFieldsCollide(h: Header, kind: Bytes) returns (rpID: Bytes, last: Bytes)
    requires h.rpID == [] && |h.salt| == SALT_LEN && |kind| <= 5
    ensures |rpID| == |last| == TWO32
    ensures HeaderAad(h) + kind + Prefixed(last) == HeaderAad(h.(rpID := rpID)) + kind + Prefixed([])
  {
    hide HeaderAad, U32, Between;
    var middle, zero := Between(h) + kind, U32(0);
    var filler := Filler(TWO32 - |middle| - 4);
    last := filler + middle + zero;
    rpID := middle + zero + filler;
    var h' := h.(rpID := rpID);
    FieldsBehindHeader(h, kind, last);
    FieldsBehindHeader(h', kind, []);
    SameBetween(h, rpID);
    U32Wraps(TWO32, 0);
    Swallow(AAD_INFO + U32(h.format) + zero, middle, zero, filler);
  }

  lemma SameBetween(h: Header, rpID: Bytes)
    ensures Between(h.(rpID := rpID)) == Between(h)
  {
  }

  lemma Swallow(start: Bytes, middle: Bytes, zero: Bytes, filler: Bytes)
    ensures start + [] + middle + zero + (filler + middle + zero) == start + (middle + zero + filler) + middle + zero + []
  {
  }

  lemma LongSecretAadsCollide(bound: nat)
    requires bound >= TWO32
    ensures !SecretAadsUnique(bound)
  {
    hide HeaderAad, Prefixed;
    var h := Header(0, [], false, false, Filler(SALT_LEN));
    var rpID, name := LongFieldsCollide(h, [KIND_SECRET]);
    assert SecretAad(h, name) == SecretAad(h.(rpID := rpID), []);
    assert SecretFieldsUpTo(h, name, bound) && SecretFieldsUpTo(h.(rpID := rpID), [], bound);
  }

  lemma LongKeyAadsCollide(bound: nat)
    requires bound >= TWO32
    ensures !KeyAadsUnique(bound)
  {
    hide HeaderAad, Prefixed, U32;
    var h := Header(0, [], false, false, Filler(SALT_LEN));
    var kind := [KIND_KEY] + U32(0);
    var rpID, credentialID := LongFieldsCollide(h, kind);
    var h' := h.(rpID := rpID);
    assert KeyAad(h, 0, credentialID) == HeaderAad(h) + kind + Prefixed(credentialID);
    assert KeyAad(h', 0, []) == HeaderAad(h') + kind + Prefixed([]);
    assert KeyFieldsUpTo(h, credentialID, bound) && KeyFieldsUpTo(h', [], bound);
  }
}
