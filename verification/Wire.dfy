/** Serialising a document and parsing it back. The JSON text itself is library work; what this models is the
    document value that comes out of it, including what the encoder does to text that is not UTF-8. */
module Wire {
  import opened Common
  import opened Encoding
  import opened Aad
  import opened Document

  // ----- Text that survives the encoder -----

  predicate Continuation(b: byte) { 0x80 <= b <= 0xBF }

  /** Which second bytes may follow a multi-byte lead (RFC 3629, section 4). */
  predicate SecondByte(lead: byte, b: byte) {
    if lead == 0xE0 then 0xA0 <= b <= 0xBF
    else if lead == 0xED then 0x80 <= b <= 0x9F
    else if lead == 0xF0 then 0x90 <= b <= 0xBF
    else if lead == 0xF4 then 0x80 <= b <= 0x8F
    else Continuation(b)
  }

  /** The width of the rune in front, or 0 when the first byte starts none. */
  function RuneWidth(s: Bytes): (w: nat)
    ensures w <= |s|
  {
    if s == [] then 0
    else if s[0] < 0x80 then 1
    else if 0xC2 <= s[0] <= 0xDF then
      if |s| >= 2 && SecondByte(s[0], s[1]) then 2 else 0
    else if 0xE0 <= s[0] <= 0xEF then
      if |s| >= 3 && SecondByte(s[0], s[1]) && Continuation(s[2]) then 3 else 0
    else if 0xF0 <= s[0] <= 0xF4 then
      if |s| >= 4 && SecondByte(s[0], s[1]) && Continuation(s[2]) && Continuation(s[3]) then 4 else 0
    else 0
  }

  predicate ValidUtf8(s: Bytes)
    decreases |s|
  {
    s == [] || (RuneWidth(s) > 0 && ValidUtf8(s[RuneWidth(s)..]))
  }

  // U+FFFD, which replaces every byte that starts no rune.
  const REPLACEMENT: Bytes := [0xEF, 0xBF, 0xBD]

  /** What a string reads as after the trip through JSON. */
  function Coerce(s: Bytes): (r: Bytes)
    ensures s != [] ==> r != []
    decreases |s|
  {
    if s == [] then []
    else if RuneWidth(s) > 0 then s[..RuneWidth(s)] + Coerce(s[RuneWidth(s)..])
    else REPLACEMENT + Coerce(s[1..])
  }

  lemma {:induction false} CoerceNeverShrinks(s: Bytes)
    ensures |Coerce(s)| >= |s|
    decreases |s|
  {
    if s == [] {
    } else {
      CoerceNeverShrinks(if RuneWidth(s) > 0 then s[RuneWidth(s)..] else s[1..]);
    }
  }

  /** Text comes back as it was exactly when it is UTF-8. */
  lemma {:induction false} CoerceFixesExactlyUtf8(s: Bytes)
    ensures Coerce(s) == s <==> ValidUtf8(s)
    decreases |s|
  {
    if s == [] {
    } else {
      var w := RuneWidth(s);
      if w > 0 {
        var rest := s[w..];
        CoerceFixesExactlyUtf8(rest);
        assert s == s[..w] + rest;
        assert Coerce(s)[w..] == Coerce(rest);
      } else {
        CoerceNeverShrinks(s[1..]);
      }
    }
  }

  /** One trip is enough: what comes back is UTF-8. */
  lemma {:induction false} CoerceYieldsUtf8(s: Bytes)
    ensures ValidUtf8(Coerce(s))
    decreases |s|
  {
    if s == [] {
    } else {
      var w := RuneWidth(s);
      var rest := Coerce(if w > 0 then s[w..] else s[1..]);
      CoerceYieldsUtf8(if w > 0 then s[w..] else s[1..]);
      var head := if w > 0 then s[..w] else REPLACEMENT;
      assert Coerce(s) == head + rest;
      assert RuneWidth(head + rest) == |head|;
      assert (head + rest)[|head|..] == rest;
    }
  }

  // ----- Marshal -----

  /** Bytes handed to OpenWith: not a JSON document of this shape, or the value it decodes to. */
  datatype Sealed = Unreadable | Decoded(doc: Doc)

  function CoerceHeader(h: Header): Header {
    h.(rpID := Coerce(h.rpID))
  }

  function CoerceKey(k: SealedKey): SealedKey {
    k.(keyLabel := Coerce(k.keyLabel))
  }

  function CoerceSecret(s: SealedSecret): SealedSecret {
    s.(name := Coerce(s.name))
  }

  function CoerceDoc(doc: Doc): (r: Doc)
    ensures |r.keys| == |doc.keys| && |r.secrets| == |doc.secrets|
    ensures forall i :: 0 <= i < |doc.keys| ==> r.keys[i] == CoerceKey(doc.keys[i])
    ensures forall i :: 0 <= i < |doc.secrets| ==> r.secrets[i] == CoerceSecret(doc.secrets[i])
  {
    Doc(CoerceHeader(doc.header),
        seq(|doc.keys|, i requires 0 <= i < |doc.keys| => CoerceKey(doc.keys[i])),
        seq(|doc.secrets|, i requires 0 <= i < |doc.secrets| => CoerceSecret(doc.secrets[i])))
  }

  function Marshal(doc: Doc): Sealed {
    Decoded(CoerceDoc(doc))
  }

  // ----- Parse -----

  /** Every refusal is the same error; what is accepted is what was decoded. */
  ghost function Parse(data: Sealed): Result<Doc> {
    if data.Decoded? && WellFormed(data.doc) then Ok(data.doc) else Err(WrongFormat)
  }

  method ParseSealed(data: Sealed) returns (r: Result<Doc>)
    ensures r == Parse(data)
  {
    if data.Unreadable? {
      return Err(WrongFormat);
    }
    var v := data.doc;
    if v.header.format != FORMAT_VERSION {
      return Err(WrongFormat);
    }
    if |v.header.salt| != SALT_LEN {
      return Err(WrongFormat);
    }
    if |v.header.rpID| == 0 {
      return Err(WrongFormat);
    }
    var keysOk := CheckKeys(v.keys);
    if !keysOk {
      return Err(WrongFormat);
    }
    var secretsOk := CheckSecrets(v.secrets);
    if !secretsOk {
      return Err(WrongFormat);
    }
    return Ok(v);
  }

  method CheckKeys(keys: seq<SealedKey>) returns (ok: bool)
    ensures ok <==> KeysWellFormed(keys)
  {
    var seenSlot: set<int> := {};
    var seenCred: set<Bytes> := {};
    for i := 0 to |keys|
      invariant seenSlot == SlotSet(keys[..i])
      invariant seenCred == CredentialSet(keys[..i])
      invariant KeysWellFormed(keys[..i])
    {
      var k := keys[i];
      assert keys[..i + 1] == keys[..i] + [k];
      assert k in keys;
      if k.slot < 0 {
        return false;
      }
      if k.slot in seenSlot {
        ClashingSlot(keys, i);
        return false;
      }
      seenSlot := seenSlot + {k.slot};
      if |k.credentialID| == 0 {
        return false;
      }
      if k.credentialID in seenCred {
        ClashingCredential(keys, i);
        return false;
      }
      seenCred := seenCred + {k.credentialID};
    }
    assert keys[..|keys|] == keys;
    return true;
  }

  lemma ClashingSlot(keys: seq<SealedKey>, i: nat)
    requires i < |keys| && keys[i].slot in SlotSet(keys[..i])
    ensures !DistinctSlots(keys)
  {
    var k :| k in keys[..i] && k.slot == keys[i].slot;
    var j :| 0 <= j < i && keys[j] == k;
    assert keys[j].slot == keys[i].slot;
  }

  lemma ClashingCredential(keys: seq<SealedKey>, i: nat)
    requires i < |keys| && keys[i].credentialID in CredentialSet(keys[..i])
    ensures !DistinctCredentials(keys)
  {
    var k :| k in keys[..i] && k.credentialID == keys[i].credentialID;
    var j :| 0 <= j < i && keys[j] == k;
    assert keys[j].credentialID == keys[i].credentialID;
  }

  method CheckSecrets(secrets: seq<SealedSecret>) returns (ok: bool)
    ensures ok <==> SecretsWellFormed(secrets)
  {
    var seenName: set<Bytes> := {};
    for i := 0 to |secrets|
      invariant seenName == NameSet(secrets[..i])
      invariant SecretsWellFormed(secrets[..i])
    {
      var s := secrets[i];
      assert secrets[..i + 1] == secrets[..i] + [s];
      assert s in secrets;
      if |s.name| == 0 {
        return false;
      }
      if s.name in seenName {
        var t :| t in secrets[..i] && t.name == s.name;
        var j :| 0 <= j < i && secrets[j] == t;
        assert secrets[j].name == secrets[i].name;
        return false;
      }
      seenName := seenName + {s.name};
    }
    assert secrets[..|secrets|] == secrets;
    return true;
  }

  // ----- The round trip -----

  ghost predicate TextIsUtf8(doc: Doc) {
    && ValidUtf8(doc.header.rpID)
    && (forall i :: 0 <= i < |doc.keys| ==> ValidUtf8(doc.keys[i].keyLabel))
    && (forall i :: 0 <= i < |doc.secrets| ==> ValidUtf8(doc.secrets[i].name))
  }

  lemma CoerceDocFixes(doc: Doc)
    ensures CoerceDoc(doc) == doc <==> TextIsUtf8(doc)
  {
    var r := CoerceDoc(doc);
    CoerceFixesExactlyUtf8(doc.header.rpID);
    forall i | 0 <= i < |doc.keys| ensures r.keys[i] == doc.keys[i] <==> ValidUtf8(doc.keys[i].keyLabel) {
      CoerceFixesExactlyUtf8(doc.keys[i].keyLabel);
    }
    forall i | 0 <= i < |doc.secrets| ensures r.secrets[i] == doc.secrets[i] <==> ValidUtf8(doc.secrets[i].name) {
      CoerceFixesExactlyUtf8(doc.secrets[i].name);
    }
    if TextIsUtf8(doc) {
      assert r.keys == doc.keys && r.secrets == doc.secrets;
    }
  }

  /** A well-formed document is recovered unchanged exactly when all of its text is UTF-8. */
  lemma RoundTripExactly(doc: Doc)
    requires WellFormed(doc)
    ensures Parse(Marshal(doc)) == Ok(doc) <==> TextIsUtf8(doc)
  {
    CoerceDocFixes(doc);
  }

  lemma CoerceKeepsKeys(doc: Doc)
    requires KeysWellFormed(doc.keys)
    ensures KeysWellFormed(CoerceDoc(doc).keys)
  {
    var r := CoerceDoc(doc).keys;
    forall k | k in r ensures k.slot >= 0 && k.credentialID != [] {
      var i :| 0 <= i < |r| && r[i] == k;
      assert doc.keys[i] in doc.keys;
    }
    forall i, j | 0 <= i < j < |r| ensures r[i].slot != r[j].slot && r[i].credentialID != r[j].credentialID {
      assert doc.keys[i].slot != doc.keys[j].slot && doc.keys[i].credentialID != doc.keys[j].credentialID;
    }
  }

  /** It is accepted at all exactly when no two names read the same after the trip. */
  lemma ReopensExactly(doc: Doc)
    requires WellFormed(doc)
    ensures Parse(Marshal(doc)).Ok?
       <==> (forall i, j :: 0 <= i < j < |doc.secrets| ==> Coerce(doc.secrets[i].name) != Coerce(doc.secrets[j].name))
  {
    CoerceKeepsKeys(doc);
    var names := CoerceDoc(doc).secrets;
    forall s | s in names ensures s.name != [] {
      var i :| 0 <= i < |names| && names[i] == s;
      assert doc.secrets[i] in doc.secrets;
    }
    assert HeaderWellFormed(CoerceHeader(doc.header));
    assert forall i :: 0 <= i < |names| ==> names[i].name == Coerce(doc.secrets[i].name);
    assert DistinctNames(names)
      <==> (forall i, j :: 0 <= i < j < |names| ==> names[i].name != names[j].name);
  }

  lemma CoercedKeyAad(h: Header, slot: int, credentialID: Bytes)
    ensures KeyAad(CoerceHeader(h), slot, credentialID) == KeyAad(h, slot, credentialID) <==> ValidUtf8(h.rpID)
  {
    CoerceNeverShrinks(h.rpID);
    CoerceFixesExactlyUtf8(h.rpID);
    var kind := [KIND_KEY] + U32(slot);
    GrownFieldsShow(h, kind, credentialID, Coerce(h.rpID), credentialID);
    assert forall g :: KeyAad(g, slot, credentialID) == HeaderAad(g) + kind + Prefixed(credentialID);
  }

  lemma CoercedSecretAad(h: Header, name: Bytes)
    ensures SecretAad(CoerceHeader(h), Coerce(name)) == SecretAad(h, name) <==> ValidUtf8(h.rpID) && ValidUtf8(name)
  {
    CoerceNeverShrinks(h.rpID);
    CoerceFixesExactlyUtf8(h.rpID);
    CoerceNeverShrinks(name);
    CoerceFixesExactlyUtf8(name);
    GrownFieldsShow(h, [KIND_SECRET], name, Coerce(h.rpID), Coerce(name));
  }

  /** A wrapped data key still opens in the reopened document exactly when the RP ID is UTF-8. */
  lemma ReopenedKeyOpensExactly(h: Header, dataKey: Bytes, prf: Bytes, entry: SealedKey)
    requires exists nonce ::
      WrapDataKey(h, dataKey, entry.credentialID, prf, entry.slot, entry.keyLabel, nonce) == Ok(entry)
    ensures UnwrapDataKey(CoerceHeader(h), CoerceKey(entry), prf)
         == if ValidUtf8(h.rpID) then Ok(dataKey) else Err(AuthenticationFailed)
  {
    CoercedKeyAad(h, entry.slot, entry.credentialID);
  }

  /** A sealed secret still opens in the reopened document exactly when the RP ID and its own name are UTF-8. */
  lemma ReopenedSecretOpensExactly(h: Header, dataKey: Bytes, plaintext: Bytes, entry: SealedSecret)
    requires exists nonce :: SealSecret(h, dataKey, entry.name, plaintext, nonce) == Ok(entry)
    ensures OpenSecret(CoerceHeader(h), dataKey, CoerceSecret(entry))
         == if ValidUtf8(h.rpID) && ValidUtf8(entry.name) then Ok(plaintext) else Err(AuthenticationFailed)
  {
    CoercedSecretAad(h, entry.name);
  }
}
