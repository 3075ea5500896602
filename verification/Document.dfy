/** The sealed vault as a value: its entries, its seals, lookups and updates. */
module Document {
  import opened Common
  import opened Encoding
  import opened Aad
  import opened Aead

  datatype SealedKey = SealedKey(slot: int, keyLabel: Bytes, credentialID: Bytes, nonce: Bytes, wrapped: Box)
  datatype SealedSecret = SealedSecret(name: Bytes, nonce: Bytes, ciphertext: Box)
  datatype Doc = Doc(header: Header, keys: seq<SealedKey>, secrets: seq<SealedSecret>)

  /** An entry without its label, which no seal binds. */
  function Unlabelled(k: SealedKey): SealedKey {
    k.(keyLabel := [])
  }

  // ----- Seals -----

  function WrapDataKey(h: Header, dataKey: Bytes, credentialID: Bytes, prf: Bytes, slot: int, keyLabel: Bytes,
                       nonce: Option<Nonce>): Result<SealedKey>
  {
    match DeriveKek(prf, h.salt)
    case Err(e) => Err(e)
    case Ok(kek) =>
      match Seal(kek, dataKey, KeyAad(h, slot, credentialID), nonce)
      case Err(e) => Err(e)
      case Ok((n, box)) => Ok(SealedKey(slot, keyLabel, credentialID, n, box))
  }

  function UnwrapDataKey(h: Header, entry: SealedKey, prf: Bytes): Result<Bytes> {
    match DeriveKek(prf, h.salt)
    case Err(e) => Err(e)
    case Ok(kek) => Open(kek, entry.nonce, entry.wrapped, KeyAad(h, entry.slot, entry.credentialID))
  }

  function SealSecret(h: Header, dataKey: Bytes, name: Bytes, plaintext: Bytes, nonce: Option<Nonce>)
    : Result<SealedSecret>
  {
    match Seal(Raw(dataKey), plaintext, SecretAad(h, name), nonce)
    case Err(e) => Err(e)
    case Ok((n, box)) => Ok(SealedSecret(name, n, box))
  }

  function OpenSecret(h: Header, dataKey: Bytes, s: SealedSecret): Result<Bytes> {
    Open(Raw(dataKey), s.nonce, s.ciphertext, SecretAad(h, s.name))
  }

  /** A wrapped data key, presented in any document at any place with any prf, opens exactly when nothing
      that is authenticated was touched. The label may be anything; the slot is pinned modulo 2^32. */
  lemma WrappedKeyOpensExactly(h: Header, entry: SealedKey, dataKey: Bytes, prf: Bytes,
                               h': Header, moved: SealedKey, prf': Bytes)
    requires exists nonce ::
      WrapDataKey(h, dataKey, entry.credentialID, prf, entry.slot, entry.keyLabel, nonce) == Ok(entry)
    requires moved.nonce == entry.nonce && moved.wrapped == entry.wrapped
    requires HeaderFits(h) && HeaderFits(h') && |entry.credentialID| < TWO32 && |moved.credentialID| < TWO32
    ensures UnwrapDataKey(h', moved, prf').Ok?
       <==> (prf' == prf && Truncated(h') == Truncated(h)
             && moved.slot % TWO32 == entry.slot % TWO32 && moved.credentialID == entry.credentialID)
    ensures UnwrapDataKey(h', moved, prf').Ok? ==> UnwrapDataKey(h', moved, prf') == Ok(dataKey)
  {
    KeyAadInjective(h, entry.slot, entry.credentialID, h', moved.slot, moved.credentialID);
  }

  /** A sealed secret opens exactly under its own data key, header and name. */
  lemma SealedSecretOpensExactly(h: Header, entry: SealedSecret, dataKey: Bytes, plaintext: Bytes,
                                 h': Header, moved: SealedSecret, dataKey': Bytes)
    requires exists nonce :: SealSecret(h, dataKey, entry.name, plaintext, nonce) == Ok(entry)
    requires moved.nonce == entry.nonce && moved.ciphertext == entry.ciphertext
    requires HeaderFits(h) && HeaderFits(h') && |entry.name| < TWO32 && |moved.name| < TWO32
    ensures OpenSecret(h', dataKey', moved).Ok?
       <==> dataKey' == dataKey && Truncated(h') == Truncated(h) && moved.name == entry.name
    ensures OpenSecret(h', dataKey', moved).Ok? ==> OpenSecret(h', dataKey', moved) == Ok(plaintext)
  {
    SecretAadInjective(h, entry.name, h', moved.name);
  }

  // ----- Lookups: the first entry that matches -----

  function FindKey(keys: seq<SealedKey>, credentialID: Bytes): Option<SealedKey> {
    if keys == [] then None
    else if keys[0].credentialID == credentialID then Some(keys[0])
    else FindKey(keys[1..], credentialID)
  }

  function FindSecret(secrets: seq<SealedSecret>, name: Bytes): Option<SealedSecret> {
    if secrets == [] then None
    else if secrets[0].name == name then Some(secrets[0])
    else FindSecret(secrets[1..], name)
  }

  function SlotSet(keys: seq<SealedKey>): set<int> {
    set k | k in keys :: k.slot
  }

  function CredentialSet(keys: seq<SealedKey>): set<Bytes> {
    set k | k in keys :: k.credentialID
  }

  function NameSet(secrets: seq<SealedSecret>): set<Bytes> {
    set s | s in secrets :: s.name
  }

  function CredentialIDs(keys: seq<SealedKey>): (ids: seq<Bytes>)
    ensures |ids| == |keys|
    ensures forall i :: 0 <= i < |keys| ==> ids[i] == keys[i].credentialID
  {
    seq(|keys|, i requires 0 <= i < |keys| => keys[i].credentialID)
  }

  lemma {:induction false} FindKeyIsMember(keys: seq<SealedKey>, credentialID: Bytes)
    ensures match FindKey(keys, credentialID)
            case Some(k) => k in keys && k.credentialID == credentialID
            case None => credentialID !in CredentialSet(keys)
  {
    if keys == [] {
    } else if keys[0].credentialID != credentialID {
      FindKeyIsMember(keys[1..], credentialID);
      assert keys == [keys[0]] + keys[1..];
    }
  }

  lemma {:induction false} FindSecretIsMember(secrets: seq<SealedSecret>, name: Bytes)
    ensures match FindSecret(secrets, name)
            case Some(s) => s in secrets && s.name == name
            case None => name !in NameSet(secrets)
  {
    if secrets == [] {
    } else if secrets[0].name != name {
      FindSecretIsMember(secrets[1..], name);
      assert secrets == [secrets[0]] + secrets[1..];
    }
  }

  // ----- Well-formed documents -----

  ghost predicate DistinctSlots(keys: seq<SealedKey>) {
    forall i, j :: 0 <= i < j < |keys| ==> keys[i].slot != keys[j].slot
  }

  ghost predicate DistinctCredentials(keys: seq<SealedKey>) {
    forall i, j :: 0 <= i < j < |keys| ==> keys[i].credentialID != keys[j].credentialID
  }

  ghost predicate DistinctNames(secrets: seq<SealedSecret>) {
    forall i, j :: 0 <= i < j < |secrets| ==> secrets[i].name != secrets[j].name
  }

  ghost predicate KeysWellFormed(keys: seq<SealedKey>) {
    && (forall k :: k in keys ==> k.slot >= 0 && k.credentialID != [])
    && DistinctSlots(keys) && DistinctCredentials(keys)
  }

  ghost predicate SecretsWellFormed(secrets: seq<SealedSecret>) {
    (forall s :: s in secrets ==> s.name != []) && DistinctNames(secrets)
  }

  ghost predicate HeaderWellFormed(h: Header) {
    h.format == FORMAT_VERSION && |h.salt| == SALT_LEN && h.rpID != []
  }

  /** What parsing accepts: no entry is ambiguous. */
  ghost predicate WellFormed(doc: Doc) {
    HeaderWellFormed(doc.header) && KeysWellFormed(doc.keys) && SecretsWellFormed(doc.secrets)
  }

  /** With distinct credentials, every enrolled entry answers for its own credential. */
  lemma {:induction false} FindKeyOfMember(keys: seq<SealedKey>, k: SealedKey)
    requires DistinctCredentials(keys) && k in keys
    ensures FindKey(keys, k.credentialID) == Some(k)
  {
    if keys[0] == k {
    } else {
      assert k in keys[1..];
      FindKeyOfMember(keys[1..], k);
    }
  }

  // ----- Updates -----

  /** Replaces the first entry of that name where it stands, or appends. */
  function Upsert(secrets: seq<SealedSecret>, entry: SealedSecret): seq<SealedSecret> {
    if secrets == [] then [entry]
    else if secrets[0].name == entry.name then [entry] + secrets[1..]
    else [secrets[0]] + Upsert(secrets[1..], entry)
  }

  /** Drops the first entry of that name and closes the gap. */
  function WithoutName(secrets: seq<SealedSecret>, name: Bytes): seq<SealedSecret> {
    if secrets == [] then []
    else if secrets[0].name == name then secrets[1..]
    else [secrets[0]] + WithoutName(secrets[1..], name)
  }

  /** Drops every entry in the slot, keeping the order of the others. */
  function WithoutSlot(keys: seq<SealedKey>, slot: int): seq<SealedKey> {
    if keys == [] then []
    else (if keys[0].slot == slot then [] else [keys[0]]) + WithoutSlot(keys[1..], slot)
  }

  lemma RestDiffers(secrets: seq<SealedSecret>)
    requires secrets != [] && DistinctNames(secrets)
    ensures DistinctNames(secrets[1..])
    ensures forall s :: s in secrets[1..] ==> s.name != secrets[0].name
    ensures forall s :: s in secrets <==> s == secrets[0] || s in secrets[1..]
  {
    assert secrets == [secrets[0]] + secrets[1..];
  }

  lemma OneIsDistinct(s: SealedSecret)
    ensures DistinctNames([s])
  {
  }

  lemma ConsDistinct(head: SealedSecret, rest: seq<SealedSecret>)
    requires DistinctNames(rest) && forall s :: s in rest ==> s.name != head.name
    ensures DistinctNames([head] + rest)
    ensures forall s :: s in [head] + rest <==> s == head || s in rest
  {
  }

  lemma {:induction false} UpsertMembers(secrets: seq<SealedSecret>, entry: SealedSecret)
    requires DistinctNames(secrets)
    ensures DistinctNames(Upsert(secrets, entry))
    ensures forall s :: s in Upsert(secrets, entry) <==> s == entry || (s in secrets && s.name != entry.name)
  {
    hide DistinctNames;
    if secrets == [] {
      OneIsDistinct(entry);
    } else {
      RestDiffers(secrets);
      if secrets[0].name == entry.name {
        ConsDistinct(entry, secrets[1..]);
      } else {
        UpsertMembers(secrets[1..], entry);
        ConsDistinct(secrets[0], Upsert(secrets[1..], entry));
      }
    }
  }

  lemma {:induction false} WithoutNameMembers(secrets: seq<SealedSecret>, name: Bytes)
    requires DistinctNames(secrets)
    ensures DistinctNames(WithoutName(secrets, name))
    ensures forall s :: s in WithoutName(secrets, name) <==> s in secrets && s.name != name
  {
    hide DistinctNames;
    if secrets == [] {
    } else {
      RestDiffers(secrets);
      if secrets[0].name != name {
        WithoutNameMembers(secrets[1..], name);
        ConsDistinct(secrets[0], WithoutName(secrets[1..], name));
      }
    }
  }

  lemma {:induction false} WithoutSlotMembers(keys: seq<SealedKey>, slot: int)
    ensures forall k :: k in WithoutSlot(keys, slot) <==> k in keys && k.slot != slot
  {
    if keys == [] {
    } else {
      assert keys == [keys[0]] + keys[1..];
      WithoutSlotMembers(keys[1..], slot);
    }
  }

  lemma RestKeysWellFormed(keys: seq<SealedKey>)
    requires keys != [] && KeysWellFormed(keys)
    ensures KeysWellFormed(keys[1..])
    ensures forall k :: k in keys[1..] ==> k.slot != keys[0].slot && k.credentialID != keys[0].credentialID
    ensures keys[0].slot >= 0 && keys[0].credentialID != []
  {
    assert keys[0] in keys;
    assert forall k :: k in keys[1..] ==> k in keys;
  }

  lemma ConsKeysWellFormed(head: SealedKey, rest: seq<SealedKey>)
    requires KeysWellFormed(rest) && head.slot >= 0 && head.credentialID != []
    requires forall k :: k in rest ==> k.slot != head.slot && k.credentialID != head.credentialID
    ensures KeysWellFormed([head] + rest)
  {
  }

  lemma {:induction false} WithoutSlotWellFormed(keys: seq<SealedKey>, slot: int)
    requires KeysWellFormed(keys)
    ensures KeysWellFormed(WithoutSlot(keys, slot))
  {
    hide KeysWellFormed;
    if keys == [] {
    } else {
      RestKeysWellFormed(keys);
      WithoutSlotWellFormed(keys[1..], slot);
      if keys[0].slot == slot {
        assert WithoutSlot(keys, slot) == WithoutSlot(keys[1..], slot);
      } else {
        WithoutSlotMembers(keys[1..], slot);
        ConsKeysWellFormed(keys[0], WithoutSlot(keys[1..], slot));
      }
    }
  }

  /** An occupied slot holds one entry, so removing it shortens the list by exactly one. */
  lemma {:induction false} WithoutSlotLength(keys: seq<SealedKey>, slot: int)
    requires DistinctSlots(keys) && slot in SlotSet(keys)
    ensures |WithoutSlot(keys, slot)| == |keys| - 1
  {
    var rest := keys[1..];
    assert keys == [keys[0]] + rest;
    if keys[0].slot == slot {
      assert forall k :: k in rest ==> k.slot != slot;
      WithoutFreeSlot(rest, slot);
    } else {
      WithoutSlotLength(rest, slot);
    }
  }

  lemma {:induction false} WithoutFreeSlot(keys: seq<SealedKey>, slot: int)
    requires slot !in SlotSet(keys)
    ensures WithoutSlot(keys, slot) == keys
  {
    if keys == [] {
    } else {
      assert keys[0] in keys;
      assert keys == [keys[0]] + keys[1..];
      WithoutFreeSlot(keys[1..], slot);
    }
  }
}
