/** The vault's objects: the shared document, the sealed vault over it, and the sessions that hold a data key. */
module Vaults {
  import opened Common
  import opened Aad
  import opened Aead
  import opened Document
  import opened Authenticators
  import opened Entropy
  import opened Listings
  import opened Wire
  import Op = Operations

  // ----- The document -----

  class SealedVault {
    var format: int
    var rpID: Bytes
    var salt: array<byte>
    var userVerified: bool
    var entropyVerified: bool
    var keys: seq<SealedKey>
    var secrets: seq<SealedSecret>

    function HeaderValue(): Header
      reads this, salt
    {
      Header(format, rpID, userVerified, entropyVerified, salt[..])
    }

    function Value(): Doc
      reads this, salt
    {
      Doc(HeaderValue(), keys, secrets)
    }

    /** The document Create starts from: nothing enrolled, nothing proven yet. */
    constructor Empty(rpID: Bytes, salt: array<byte>)
      ensures Value() == Doc(Header(FORMAT_VERSION, rpID, false, false, salt[..]), [], [])
      ensures this.salt == salt
    {
      format, this.rpID, this.salt := FORMAT_VERSION, rpID, salt;
      userVerified, entropyVerified := false, false;
      keys, secrets := [], [];
    }

    constructor FromValue(doc: Doc)
      ensures Value() == doc
      ensures fresh(salt)
    {
      var h := doc.header;
      format, rpID, userVerified, entropyVerified := h.format, h.rpID, h.userVerified, h.entropyVerified;
      salt := new byte[|h.salt|](i requires 0 <= i < |h.salt| => h.salt[i]);
      keys, secrets := doc.keys, doc.secrets;
      new;
      assert salt[..] == h.salt;
    }

    method FindKey(credentialID: Bytes) returns (r: Option<SealedKey>)
      ensures r == Document.FindKey(keys, credentialID)
    {
      for i := 0 to |keys|
        invariant Document.FindKey(keys, credentialID) == Document.FindKey(keys[i..], credentialID)
      {
        if keys[i].credentialID == credentialID {
          return Some(keys[i]);
        }
      }
      return None;
    }

    method FindSecret(name: Bytes) returns (r: Option<SealedSecret>)
      ensures r == Document.FindSecret(secrets, name)
    {
      for i := 0 to |secrets|
        invariant Document.FindSecret(secrets, name) == Document.FindSecret(secrets[i..], name)
      {
        if secrets[i].name == name {
          return Some(secrets[i]);
        }
      }
      return None;
    }

    method SlotOccupied(slot: int) returns (r: bool)
      ensures r <==> slot in SlotSet(keys)
    {
      for i := 0 to |keys|
        invariant forall j :: 0 <= j < i ==> keys[j].slot != slot
      {
        if keys[i].slot == slot {
          assert keys[i] in keys;
          return true;
        }
      }
      return false;
    }

    method CredentialIDs() returns (ids: seq<Bytes>)
      ensures ids == Document.CredentialIDs(keys)
    {
      ids := [];
      for i := 0 to |keys|
        invariant ids == Document.CredentialIDs(keys)[..i]
      {
        ids := ids + [keys[i].credentialID];
      }
    }

    method Names() returns (names: seq<Bytes>)
      ensures names == NamesOf(secrets)
    {
      names := [];
      for i := 0 to |secrets|
        invariant names == NameSeq(secrets)[..i]
      {
        names := names + [secrets[i].name];
      }
      assert names == NameSeq(secrets);
      names := Sort(Lex, names);
    }

    method Slots() returns (infos: seq<SlotInfo>)
      ensures infos == SlotsOf(keys)
    {
      infos := [];
      for i := 0 to |keys|
        invariant infos == InfoSeq(keys)[..i]
      {
        infos := infos + [InfoOf(keys[i])];
      }
      assert infos == InfoSeq(keys);
      infos := Sort(BySlot(), infos);
    }
  }

  // ----- Enrollment -----

  method EnrollAndDerive(auth: Authenticator, doc: SealedVault, opts: Op.Options, uv: UserVerification,
                         userID: Option<UserID>)
    returns (r: Result<Op.Enrolled>)
    modifies auth
    ensures (r, auth.ledger)
         == Op.EnrollAndDerive(auth.port, old(auth.ledger), doc.rpID, doc.salt[..], opts, uv, userID)
  {
    if userID.None? {
      return Err(RandomSourceFailed);
    }
    var created := auth.Enroll(EnrollRequest(doc.rpID, opts.RpName(), userID.value, doc.rpID, uv));
    if created.Err? {
      return Err(created.error);
    }
    var cred := created.value;
    if cred.residentKey {
      return Err(ResidentKey);
    }
    if |cred.credentialID| == 0 {
      return Err(NoCredentialID);
    }
    var refusal := opts.roots(cred);
    if refusal.Some? {
      return Err(refusal.value);
    }
    var answer := auth.Derive(DeriveRequest(doc.rpID, [cred.credentialID], doc.salt[..], uv));
    if answer.Err? {
      return Err(answer.error);
    }
    var derived := answer.value;
    if !derived.userPresent {
      return Err(NotPresent);
    }
    if |derived.secret| == 0 {
      return Err(NoPrf);
    }
    return Ok(Op.Enrolled(cred, derived));
  }

  /** Creates a vault; the session it returns owns its document, its salt and its key buffer alone. */
  method Create(auth: Authenticator, opts: Op.Options, salt: Option<Salt>, draws: Op.Draws, dataKey: Option<DataKey>)
    returns (r: Result<Session>)
    modifies auth
    ensures auth.ledger == Op.Create(auth.port, old(auth.ledger), opts, salt, draws, dataKey).1
    ensures match Op.Create(auth.port, old(auth.ledger), opts, salt, draws, dataKey).0
            case Err(e) => r == Err(e)
            case Ok(made) =>
              && r.Ok? && r.value.Valid() && fresh(r.value) && fresh(r.value.doc) && fresh(r.value.doc.salt)
              && (r.value.dataKey != null ==> fresh(r.value.dataKey)) && r.value.opts == opts
              && r.value.doc.Value() == made.doc && r.value.Key() == Some(made.dataKey)
  {
    hide Op.EnrollAndDerive, Gate, WrapDataKey;
    if |opts.rpID| == 0 {
      return Err(NoRpID);
    }
    if salt.None? {
      return Err(RandomSourceFailed);
    }
    var drawn := salt.value;
    var saltBuffer := new byte[|drawn|](i requires 0 <= i < |drawn| => drawn[i]);
    assert saltBuffer[..] == drawn;
    var doc := new SealedVault.Empty(opts.rpID, saltBuffer);
    var enrolled := EnrollAndDerive(auth, doc, opts, UVDiscouraged, draws.userID);
    if enrolled.Err? {
      return Err(enrolled.error);
    }
    var cred, derived := enrolled.value.cred, enrolled.value.derived;
    doc.userVerified := derived.userVerified;
    var refusal := VerifyDerivationDependsOnSalt(auth, doc.rpID, cred.credentialID, doc.salt, derived.secret,
                                                 UVDiscouraged, derived.userVerified);
    if refusal.Some? {
      return Err(refusal.value);
    }
    doc.entropyVerified := true;
    if dataKey.None? {
      return Err(RandomSourceFailed);
    }
    var entry := WrapDataKey(doc.HeaderValue(), dataKey.value, cred.credentialID, derived.secret, Op.FIRST_SLOT,
                             Op.LabelOrDefault(opts.keyLabel), draws.nonce);
    if entry.Err? {
      return Err(entry.error);
    }
    doc.keys := [entry.value];
    var session := new Session(doc, opts, dataKey.value);
    return Ok(session);
  }

  /** Parses a sealed vault into a document of its own; only the RP ID of opts is compared. */
  method OpenWith(data: Sealed, opts: Op.Options) returns (r: Result<Vault>)
    ensures match Parse(data)
            case Err(e) => r == Err(e)
            case Ok(doc) =>
              && (Op.Conflicts(opts, doc.header) ==> r == Err(RpIDConflict))
              && (!Op.Conflicts(opts, doc.header) ==>
                    && r.Ok? && fresh(r.value) && fresh(r.value.doc) && fresh(r.value.doc.salt)
                    && r.value.doc.Value() == doc && r.value.opts == opts.(rpID := doc.header.rpID))
  {
    var parsed := ParseSealed(data);
    if parsed.Err? {
      return Err(parsed.error);
    }
    var value := parsed.value;
    if |opts.rpID| != 0 && opts.rpID != value.header.rpID {
      return Err(RpIDConflict);
    }
    var doc := new SealedVault.FromValue(value);
    var vault := new Vault(doc, opts.(rpID := value.header.rpID));
    return Ok(vault);
  }

  // ----- The sealed vault -----

  class Vault {
    const doc: SealedVault
    const opts: Op.Options

    constructor (doc: SealedVault, opts: Op.Options)
      ensures this.doc == doc && this.opts == opts
    {
      this.doc, this.opts := doc, opts;
    }

    /** Unlock and Administer alike: one touch, and a session over the very same document. */
    method Unlock(auth: Authenticator) returns (r: Result<Session>)
      modifies auth
      ensures auth.ledger == Op.Unlock(auth.port, old(auth.ledger), doc.Value()).1
      ensures match Op.Unlock(auth.port, old(auth.ledger), doc.Value()).0
              case Err(e) => r == Err(e)
              case Ok(dataKey) =>
                && r.Ok? && r.value.Valid() && fresh(r.value) && (r.value.dataKey != null ==> fresh(r.value.dataKey))
                && r.value.doc == doc && r.value.opts == opts
                && r.value.Key() == if dataKey == [] then None else Some(dataKey)
    {
      if |doc.keys| == 0 {
        return Err(NoKeysEnrolled);
      }
      if !doc.entropyVerified {
        return Err(NotEntropyVerified);
      }
      var ids := doc.CredentialIDs();
      var uv := Op.UvRequirement(doc.HeaderValue());
      var answer := auth.Derive(DeriveRequest(doc.rpID, ids, doc.salt[..], uv));
      if answer.Err? {
        return Err(answer.error);
      }
      var derived := answer.value;
      if !derived.userPresent {
        return Err(NotPresent);
      }
      if derived.userVerified != doc.userVerified {
        return Err(UserVerificationMismatch);
      }
      var entry := doc.FindKey(derived.credentialID);
      if entry.None? {
        return Err(UnknownCredential);
      }
      var dataKey := UnwrapDataKey(doc.HeaderValue(), entry.value, derived.secret);
      if dataKey.Err? {
        return Err(dataKey.error);
      }
      var session := new Session(doc, opts, dataKey.value);
      return Ok(session);
    }
  }

  // ----- The unlocked session -----

  class Session {
    const doc: SealedVault
    const opts: Op.Options
    var dataKey: array?<byte>  // null once locked

    /** The key buffer is never the document's salt, so wiping one cannot touch the other. */
    ghost predicate Valid()
      reads this, doc
    {
      dataKey != null ==> dataKey != doc.salt
    }

    ghost function Key(): Option<Bytes>
      reads this, dataKey
    {
      if dataKey == null then None else Some(dataKey[..])
    }

    /** An empty slice of key bytes is a nil slice, which is what a locked session holds. */
    constructor (doc: SealedVault, opts: Op.Options, key: Bytes)
      ensures this.doc == doc && this.opts == opts
      ensures Valid() && (dataKey != null ==> fresh(dataKey))
      ensures Key() == if key == [] then None else Some(key)
    {
      this.doc, this.opts := doc, opts;
      var buffer := new byte[|key|](i requires 0 <= i < |key| => key[i]);
      dataKey := if |key| == 0 then null else buffer;
      new;
      assert dataKey != null ==> dataKey[..] == key;
    }

    /** Wipes this session's own buffer in place and forgets it; locking twice is harmless. */
    method Lock()
      requires Valid()
      modifies this, dataKey
      ensures Valid() && Key() == None
      ensures old(dataKey) != null ==> forall i :: 0 <= i < old(dataKey).Length ==> old(dataKey)[i] == 0
      ensures doc.Value() == old(doc.Value())
    {
      if dataKey != null {
        Zero(dataKey);
      }
      dataKey := null;
    }

    method Open(name: Bytes) returns (r: Result<SecretReader>)
      ensures match Op.Open(doc.Value(), Key(), name)
              case Err(e) => r == Err(e)
              case Ok(plaintext) =>
                r.Ok? && fresh(r.value) && r.value.Valid() && fresh(r.value.buf) && r.value.Unread() == plaintext
    {
      if dataKey == null {
        return Err(Locked);
      }
      var entry := doc.FindSecret(name);
      if entry.None? {
        return Err(NoSuchSecret);
      }
      var plaintext := OpenSecret(doc.HeaderValue(), dataKey[..], entry.value);
      if plaintext.Err? {
        return Err(plaintext.error);
      }
      var reader := new SecretReader(plaintext.value);
      return Ok(reader);
    }

    method Put(name: Bytes, secret: Op.Reader, nonce: Option<Nonce>) returns (err: Option<Error>)
      requires Valid()
      modifies doc
      ensures Valid() && doc.salt == old(doc.salt)
      ensures (err, doc.Value()) == Op.Put(old(doc.Value()), old(Key()), name, secret, nonce)
    {
      if dataKey == null {
        return Some(Locked);
      }
      if |name| == 0 {
        return Some(NoName);
      }
      if secret.NilReader? {
        return Some(NoValue);
      }
      if secret.BrokenReader? {
        return Some(ReadFailed);
      }
      var sealed := SealSecret(doc.HeaderValue(), dataKey[..], name, secret.bytes, nonce);
      if sealed.Err? {
        return Some(sealed.error);
      }
      var entry := sealed.value;
      for i := 0 to |doc.secrets|
        invariant doc.Value() == old(doc.Value()) && doc.salt == old(doc.salt)
        invariant forall j :: 0 <= j < i ==> doc.secrets[j].name != name
      {
        if doc.secrets[i].name == name {
          UpsertInPlace(doc.secrets, i, entry);
          doc.secrets := doc.secrets[i := entry];
          return None;
        }
      }
      UpsertAtEnd(doc.secrets, entry);
      doc.secrets := doc.secrets + [entry];
      return None;
    }

    method Delete(name: Bytes) returns (err: Option<Error>)
      requires Valid()
      modifies doc
      ensures Valid() && doc.salt == old(doc.salt)
      ensures (err, doc.Value()) == Op.Delete(old(doc.Value()), old(Key()), name)
    {
      if dataKey == null {
        return Some(Locked);
      }
      for i := 0 to |doc.secrets|
        invariant doc.Value() == old(doc.Value()) && doc.salt == old(doc.salt)
        invariant forall j :: 0 <= j < i ==> doc.secrets[j].name != name
      {
        if doc.secrets[i].name == name {
          WithoutNameAt(doc.secrets, i, name);
          assert doc.secrets[i] in doc.secrets;
          doc.secrets := doc.secrets[..i] + doc.secrets[i + 1..];
          return None;
        }
      }
      return Some(NoSuchSecret);
    }

    method EnrollKey(auth: Authenticator, slot: int, keyLabel: Bytes, draws: Op.Draws) returns (err: Option<Error>)
      requires Valid()
      modifies doc, auth
      ensures Valid() && doc.salt == old(doc.salt)
      ensures var (added, ledger) := Op.Enrolling(auth.port, old(auth.ledger), old(doc.Value()), old(Key()), opts,
                                                  slot, keyLabel, draws);
        auth.ledger == ledger && (err, doc.Value()) == Op.WithKey(old(doc.Value()), added)
    {
      if dataKey == null {
        return Some(Locked);
      }
      if slot < 0 {
        return Some(NegativeSlot);
      }
      var occupied := doc.SlotOccupied(slot);
      if occupied {
        return Some(SlotOccupied);
      }
      var uv := Op.UvRequirement(doc.HeaderValue());
      var enrolled := EnrollAndDerive(auth, doc, opts, uv, draws.userID);
      if enrolled.Err? {
        return Some(enrolled.error);
      }
      var cred, derived := enrolled.value.cred, enrolled.value.derived;
      var existing := doc.FindKey(cred.credentialID);
      FindKeyIsMember(doc.keys, cred.credentialID);
      if existing.Some? {
        return Some(AlreadyEnrolled);
      }
      if derived.userVerified != doc.userVerified {
        return Some(UserVerificationMismatch);
      }
      var refusal := VerifyDerivationDependsOnSalt(auth, doc.rpID, cred.credentialID, doc.salt, derived.secret,
                                                   uv, derived.userVerified);
      if refusal.Some? {
        return refusal;
      }
      var entry := WrapDataKey(doc.HeaderValue(), dataKey[..], cred.credentialID, derived.secret, slot,
                               Op.LabelOrDefault(keyLabel), draws.nonce);
      if entry.Err? {
        return Some(entry.error);
      }
      doc.keys := doc.keys + [entry.value];
      return None;
    }

    method RemoveKey(slot: int) returns (err: Option<Error>)
      requires Valid()
      modifies doc
      ensures Valid() && doc.salt == old(doc.salt)
      ensures (err, doc.Value()) == Op.RemoveKey(old(doc.Value()), old(Key()), slot)
    {
      if dataKey == null {
        return Some(Locked);
      }
      var occupied := doc.SlotOccupied(slot);
      if !occupied {
        return Some(NoSuchSlot);
      }
      if |doc.keys| == 1 {
        return Some(LastKey);
      }
      RemoveSlot(slot);
      return None;
    }

    method ForceRemoveKey(slot: int) returns (err: Option<Error>)
      requires Valid()
      modifies doc
      ensures Valid() && doc.salt == old(doc.salt)
      ensures (err, doc.Value()) == Op.ForceRemoveKey(old(doc.Value()), old(Key()), slot)
    {
      if dataKey == null {
        return Some(Locked);
      }
      var occupied := doc.SlotOccupied(slot);
      if !occupied {
        return Some(NoSuchSlot);
      }
      RemoveSlot(slot);
      return None;
    }

    /** removeKey: keeps the entries of every other slot, in order. */
    method RemoveSlot(slot: int)
      modifies doc`keys
      ensures doc.keys == WithoutSlot(old(doc.keys), slot)
    {
      var kept := [];
      for i := 0 to |doc.keys|
        invariant doc.keys == old(doc.keys)
        invariant kept == WithoutSlot(doc.keys[..i], slot)
      {
        WithoutSlotSnoc(doc.keys[..i], doc.keys[i], slot);
        assert doc.keys[..i + 1] == doc.keys[..i] + [doc.keys[i]];
        if doc.keys[i].slot != slot {
          kept := kept + [doc.keys[i]];
        }
      }
      assert doc.keys[..|doc.keys|] == doc.keys;
      doc.keys := kept;
    }

    /** Needs no data key: a locked session can still serialise what it changed. */
    method Sealed() returns (data: Wire.Sealed)
      ensures data == Marshal(doc.Value())
    {
      data := Marshal(doc.Value());
    }
  }

  // ----- Reading one secret -----

  class SecretReader {
    const buf: array<byte>
    var closed: bool
    var pos: nat

    ghost predicate Valid()
      reads this, buf
    {
      pos <= buf.Length && (closed ==> forall i :: 0 <= i < buf.Length ==> buf[i] == 0)
    }

    ghost function Unread(): Bytes
      requires Valid()
      reads this, buf
    {
      if closed then [] else buf[pos..]
    }

    constructor (plaintext: Bytes)
      ensures Valid() && fresh(buf) && Unread() == plaintext && !closed
    {
      buf := new byte[|plaintext|](i requires 0 <= i < |plaintext| => plaintext[i]);
      closed, pos := false, 0;
      new;
      assert buf[..] == plaintext;
    }

    method ReadAll() returns (r: Bytes)
      requires Valid()
      modifies this`pos
      ensures Valid() && r == old(Unread()) && Unread() == []
    {
      r := if closed then [] else buf[pos..];
      pos := buf.Length;
    }

    /** Wipes the plaintext the first time; closing again does nothing. */
    method Close()
      requires Valid()
      modifies this, buf
      ensures Valid() && closed && Unread() == []
      ensures forall i :: 0 <= i < buf.Length ==> buf[i] == 0
    {
      if !closed {
        Zero(buf);
        closed := true;
      }
    }
  }

  /** Opens, reads and closes in one go. */
  method ReadString(s: Session, name: Bytes) returns (r: Result<Bytes>)
    ensures r == Op.Open(s.doc.Value(), s.Key(), name)
  {
    var reader := s.Open(name);
    if reader.Err? {
      return Err(reader.error);
    }
    var value := reader.value.ReadAll();
    reader.value.Close();
    return Ok(value);
  }

  // ----- The loops' updates, as the functions that specify them -----

  lemma {:induction false} UpsertInPlace(secrets: seq<SealedSecret>, i: nat, entry: SealedSecret)
    requires i < |secrets| && secrets[i].name == entry.name
    requires forall j :: 0 <= j < i ==> secrets[j].name != entry.name
    ensures Upsert(secrets, entry) == secrets[i := entry]
  {
    if i == 0 {
    } else {
      UpsertInPlace(secrets[1..], i - 1, entry);
    }
  }

  lemma {:induction false} UpsertAtEnd(secrets: seq<SealedSecret>, entry: SealedSecret)
    requires forall j :: 0 <= j < |secrets| ==> secrets[j].name != entry.name
    ensures Upsert(secrets, entry) == secrets + [entry]
  {
    if secrets == [] {
    } else {
      UpsertAtEnd(secrets[1..], entry);
    }
  }

  lemma {:induction false} WithoutNameAt(secrets: seq<SealedSecret>, i: nat, name: Bytes)
    requires i < |secrets| && secrets[i].name == name
    requires forall j :: 0 <= j < i ==> secrets[j].name != name
    ensures WithoutName(secrets, name) == secrets[..i] + secrets[i + 1..]
  {
    if i == 0 {
    } else {
      WithoutNameAt(secrets[1..], i - 1, name);
    }
  }

  lemma {:induction false} WithoutSlotSnoc(keys: seq<SealedKey>, k: SealedKey, slot: int)
    ensures WithoutSlot(keys + [k], slot) == WithoutSlot(keys, slot) + (if k.slot == slot then [] else [k])
  {
    if keys == [] {
      assert keys + [k] == [k];
    } else {
      WithoutSlotSnoc(keys[1..], k, slot);
      assert (keys + [k])[1..] == keys[1..] + [k];
    }
  }
}
