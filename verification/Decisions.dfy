/** What each call decides, for every input: which refusal, or what success leaves behind. The tables are written from
    the order of checks the library documents, with every request, constant and value spelled out, and each is proved
    of the operation. */
module Decisions {
  import opened Common
  import opened Encoding
  import opened Aad
  import opened Aead
  import opened Document
  import opened Authenticators
  import opened Entropy
  import opened Wire
  import Op = Operations
  import Vaults

  // ----- The requests -----

  function UvFor(userVerified: bool): UserVerification {
    if userVerified then UVRequired else UVDiscouraged
  }

  /** The bytes of "primary" stand in for an empty label. */
  function LabelFor(keyLabel: Bytes): Bytes {
    if |keyLabel| > 0 then keyLabel else [0x70, 0x72, 0x69, 0x6D, 0x61, 0x72, 0x79]
  }

  /** The three answers of an enrollment that starts as call number n: to the creation, to a derivation by the new
      credential, and to a derivation over the salt with its last byte complemented. */
  datatype Answers = Answers(created: Result<EnrollResult>, derived: Result<DeriveResult>, probed: Result<DeriveResult>)

  function AnswersTo(port: Port, n: nat, rpID: Bytes, rpName: Bytes, userID: UserID, salt: Bytes,
                     uv: UserVerification): Answers
    requires |salt| == 32
  {
    var created := port.enroll(n, EnrollRequest(rpID, rpName, userID, rpID, uv));
    var id := if created.Ok? then created.value.credentialID else [];
    Answers(created,
            port.derive(n + 1, DeriveRequest(rpID, [id], salt, uv)),
            port.derive(n + 2, DeriveRequest(rpID, [id], salt[..31] + [255 - salt[31]], uv)))
  }

  function RpNameOf(opts: Op.Options): Bytes {
    if |opts.rpName| == 0 then opts.rpID else opts.rpName
  }

  /** Why a new credential is refused, or its first derivation. */
  function CredentialRefusal(opts: Op.Options, a: Answers): Option<Error> {
    if a.created.Err? then Some(a.created.error)
    else if a.created.value.residentKey then Some(ResidentKey)
    else if |a.created.value.credentialID| == 0 then Some(NoCredentialID)
    else if opts.roots(a.created.value) != None then opts.roots(a.created.value)
    else if a.derived.Err? then Some(a.derived.error)
    else if !a.derived.value.userPresent then Some(NotPresent)
    else if |a.derived.value.secret| == 0 then Some(NoPrf)
    else None
  }

  /** Gestures spent on a credential: one if it was not fit to be derived from. */
  function CredentialGestures(opts: Op.Options, a: Answers): nat {
    if a.created.Err? || a.created.value.residentKey || |a.created.value.credentialID| == 0
       || opts.roots(a.created.value) != None
    then 1 else 2
  }

  /** Why the probe is refused. */
  function ProbeRefusal(a: Answers): Option<Error>
    requires a.derived.Ok?
  {
    if a.probed.Err? then Some(a.probed.error)
    else if !a.probed.value.userPresent then Some(NotPresent)
    else if |a.probed.value.secret| == 0 then Some(NoPrf)
    else if a.probed.value.userVerified != a.derived.value.userVerified then Some(UserVerificationMismatch)
    else if a.probed.value.secret == a.derived.value.secret then Some(DerivationIgnoresSalt)
    else None
  }

  /** The entry that wraps a data key: AES-GCM under the key derived from secret and salt, over the drawn nonce. */
  function EntryFor(h: Header, dataKey: Bytes, a: Answers, slot: int, keyLabel: Bytes, nonce: Nonce): SealedKey
    requires a.created.Ok? && a.derived.Ok?
  {
    var id := a.created.value.credentialID;
    SealedKey(slot, LabelFor(keyLabel), id, nonce,
              Box(Hkdf(a.derived.value.secret, h.salt), nonce, dataKey, KeyAad(h, slot, id)))
  }

  // ----- Enrolling -----

  lemma SameProbe(salt: Bytes)
    requires |salt| == 32
    ensures Probe(salt) == salt[..31] + [255 - salt[31]]
  {
  }

  lemma EnrollAndDeriveIsDecided(port: Port, ledger: seq<Call>, rpID: Bytes, salt: Bytes, opts: Op.Options,
                                 uv: UserVerification, userID: UserID)
    requires |salt| == 32
    ensures var a := AnswersTo(port, |ledger|, rpID, RpNameOf(opts), userID, salt, uv);
      var (r, l) := Op.EnrollAndDerive(port, ledger, rpID, salt, opts, uv, Some(userID));
      && |l| == |ledger| + CredentialGestures(opts, a)
      && (CredentialRefusal(opts, a).Some? ==> r == Err(CredentialRefusal(opts, a).value))
      && (CredentialRefusal(opts, a).None? ==>
            && r == Ok(Op.Enrolled(a.created.value, a.derived.value)) && |l| == |ledger| + 2)
  {
  }

  lemma NothingWithoutUserID(port: Port, ledger: seq<Call>, rpID: Bytes, salt: Bytes, opts: Op.Options,
                             uv: UserVerification)
    ensures Op.EnrollAndDerive(port, ledger, rpID, salt, opts, uv, None) == (Err(RandomSourceFailed), ledger)
  {
  }

  lemma GateIsDecided(port: Port, ledger: seq<Call>, l: seq<Call>, rpID: Bytes, salt: Bytes, opts: Op.Options,
                      uv: UserVerification, userID: UserID)
    requires |salt| == 32 && |l| == |ledger| + 2
    requires CredentialRefusal(opts, AnswersTo(port, |ledger|, rpID, RpNameOf(opts), userID, salt, uv)).None?
    ensures var a := AnswersTo(port, |ledger|, rpID, RpNameOf(opts), userID, salt, uv);
      var (refusal, m) := Gate(port, l, rpID, a.created.value.credentialID, salt, a.derived.value.secret, uv,
                               a.derived.value.userVerified);
      refusal == ProbeRefusal(a) && |m| == |ledger| + 3
  {
    SameProbe(salt);
  }

  /** Create, from the first check to the first entry: slot 0, the flags as observed and as proven. */
  lemma CreateIsDecided(port: Port, ledger: seq<Call>, opts: Op.Options, salt: Option<Salt>, draws: Op.Draws,
                        dataKey: Option<DataKey>)
    ensures Op.Create(port, ledger, opts, salt, draws, dataKey).0
      == if |opts.rpID| == 0 then Err(NoRpID)
         else if salt.None? || draws.userID.None? then Err(RandomSourceFailed)
         else
           var a := AnswersTo(port, |ledger|, opts.rpID, RpNameOf(opts), draws.userID.value, salt.value, UVDiscouraged);
           if CredentialRefusal(opts, a).Some? then Err(CredentialRefusal(opts, a).value)
           else if ProbeRefusal(a).Some? then Err(ProbeRefusal(a).value)
           else if dataKey.None? || draws.nonce.None? then Err(RandomSourceFailed)
           else
             var h := Header(1, opts.rpID, a.derived.value.userVerified, true, salt.value);
             Ok(Op.Creation(Doc(h, [EntryFor(h, dataKey.value, a, 0, opts.keyLabel, draws.nonce.value)], []),
                            dataKey.value, a.derived.value))
    ensures |Op.Create(port, ledger, opts, salt, draws, dataKey).1| - |ledger|
      == if |opts.rpID| == 0 || salt.None? || draws.userID.None? then 0
         else
           var a := AnswersTo(port, |ledger|, opts.rpID, RpNameOf(opts), draws.userID.value, salt.value, UVDiscouraged);
           if CredentialRefusal(opts, a).Some? then CredentialGestures(opts, a) else 3
  {
    if |opts.rpID| != 0 && salt.Some? && draws.userID.Some? {
      hide Op.EnrollAndDerive, Gate, AnswersTo, KeyAad;
      var a := AnswersTo(port, |ledger|, opts.rpID, RpNameOf(opts), draws.userID.value, salt.value, UVDiscouraged);
      EnrollAndDeriveIsDecided(port, ledger, opts.rpID, salt.value, opts, UVDiscouraged, draws.userID.value);
      if CredentialRefusal(opts, a).None? {
        var l := Op.EnrollAndDerive(port, ledger, opts.rpID, salt.value, opts, UVDiscouraged, draws.userID).1;
        GateIsDecided(port, ledger, l, opts.rpID, salt.value, opts, UVDiscouraged, draws.userID.value);
      }
    }
  }

  ghost predicate SlotInUse(keys: seq<SealedKey>, slot: int) {
    exists i :: 0 <= i < |keys| && keys[i].slot == slot
  }

  ghost predicate CredentialInUse(keys: seq<SealedKey>, credentialID: Bytes) {
    exists i :: 0 <= i < |keys| && keys[i].credentialID == credentialID
  }

  ghost predicate NameInUse(secrets: seq<SealedSecret>, name: Bytes) {
    exists i :: 0 <= i < |secrets| && secrets[i].name == name
  }

  lemma SlotTaken(keys: seq<SealedKey>, slot: int)
    ensures slot in SlotSet(keys) <==> SlotInUse(keys, slot)
  {
    if i :| 0 <= i < |keys| && keys[i].slot == slot {
      assert keys[i] in keys;
    }
  }

  lemma CredentialTaken(keys: seq<SealedKey>, credentialID: Bytes)
    ensures credentialID in CredentialSet(keys) <==> CredentialInUse(keys, credentialID)
  {
    if i :| 0 <= i < |keys| && keys[i].credentialID == credentialID {
      assert keys[i] in keys;
    }
  }

  lemma NameTaken(secrets: seq<SealedSecret>, name: Bytes)
    ensures name in NameSet(secrets) <==> NameInUse(secrets, name)
  {
    if i :| 0 <= i < |secrets| && secrets[i].name == name {
      assert secrets[i] in secrets;
    }
  }

  /** EnrollKey on any document, whatever is enrolled in it already. */
  lemma EnrollKeyIsDecided(port: Port, ledger: seq<Call>, doc: Doc, key: Option<Bytes>, opts: Op.Options, slot: int,
                           keyLabel: Bytes, draws: Op.Draws)
    requires |doc.header.salt| == 32
    ensures var h := doc.header;
      Op.Enrolling(port, ledger, doc, key, opts, slot, keyLabel, draws).0
      == if key.None? then Err(Locked)
         else if slot < 0 then Err(NegativeSlot)
         else if SlotInUse(doc.keys, slot) then Err(SlotOccupied)
         else if draws.userID.None? then Err(RandomSourceFailed)
         else
           var a := AnswersTo(port, |ledger|, h.rpID, RpNameOf(opts), draws.userID.value, h.salt, UvFor(h.userVerified));
           if CredentialRefusal(opts, a).Some? then Err(CredentialRefusal(opts, a).value)
           else if CredentialInUse(doc.keys, a.created.value.credentialID) then Err(AlreadyEnrolled)
           else if a.derived.value.userVerified != h.userVerified then Err(UserVerificationMismatch)
           else if ProbeRefusal(a).Some? then Err(ProbeRefusal(a).value)
           else if draws.nonce.None? then Err(RandomSourceFailed)
           else Ok((EntryFor(h, key.value, a, slot, keyLabel, draws.nonce.value), a.derived.value))
    ensures var h := doc.header;
      |Op.Enrolling(port, ledger, doc, key, opts, slot, keyLabel, draws).1| - |ledger|
      == if key.None? || slot < 0 || SlotInUse(doc.keys, slot) || draws.userID.None? then 0
         else
           var a := AnswersTo(port, |ledger|, h.rpID, RpNameOf(opts), draws.userID.value, h.salt, UvFor(h.userVerified));
           if CredentialRefusal(opts, a).Some? then CredentialGestures(opts, a)
           else if CredentialInUse(doc.keys, a.created.value.credentialID)
                || a.derived.value.userVerified != h.userVerified then 2
           else 3
  {
    hide Op.EnrollAndDerive, Gate, AnswersTo, KeyAad, SlotSet, CredentialSet;
    SlotTaken(doc.keys, slot);
    NothingWithoutUserID(port, ledger, doc.header.rpID, doc.header.salt, opts, UvFor(doc.header.userVerified));
    if key.Some? && slot >= 0 && slot !in SlotSet(doc.keys) && draws.userID.Some? {
      var h, uv := doc.header, UvFor(doc.header.userVerified);
      var a := AnswersTo(port, |ledger|, h.rpID, RpNameOf(opts), draws.userID.value, h.salt, uv);
      EnrollAndDeriveIsDecided(port, ledger, h.rpID, h.salt, opts, uv, draws.userID.value);
      if CredentialRefusal(opts, a).None? {
        CredentialTaken(doc.keys, a.created.value.credentialID);
        var l := Op.EnrollAndDerive(port, ledger, h.rpID, h.salt, opts, uv, draws.userID).1;
        GateIsDecided(port, ledger, l, h.rpID, h.salt, opts, uv, draws.userID.value);
      }
    }
  }

  /** A success appends the entry and changes nothing else; a refusal changes nothing. */
  lemma WithKeyIsDecided(doc: Doc, added: Result<(SealedKey, DeriveResult)>)
    ensures added.Err? ==> Op.WithKey(doc, added) == (Some(added.error), doc)
    ensures added.Ok? ==> Op.WithKey(doc, added) == (None, Doc(doc.header, doc.keys + [added.value.0], doc.secrets))
  {
  }

  // ----- Unlocking -----

  /** The one request of an unlock: every enrolled credential, the vault's salt, the verification it records. */
  function UnlockAsks(doc: Doc): DeriveRequest {
    DeriveRequest(doc.header.rpID, seq(|doc.keys|, i requires 0 <= i < |doc.keys| => doc.keys[i].credentialID),
                  doc.header.salt, UvFor(doc.header.userVerified))
  }

  /** What one entry gives for the secret of its own credential. */
  function EntryGives(h: Header, k: SealedKey, secret: Bytes): Result<Bytes> {
    if |secret| == 0 then Err(NoPrf)
    else if |k.nonce| != 12 then Err(WrongFormat)
    else
      match k.wrapped
      case Box(key, nonce, dataKey, aad) =>
        if key == Hkdf(secret, h.salt) && nonce == k.nonce && aad == KeyAad(h, k.slot, k.credentialID) then Ok(dataKey)
        else Err(AuthenticationFailed)
      case Junk(_) => Err(AuthenticationFailed)
  }

  /** Unlock on any document without duplicate credentials: whichever enrolled key answers is the one that counts. */
  lemma UnlockIsDecided(port: Port, ledger: seq<Call>, doc: Doc)
    requires DistinctCredentials(doc.keys)
    ensures doc.keys == [] ==> Op.Unlock(port, ledger, doc) == (Err(NoKeysEnrolled), ledger)
    ensures doc.keys != [] && !doc.header.entropyVerified ==>
      Op.Unlock(port, ledger, doc) == (Err(NotEntropyVerified), ledger)
    ensures doc.keys != [] && doc.header.entropyVerified ==>
      var answer := port.derive(|ledger|, UnlockAsks(doc));
      var (r, l) := Op.Unlock(port, ledger, doc);
      && l == ledger + [DeriveCall(UnlockAsks(doc), answer)]
      && (answer.Err? ==> r == Err(answer.error))
      && (answer.Ok? ==>
            var a := answer.value;
            && (!a.userPresent ==> r == Err(NotPresent))
            && (a.userPresent && a.userVerified != doc.header.userVerified ==> r == Err(UserVerificationMismatch))
            && (a.userPresent && a.userVerified == doc.header.userVerified ==>
                  && (!CredentialInUse(doc.keys, a.credentialID) ==> r == Err(UnknownCredential))
                  && (forall k :: k in doc.keys && k.credentialID == a.credentialID ==>
                        r == EntryGives(doc.header, k, a.secret))))
  {
    hide KeyAad;
    if doc.keys != [] && doc.header.entropyVerified {
      assert CredentialIDs(doc.keys) == UnlockAsks(doc).credentialIDs;
      var answer := port.derive(|ledger|, UnlockAsks(doc));
      if answer.Ok? {
        FindKeyIsMember(doc.keys, answer.value.credentialID);
        CredentialTaken(doc.keys, answer.value.credentialID);
        forall k | k in doc.keys && k.credentialID == answer.value.credentialID
          ensures FindKey(doc.keys, answer.value.credentialID) == Some(k)
        {
          FindKeyOfMember(doc.keys, k);
        }
      }
    }
  }

  // ----- Reading and writing secrets -----

  /** What one sealed secret gives under a data key. */
  function SecretGives(h: Header, dataKey: Bytes, s: SealedSecret): Result<Bytes> {
    if |dataKey| != 32 then Err(BadKeyLength)
    else if |s.nonce| != 12 then Err(WrongFormat)
    else
      match s.ciphertext
      case Box(key, nonce, plaintext, aad) =>
        if key == Raw(dataKey) && nonce == s.nonce && aad == SecretAad(h, s.name) then Ok(plaintext)
        else Err(AuthenticationFailed)
      case Junk(_) => Err(AuthenticationFailed)
  }

  lemma OpenIsDecided(doc: Doc, key: Option<Bytes>, name: Bytes)
    requires DistinctNames(doc.secrets)
    ensures key.None? ==> Op.Open(doc, key, name) == Err(Locked)
    ensures key.Some? && !NameInUse(doc.secrets, name) ==> Op.Open(doc, key, name) == Err(NoSuchSecret)
    ensures key.Some? ==> forall s :: s in doc.secrets && s.name == name ==>
      Op.Open(doc, key, name) == SecretGives(doc.header, key.value, s)
  {
    hide SecretAad;
    FindSecretIsMember(doc.secrets, name);
    NameTaken(doc.secrets, name);
    forall s | s in doc.secrets && s.name == name ensures FindSecret(doc.secrets, name) == Some(s) {
      FindSecretOfMember(doc.secrets, s);
    }
  }

  lemma {:induction false} FindSecretOfMember(secrets: seq<SealedSecret>, s: SealedSecret)
    requires DistinctNames(secrets) && s in secrets
    ensures FindSecret(secrets, s.name) == Some(s)
  {
    if secrets[0] == s {
    } else {
      assert s in secrets[1..];
      FindSecretOfMember(secrets[1..], s);
    }
  }

  /** Put seals exactly when none of its refusals applies, over the drawn nonce and for exactly that name. */
  lemma PutIsDecided(doc: Doc, key: Option<Bytes>, name: Bytes, secret: Op.Reader, nonce: Option<Nonce>)
    ensures var (err, changed) := Op.Put(doc, key, name, secret, nonce);
      && err == (if key.None? then Some(Locked)
                 else if |name| == 0 then Some(NoName)
                 else if secret == Op.NilReader then Some(NoValue)
                 else if secret == Op.BrokenReader then Some(ReadFailed)
                 else if |key.value| != 32 then Some(BadKeyLength)
                 else if nonce.None? then Some(RandomSourceFailed)
                 else None)
      && (err.Some? ==> changed == doc)
      && (err.None? ==>
            var entry := SealedSecret(name, nonce.value,
                                      Box(Raw(key.value), nonce.value, secret.bytes, SecretAad(doc.header, name)));
            && changed.header == doc.header && changed.keys == doc.keys
            && InPlaceOrAppended(doc.secrets, entry, changed.secrets))
  {
    hide SecretAad;
    var sealing := Op.Sealing(doc, key, name, secret, nonce);
    if sealing.Ok? {
      UpsertIsInPlaceOrAppended(doc.secrets, sealing.value);
    }
  }

  /** The first entry of that name is replaced where it stands; a new name goes to the end. */
  ghost predicate InPlaceOrAppended(secrets: seq<SealedSecret>, entry: SealedSecret, changed: seq<SealedSecret>) {
    if NameInUse(secrets, entry.name) then
      exists i :: 0 <= i < |secrets| && secrets[i].name == entry.name && changed == secrets[i := entry]
        && forall j :: 0 <= j < i ==> secrets[j].name != entry.name
    else changed == secrets + [entry]
  }

  /** The first entry of that name, if any. */
  lemma FirstOfName(secrets: seq<SealedSecret>, name: Bytes) returns (i: nat)
    ensures i <= |secrets| && (forall j :: 0 <= j < i ==> secrets[j].name != name)
    ensures i < |secrets| <==> NameInUse(secrets, name)
    ensures i < |secrets| ==> secrets[i].name == name
  {
    i := 0;
    while i < |secrets| && secrets[i].name != name
      invariant i <= |secrets| && forall j :: 0 <= j < i ==> secrets[j].name != name
    {
      i := i + 1;
    }
  }

  lemma UpsertIsInPlaceOrAppended(secrets: seq<SealedSecret>, entry: SealedSecret)
    ensures InPlaceOrAppended(secrets, entry, Upsert(secrets, entry))
  {
    var i := FirstOfName(secrets, entry.name);
    if i < |secrets| {
      Vaults.UpsertInPlace(secrets, i, entry);
    } else {
      Vaults.UpsertAtEnd(secrets, entry);
    }
  }

  /** Delete succeeds exactly when the session is unlocked and some entry has the name, wherever it stands. */
  lemma DeleteIsDecided(doc: Doc, key: Option<Bytes>, name: Bytes)
    ensures var (err, changed) := Op.Delete(doc, key, name);
      && (err == Some(Locked) <==> key.None?)
      && (err == Some(NoSuchSecret) <==> key.Some? && !NameInUse(doc.secrets, name))
      && (err == None <==> key.Some? && NameInUse(doc.secrets, name))
      && (err.Some? ==> changed == doc)
      && (err.None? ==>
            exists i :: 0 <= i < |doc.secrets| && doc.secrets[i].name == name
              && (forall j :: 0 <= j < i ==> doc.secrets[j].name != name)
              && changed == Doc(doc.header, doc.keys, doc.secrets[..i] + doc.secrets[i + 1..]))
  {
    NameTaken(doc.secrets, name);
    var i := FirstOfName(doc.secrets, name);
    if i < |doc.secrets| {
      Vaults.WithoutNameAt(doc.secrets, i, name);
    }
  }

  // ----- Removing keys -----

  /** Both removals succeed exactly when the session is unlocked and the slot is taken, except that RemoveKey keeps the
      last key. The other entries stay, in order. */
  lemma RemovalIsDecided(doc: Doc, key: Option<Bytes>, slot: int)
    requires DistinctSlots(doc.keys)
    ensures var (err, changed) := Op.ForceRemoveKey(doc, key, slot);
      && (err == Some(Locked) <==> key.None?)
      && (err == Some(NoSuchSlot) <==> key.Some? && !SlotInUse(doc.keys, slot))
      && (err == None <==> key.Some? && SlotInUse(doc.keys, slot))
      && (err.Some? ==> changed == doc)
      && (err.None? ==>
            exists i :: 0 <= i < |doc.keys| && doc.keys[i].slot == slot
              && changed == Doc(doc.header, doc.keys[..i] + doc.keys[i + 1..], doc.secrets))
    ensures Op.RemoveKey(doc, key, slot)
         == if key.Some? && |doc.keys| == 1 && doc.keys[0].slot == slot then (Some(LastKey), doc)
            else Op.ForceRemoveKey(doc, key, slot)
  {
    SlotTaken(doc.keys, slot);
    if i :| 0 <= i < |doc.keys| && doc.keys[i].slot == slot {
      WithoutSlotAt(doc.keys, i, slot);
    }
    if |doc.keys| == 1 {
      assert doc.keys[0] in doc.keys;
    }
  }

  lemma {:induction false} WithoutSlotAt(keys: seq<SealedKey>, i: nat, slot: int)
    requires DistinctSlots(keys) && i < |keys| && keys[i].slot == slot
    ensures WithoutSlot(keys, slot) == keys[..i] + keys[i + 1..]
  {
    var rest := keys[1..];
    if i == 0 {
      assert forall k :: k in rest ==> k.slot != slot;
      WithoutFreeSlot(rest, slot);
    } else {
      WithoutSlotAt(rest, i - 1, slot);
      assert keys[..i] == [keys[0]] + rest[..i - 1] && keys[i + 1..] == rest[i..];
    }
  }

  // ----- Reopening -----

  /** What sealed data has to be: this format, a 32-byte salt, an RP ID, and no entry that is nameless or ambiguous. */
  ghost predicate IsAccepted(data: Sealed) {
    && data.Decoded?
    && var (h, keys, secrets) := (data.doc.header, data.doc.keys, data.doc.secrets);
       && h.format == 1 && |h.salt| == 32 && |h.rpID| > 0
       && (forall i :: 0 <= i < |keys| ==> keys[i].slot >= 0 && |keys[i].credentialID| > 0)
       && (forall i, j :: 0 <= i < j < |keys| ==>
             keys[i].slot != keys[j].slot && keys[i].credentialID != keys[j].credentialID)
       && (forall i :: 0 <= i < |secrets| ==> |secrets[i].name| > 0)
       && (forall i, j :: 0 <= i < j < |secrets| ==> secrets[i].name != secrets[j].name)
  }

  lemma ParseIsDecided(data: Sealed)
    ensures Parse(data) == if IsAccepted(data) then Ok(data.doc) else Err(WrongFormat)
  {
    if data.Decoded? {
      var (keys, secrets) := (data.doc.keys, data.doc.secrets);
      assert forall i :: 0 <= i < |keys| ==> keys[i] in keys;
      assert forall i :: 0 <= i < |secrets| ==> secrets[i] in secrets;
    }
  }

  /** What parses is refused exactly for a non-empty RP ID that is not the document's. */
  lemma ConflictIsDecided(opts: Op.Options, h: Header)
    ensures Op.Conflicts(opts, h) <==> |opts.rpID| > 0 && opts.rpID != h.rpID
  {
  }

  // ----- Bytes on the wire -----

  const KNOWN_HEADER := Header(1, [0x61, 0x62], true, false, [0x5A, 0x5B])

  const KNOWN_FRONT: Bytes :=
    [0x74, 0x6F, 0x75, 0x63, 0x68, 0x76, 0x61, 0x75, 0x6C, 0x74, 0x2F, 0x76, 0x31, 0x2F, 0x61, 0x61, 0x64,
     0, 0, 0, 1, 0, 0, 0, 2, 0x61, 0x62, 1, 0, 0, 0, 0, 2, 0x5A, 0x5B]

  /** One key AAD and one secret AAD, byte by byte. */
  lemma KnownAads()
    ensures KeyAad(KNOWN_HEADER, 0x0102_0304, [7, 8, 9]) == KNOWN_FRONT + [1, 1, 2, 3, 4, 0, 0, 0, 3, 7, 8, 9]
    ensures SecretAad(KNOWN_HEADER, [0x78]) == KNOWN_FRONT + [2, 0, 0, 0, 1, 0x78]
  {
    hide U32, HeaderAad;
    KnownU32s();
    KnownFront();
  }

  lemma KnownFront()
    ensures HeaderAad(KNOWN_HEADER) == KNOWN_FRONT
  {
    hide U32;
    KnownU32s();
  }

  lemma KnownU32s()
    ensures U32(1) == [0, 0, 0, 1] && U32(2) == [0, 0, 0, 2] && U32(3) == [0, 0, 0, 3]
    ensures U32(0x0102_0304) == [1, 2, 3, 4]
  {
  }
}
