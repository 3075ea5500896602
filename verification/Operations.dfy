/** What each operation of the lifecycle computes: the error it returns, the document it leaves, and the
    gestures it spends. Randomness is a parameter: None where the random source fails. */
module Operations {
  import opened Common
  import opened Aad
  import opened Document
  import opened Authenticators
  import opened Entropy

  // The bytes of "primary".
  const DEFAULT_LABEL: Bytes := [0x70, 0x72, 0x69, 0x6D, 0x61, 0x72, 0x79]
  const FIRST_SLOT := 0

  /** roots stands for the trust decision the anchors lead to: None trusts the credential. */
  datatype Options = Options(rpID: Bytes, rpName: Bytes, roots: EnrollResult -> Option<Error>, keyLabel: Bytes) {
    function RpName(): Bytes {
      if rpName == [] then rpID else rpName
    }
  }

  function LabelOrDefault(keyLabel: Bytes): Bytes {
    if keyLabel == [] then DEFAULT_LABEL else keyLabel
  }

  function UvRequirement(h: Header): UserVerification {
    if h.userVerified then UVRequired else UVDiscouraged
  }

  /** What an enrollment draws from the random source. */
  datatype Draws = Draws(userID: Option<UserID>, nonce: Option<Nonce>)

  /** The io.Reader handed to Put. */
  datatype Reader = NilReader | BrokenReader | Reads(bytes: Bytes)

  /** A credential that was created, found genuine, and derived from with a touch. */
  datatype Enrolled = Enrolled(cred: EnrollResult, derived: DeriveResult)

  function EnrollAndDerive(port: Port, ledger: seq<Call>, rpID: Bytes, salt: Bytes, opts: Options,
                           uv: UserVerification, userID: Option<UserID>): (Result<Enrolled>, seq<Call>)
  {
    if userID.None? then (Err(RandomSourceFailed), ledger)
    else
      var creation := EnrollRequest(rpID, opts.RpName(), userID.value, rpID, uv);
      var created := port.enroll(|ledger|, creation);
      var l1 := ledger + [EnrollCall(creation, created)];
      match created
      case Err(e) => (Err(e), l1)
      case Ok(cred) =>
        if cred.residentKey then (Err(ResidentKey), l1)
        else if cred.credentialID == [] then (Err(NoCredentialID), l1)
        else if opts.roots(cred).Some? then (Err(opts.roots(cred).value), l1)
        else
          var request := DeriveRequest(rpID, [cred.credentialID], salt, uv);
          var answer := port.derive(|l1|, request);
          var l2 := l1 + [DeriveCall(request, answer)];
          match answer
          case Err(e) => (Err(e), l2)
          case Ok(derived) =>
            if !derived.userPresent then (Err(NotPresent), l2)
            else if derived.secret == [] then (Err(NoPrf), l2)
            else (Ok(Enrolled(cred, derived)), l2)
  }

  /** A new vault: its document, its data key, and the derivation its first entry was wrapped under. */
  datatype Creation = Creation(doc: Doc, dataKey: DataKey, derived: DeriveResult)

  function Create(port: Port, ledger: seq<Call>, opts: Options, salt: Option<Salt>, draws: Draws,
                  dataKey: Option<DataKey>): (Result<Creation>, seq<Call>)
  {
    if opts.rpID == [] then (Err(NoRpID), ledger)
    else if salt.None? then (Err(RandomSourceFailed), ledger)
    else
      var (enrolled, l1) := EnrollAndDerive(port, ledger, opts.rpID, salt.value, opts, UVDiscouraged, draws.userID);
      match enrolled
      case Err(e) => (Err(e), l1)
      case Ok(en) =>
        var (refusal, l2) := Gate(port, l1, opts.rpID, en.cred.credentialID, salt.value, en.derived.secret,
                                  UVDiscouraged, en.derived.userVerified);
        if refusal.Some? then (Err(refusal.value), l2)
        else if dataKey.None? then (Err(RandomSourceFailed), l2)
        else
          var h := Header(FORMAT_VERSION, opts.rpID, en.derived.userVerified, true, salt.value);
          match WrapDataKey(h, dataKey.value, en.cred.credentialID, en.derived.secret, FIRST_SLOT,
                            LabelOrDefault(opts.keyLabel), draws.nonce)
          case Err(e) => (Err(e), l2)
          case Ok(entry) => (Ok(Creation(Doc(h, [entry], []), dataKey.value, en.derived)), l2)
  }

  /** A non-empty RP ID that is not the document's is an error, not a preference. */
  predicate Conflicts(opts: Options, h: Header) {
    opts.rpID != [] && opts.rpID != h.rpID
  }

  function UnlockRequest(doc: Doc): DeriveRequest {
    DeriveRequest(doc.header.rpID, CredentialIDs(doc.keys), doc.header.salt, UvRequirement(doc.header))
  }

  /** What the answer to the unlock request is worth. */
  function DataKeyFrom(doc: Doc, answer: Result<DeriveResult>): Result<Bytes> {
    match answer
    case Err(e) => Err(e)
    case Ok(derived) =>
      if !derived.userPresent then Err(NotPresent)
      else if derived.userVerified != doc.header.userVerified then Err(UserVerificationMismatch)
      else
        match FindKey(doc.keys, derived.credentialID)
        case None => Err(UnknownCredential)
        case Some(entry) => UnwrapDataKey(doc.header, entry, derived.secret)
  }

  function Unlock(port: Port, ledger: seq<Call>, doc: Doc): (Result<Bytes>, seq<Call>) {
    if doc.keys == [] then (Err(NoKeysEnrolled), ledger)
    else if !doc.header.entropyVerified then (Err(NotEntropyVerified), ledger)
    else
      var answer := port.derive(|ledger|, UnlockRequest(doc));
      (DataKeyFrom(doc, answer), ledger + [DeriveCall(UnlockRequest(doc), answer)])
  }

  /** key is None once the session is locked. */
  function Open(doc: Doc, key: Option<Bytes>, name: Bytes): Result<Bytes> {
    if key.None? then Err(Locked)
    else
      match FindSecret(doc.secrets, name)
      case None => Err(NoSuchSecret)
      case Some(entry) => OpenSecret(doc.header, key.value, entry)
  }

  /** The entry Put seals, or the reason it seals none. */
  function Sealing(doc: Doc, key: Option<Bytes>, name: Bytes, secret: Reader, nonce: Option<Nonce>): Result<SealedSecret> {
    if key.None? then Err(Locked)
    else if name == [] then Err(NoName)
    else if secret.NilReader? then Err(NoValue)
    else if secret.BrokenReader? then Err(ReadFailed)
    else SealSecret(doc.header, key.value, name, secret.bytes, nonce)
  }

  function Put(doc: Doc, key: Option<Bytes>, name: Bytes, secret: Reader, nonce: Option<Nonce>): (Option<Error>, Doc) {
    match Sealing(doc, key, name, secret, nonce)
    case Err(e) => (Some(e), doc)
    case Ok(entry) => (None, doc.(secrets := Upsert(doc.secrets, entry)))
  }

  function Delete(doc: Doc, key: Option<Bytes>, name: Bytes): (Option<Error>, Doc) {
    if key.None? then (Some(Locked), doc)
    else if name !in NameSet(doc.secrets) then (Some(NoSuchSecret), doc)
    else (None, doc.(secrets := WithoutName(doc.secrets, name)))
  }

  /** The entry EnrollKey adds, with the derivation it is wrapped under, or the reason it adds none. */
  function Enrolling(port: Port, ledger: seq<Call>, doc: Doc, key: Option<Bytes>, opts: Options, slot: int,
                     keyLabel: Bytes, draws: Draws): (Result<(SealedKey, DeriveResult)>, seq<Call>)
  {
    if key.None? then (Err(Locked), ledger)
    else if slot < 0 then (Err(NegativeSlot), ledger)
    else if slot in SlotSet(doc.keys) then (Err(SlotOccupied), ledger)
    else
      var h := doc.header;
      var uv := UvRequirement(h);
      var (enrolled, l1) := EnrollAndDerive(port, ledger, h.rpID, h.salt, opts, uv, draws.userID);
      match enrolled
      case Err(e) => (Err(e), l1)
      case Ok(en) =>
        if en.cred.credentialID in CredentialSet(doc.keys) then (Err(AlreadyEnrolled), l1)
        else if en.derived.userVerified != h.userVerified then (Err(UserVerificationMismatch), l1)
        else
          var (refusal, l2) := Gate(port, l1, h.rpID, en.cred.credentialID, h.salt, en.derived.secret,
                                    uv, en.derived.userVerified);
          if refusal.Some? then (Err(refusal.value), l2)
          else
            match WrapDataKey(h, key.value, en.cred.credentialID, en.derived.secret, slot,
                              LabelOrDefault(keyLabel), draws.nonce)
            case Err(e) => (Err(e), l2)
            case Ok(entry) => (Ok((entry, en.derived)), l2)
  }

  function WithKey(doc: Doc, added: Result<(SealedKey, DeriveResult)>): (Option<Error>, Doc) {
    match added
    case Err(e) => (Some(e), doc)
    case Ok((entry, _)) => (None, doc.(keys := doc.keys + [entry]))
  }

  function ForceRemoveKey(doc: Doc, key: Option<Bytes>, slot: int): (Option<Error>, Doc) {
    if key.None? then (Some(Locked), doc)
    else if slot !in SlotSet(doc.keys) then (Some(NoSuchSlot), doc)
    else (None, doc.(keys := WithoutSlot(doc.keys, slot)))
  }

  function RemoveKey(doc: Doc, key: Option<Bytes>, slot: int): (Option<Error>, Doc) {
    if key.Some? && slot in SlotSet(doc.keys) && |doc.keys| == 1 then (Some(LastKey), doc)
    else ForceRemoveKey(doc, key, slot)
  }
}
