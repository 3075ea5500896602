/** Storage in the hands of someone else: between any two honest steps of a run, documents of any making are planted
    among the sealed copies, and the run opens, unlocks, reads and changes them like its own. */
module Tampering {
  import opened Common
  import opened Encoding
  import opened Aad
  import opened Aead
  import opened Document
  import opened Authenticators
  import opened Wire
  import opened Runs
  import opened Refinement
  import Op = Operations

  // ----- Runs with planted documents -----

  datatype Deed = Honest(action: Action) | Plant(doc: Doc)

  /** What the library itself made: a vault, a wrapped key, a sealed secret. */
  datatype Fact =
    | VaultMade(header: Header, dataKey: Bytes)
    | KeyMade(header: Header, dataKey: Bytes, key: SealedKey)
    | SecretMade(header: Header, dataKey: Bytes, name: Bytes, plaintext: Bytes, secret: SealedSecret)

  datatype Scene = Scene(world: World, facts: set<Fact>)

  const EMPTY_SCENE := Scene(START, {})

  /** What one honest step makes, by the header of the document at hand and the key of the session that acts. */
  function FactsOf(w: World, a: Action, e: Event): set<Fact> {
    if e.Created? then {VaultMade(e.header, e.dataKey), KeyMade(e.header, e.dataKey, e.firstEntry)}
    else if a.Use? && HasSession(w, a.session) && w.sessions[a.session].key.Some? then
      var header, key := w.docs[w.sessions[a.session].doc].header, w.sessions[a.session].key.value;
      match e
      case Stored(_, name, value, entry) => {SecretMade(header, key, name, value, entry)}
      case KeyAdded(_, entry) => {KeyMade(header, key, entry)}
      case _ => {}
    else {}
  }

  ghost function Play(port: Port, sc: Scene, deed: Deed): Scene {
    match deed
    case Plant(doc) => sc.(world := sc.world.(blobs := sc.world.blobs + [Decoded(doc)]))
    case Honest(a) =>
      var (w, e) := Step(port, sc.world, a);
      Scene(w, sc.facts + FactsOf(sc.world, a, e))
  }

  // ----- What cannot be planted -----

  /** Keys that never leave the library or the device: the data keys, and what is derived from device outputs. */
  ghost predicate Secret(device: Device, facts: set<Fact>, key: AeadKey) {
    match key
    case Raw(bytes) => exists f :: f in facts && f.VaultMade? && f.dataKey == bytes
    case Hkdf(prf, _) => exists c, uv, salt :: prf == device(c, uv, salt)
  }

  function BoxOf(f: Fact): Option<Box> {
    match f
    case VaultMade(_, _) => None
    case KeyMade(_, _, key) => Some(key.wrapped)
    case SecretMade(_, _, _, _, secret) => Some(secret.ciphertext)
  }

  /** A box under such a key can only be one that the library made. */
  ghost predicate Unforged(device: Device, facts: set<Fact>, box: Box) {
    box.Box? && Secret(device, facts, box.key) ==> exists f :: f in facts && BoxOf(f) == Some(box)
  }

  ghost predicate AllUnforged(device: Device, facts: set<Fact>, doc: Doc) {
    && (forall k :: k in doc.keys ==> Unforged(device, facts, k.wrapped))
    && (forall s :: s in doc.secrets ==> Unforged(device, facts, s.ciphertext))
  }

  predicate UsesKey(doc: Doc, key: Bytes) {
    || (exists i :: 0 <= i < |doc.keys| && doc.keys[i].wrapped.Box? && doc.keys[i].wrapped.key == Raw(key))
    || (exists i :: 0 <= i < |doc.secrets| && doc.secrets[i].ciphertext.Box? && doc.secrets[i].ciphertext.key == Raw(key))
  }

  /** A data key is drawn that no document or copy around has a box under: nobody guessed it beforehand. */
  ghost predicate NotGuessed(w: World, key: Bytes) {
    && (forall d :: 0 <= d < |w.docs| ==> !UsesKey(w.docs[d], key))
    && (forall b :: 0 <= b < |w.blobs| && w.blobs[b].Decoded? ==> !UsesKey(w.blobs[b].doc, key))
  }

  ghost predicate Fits(h: Header) {
    |h.rpID| < TWO32 && |h.salt| < TWO32
  }

  ghost predicate DocFits(doc: Doc) {
    && Fits(doc.header)
    && (forall k :: k in doc.keys ==> |k.credentialID| < TWO32)
    && (forall s :: s in doc.secrets ==> |s.name| < TWO32)
  }

  ghost predicate FactFits(f: Fact) {
    Fits(f.header) && (f.KeyMade? ==> |f.key.credentialID| < TWO32) && (f.SecretMade? ==> |f.name| < TWO32)
  }

  /** Every field around is shorter than 2^32 bytes. */
  ghost predicate SceneFits(sc: Scene) {
    && (forall d :: 0 <= d < |sc.world.docs| ==> DocFits(sc.world.docs[d]))
    && (forall f :: f in sc.facts ==> FactFits(f))
  }

  /** What may happen next: anything but a forgery or a lucky guess. */
  ghost predicate Possible(device: Device, sc: Scene, deed: Deed) {
    && SceneFits(sc)
    && (deed.Plant? ==> AllUnforged(device, sc.facts, deed.doc))
    && (deed.Honest? && deed.action.Create? && deed.action.dataKey.Some? ==>
          NotGuessed(sc.world, deed.action.dataKey.value))
  }

  ghost predicate Plays(port: Port, device: Device, sc: Scene, deed: Deed, next: Scene) {
    Possible(device, sc, deed) && next == Play(port, sc, deed)
  }

  /** The scenes of a run in which the storage is tampered with at will. */
  ghost predicate IsPlay(port: Port, device: Device, scenes: seq<Scene>, deeds: seq<Deed>) {
    && |scenes| == |deeds| + 1 && scenes[0] == EMPTY_SCENE && SceneFits(scenes[|deeds|])
    && forall i {:trigger deeds[i]} :: 0 <= i < |deeds| ==> Plays(port, device, scenes[i], deeds[i], scenes[i + 1])
  }

  // ----- The invariant -----

  ghost predicate FactHolds(facts: set<Fact>, f: Fact) {
    && VaultMade(f.header, f.dataKey) in facts
    && HeaderWellFormed(f.header) && |f.dataKey| == DATA_KEY_LEN
    && (f.KeyMade? ==> KeyHolds(Origin(f.header, f.dataKey), f.key))
    && (f.SecretMade? ==> f.secret.name == f.name && SecretHolds(Origin(f.header, f.dataKey), f.secret, f.plaintext))
  }

  ghost predicate FactsHold(facts: set<Fact>) {
    forall f :: f in facts ==> FactHolds(facts, f)
  }

  ghost predicate DocHolds(device: Device, facts: set<Fact>, doc: Doc) {
    HeaderWellFormed(doc.header) && AllUnforged(device, facts, doc)
  }

  ghost predicate DocsHold(device: Device, facts: set<Fact>, docs: seq<Doc>) {
    forall d :: 0 <= d < |docs| ==> DocHolds(device, facts, docs[d])
  }

  ghost predicate CopiesHold(device: Device, facts: set<Fact>, blobs: seq<Wire.Sealed>) {
    forall b :: 0 <= b < |blobs| && blobs[b].Decoded? ==> AllUnforged(device, facts, blobs[b].doc)
  }

  /** A session only ever has the data key of a vault that really has its document's header. */
  ghost predicate SessionHolds(facts: set<Fact>, docs: seq<Doc>, s: Sess) {
    s.doc < |docs| && (s.key.Some? ==> VaultMade(docs[s.doc].header, s.key.value) in facts)
  }

  ghost predicate SessionsHold(facts: set<Fact>, docs: seq<Doc>, sessions: seq<Sess>) {
    forall s :: 0 <= s < |sessions| ==> SessionHolds(facts, docs, sessions[s])
  }

  ghost predicate SceneHolds(device: Device, sc: Scene) {
    && FactsHold(sc.facts)
    && DocsHold(device, sc.facts, sc.world.docs)
    && CopiesHold(device, sc.facts, sc.world.blobs)
    && SessionsHold(sc.facts, sc.world.docs, sc.world.sessions)
    && (forall v :: 0 <= v < |sc.world.vaults| ==> sc.world.vaults[v].doc < |sc.world.docs|)
  }

  // ----- More facts -----

  ghost predicate NoNewVault(facts: set<Fact>, more: set<Fact>) {
    facts <= more && forall f :: f in more && f.VaultMade? ==> f in facts
  }

  lemma UnforgedOn(device: Device, facts: set<Fact>, more: set<Fact>, doc: Doc)
    requires AllUnforged(device, facts, doc) && NoNewVault(facts, more)
    ensures AllUnforged(device, more, doc)
  {
    forall box | Unforged(device, facts, box) ensures Unforged(device, more, box) {
      if box.Box? && Secret(device, more, box.key) {
        assert Secret(device, facts, box.key);
      }
    }
  }

  /** A new vault's key was not guessed, so no box around becomes a forgery. */
  lemma UnforgedOnCreate(device: Device, facts: set<Fact>, more: set<Fact>, doc: Doc, header: Header, dataKey: Bytes)
    requires AllUnforged(device, facts, doc) && facts <= more && !UsesKey(doc, dataKey)
    requires forall f :: f in more && f.VaultMade? ==> f in facts || f == VaultMade(header, dataKey)
    ensures AllUnforged(device, more, doc)
  {
    forall box | Unforged(device, facts, box) && (box.Box? ==> box.key != Raw(dataKey))
      ensures Unforged(device, more, box)
    {
      if box.Box? && Secret(device, more, box.key) {
        assert Secret(device, facts, box.key);
      }
    }
    forall k | k in doc.keys ensures k.wrapped.Box? ==> k.wrapped.key != Raw(dataKey) {
      var i :| 0 <= i < |doc.keys| && doc.keys[i] == k;
    }
    forall s | s in doc.secrets ensures s.ciphertext.Box? ==> s.ciphertext.key != Raw(dataKey) {
      var i :| 0 <= i < |doc.secrets| && doc.secrets[i] == s;
    }
  }

  lemma FactsHoldWith(facts: set<Fact>, f: Fact)
    requires FactsHold(facts) && FactHolds(facts + {f}, f)
    ensures FactsHold(facts + {f})
  {
  }

  lemma CopyUnforged(device: Device, facts: set<Fact>, doc: Doc)
    requires AllUnforged(device, facts, doc)
    ensures AllUnforged(device, facts, CoerceDoc(doc))
  {
    hide Unforged;
    var r := CoerceDoc(doc);
    forall k | k in r.keys ensures Unforged(device, facts, k.wrapped) {
      var i :| 0 <= i < |r.keys| && r.keys[i] == k;
      assert doc.keys[i] in doc.keys;
    }
    forall s | s in r.secrets ensures Unforged(device, facts, s.ciphertext) {
      var i :| 0 <= i < |r.secrets| && r.secrets[i] == s;
      assert doc.secrets[i] in doc.secrets;
    }
  }

  // ----- What an unlock and a read prove -----

  /** An honest answer that unlocks a document goes through an entry the library wrapped, for a vault with this very
      header, and yields that vault's data key; the entry is at its own credential and slot, modulo 2^32. */
  lemma UnlockFindsFact(device: Device, facts: set<Fact>, doc: Doc, answer: DeriveResult) returns (k: SealedKey, f: Fact)
    requires FactsHold(facts) && DocHolds(device, facts, doc) && DocFits(doc)
    requires forall f :: f in facts ==> FactFits(f)
    requires answer.secret == [] || answer.secret == device(answer.credentialID, answer.userVerified, doc.header.salt)
    requires Op.DataKeyFrom(doc, Ok(answer)).Ok?
    ensures k in doc.keys && k.credentialID == answer.credentialID
    ensures f in facts && f.KeyMade? && f.header == doc.header && f.key.wrapped == k.wrapped
    ensures f.key.credentialID == k.credentialID && f.key.slot % TWO32 == k.slot % TWO32
    ensures Op.DataKeyFrom(doc, Ok(answer)) == Ok(f.dataKey)
  {
    FindKeyIsMember(doc.keys, answer.credentialID);
    k := FindKey(doc.keys, answer.credentialID).value;
    assert k.wrapped.key == Hkdf(answer.secret, doc.header.salt);
    assert Secret(device, facts, k.wrapped.key);
    f :| f in facts && BoxOf(f) == Some(k.wrapped);
    assert FactHolds(facts, f);
    KeyAadInjective(doc.header, k.slot, k.credentialID, f.header, f.key.slot, f.key.credentialID);
  }

  /** What opens under a vault's data key was sealed by the library, for that vault and under that name. */
  lemma ReadFindsFact(device: Device, facts: set<Fact>, doc: Doc, dataKey: Bytes, name: Bytes) returns (f: Fact)
    requires FactsHold(facts) && DocHolds(device, facts, doc) && DocFits(doc)
    requires forall f :: f in facts ==> FactFits(f)
    requires VaultMade(doc.header, dataKey) in facts && Op.Open(doc, Some(dataKey), name).Ok?
    ensures f in facts && f.SecretMade? && f.header == doc.header && f.dataKey == dataKey && f.name == name
    ensures Op.Open(doc, Some(dataKey), name) == Ok(f.plaintext)
  {
    FindSecretIsMember(doc.secrets, name);
    var s := FindSecret(doc.secrets, name).value;
    assert Secret(device, facts, s.ciphertext.key);
    f :| f in facts && BoxOf(f) == Some(s.ciphertext);
    assert FactHolds(facts, f);
    SecretAadInjective(doc.header, s.name, f.header, f.name);
  }

  // ----- Every deed keeps the invariant -----

  /** One document changes, and facts other than new vaults come in. */
  lemma OneDocKeeps(device: Device, sc: Scene, d: nat, doc: Doc, next: Scene)
    requires SceneHolds(device, sc) && d < |sc.world.docs|
    requires doc.header == sc.world.docs[d].header && AllUnforged(device, next.facts, doc)
    requires NoNewVault(sc.facts, next.facts) && FactsHold(next.facts)
    requires next.world == WithDoc(sc.world, d, doc).(ledger := next.world.ledger)
    ensures SceneHolds(device, next)
  {
    hide AllUnforged, FactHolds, HeaderWellFormed;
    forall e | 0 <= e < |sc.world.docs| ensures DocHolds(device, next.facts, next.world.docs[e]) {
      assert DocHolds(device, sc.facts, sc.world.docs[e]);
      UnforgedOn(device, sc.facts, next.facts, sc.world.docs[e]);
      assert DocHolds(device, sc.facts, sc.world.docs[d]);
    }
    forall b | 0 <= b < |sc.world.blobs| && sc.world.blobs[b].Decoded?
      ensures AllUnforged(device, next.facts, sc.world.blobs[b].doc)
    {
      UnforgedOn(device, sc.facts, next.facts, sc.world.blobs[b].doc);
    }
    forall s | 0 <= s < |sc.world.sessions| ensures SessionHolds(next.facts, next.world.docs, sc.world.sessions[s]) {
      assert SessionHolds(sc.facts, sc.world.docs, sc.world.sessions[s]);
    }
  }

  lemma PutKeeps(port: Port, device: Device, sc: Scene, s: nat, act: Act)
    requires SceneHolds(device, sc) && HasSession(sc.world, s) && act.Put?
    ensures SceneHolds(device, Play(port, sc, Honest(Use(s, act))))
  {
    hide FactsHold, DocsHold, CopiesHold, Op.Sealing, SecretHolds;
    var w := sc.world;
    var d, key := w.sessions[s].doc, w.sessions[s].key;
    var doc := w.docs[d];
    var sealing := Op.Sealing(doc, key, act.name, act.secret, act.nonce);
    assert SessionHolds(sc.facts, w.docs, w.sessions[s]);
    if sealing.Err? {
      assert WithDoc(w, d, doc) == w;
      assert sc.facts + {} == sc.facts;
    } else {
      SealingHasKey(doc, key, act.name, act.secret, act.nonce);
      PutUnforged(device, sc.facts, w.docs, d, key.value, act, sealing.value);
      OneDocKeeps(device, sc, d, doc.(secrets := Upsert(doc.secrets, sealing.value)),
                  Play(port, sc, Honest(Use(s, act))));
    }
  }

  lemma SealingHasKey(doc: Doc, key: Option<Bytes>, name: Bytes, secret: Op.Reader, nonce: Option<Nonce>)
    requires Op.Sealing(doc, key, name, secret, nonce).Ok?
    ensures key.Some? && secret.Reads?
  {
  }

  lemma PutUnforged(device: Device, facts: set<Fact>, docs: seq<Doc>, d: nat, key: Bytes, act: Act, entry: SealedSecret)
    requires FactsHold(facts) && DocsHold(device, facts, docs) && d < |docs| && act.Put? && act.secret.Reads?
    requires VaultMade(docs[d].header, key) in facts
    requires Op.Sealing(docs[d], Some(key), act.name, act.secret, act.nonce) == Ok(entry)
    ensures var more := facts + {SecretMade(docs[d].header, key, act.name, act.secret.bytes, entry)};
      && FactsHold(more) && NoNewVault(facts, more)
      && AllUnforged(device, more, docs[d].(secrets := Upsert(docs[d].secrets, entry)))
  {
    hide Unforged;
    var doc, f := docs[d], SecretMade(docs[d].header, key, act.name, act.secret.bytes, entry);
    var more := facts + {f};
    SealingFacts(Origin(doc.header, key), doc, Some(key), act.name, act.secret, act.nonce);
    assert FactHolds(facts, VaultMade(doc.header, key));
    FactsHoldWith(facts, f);
    assert DocHolds(device, facts, doc);
    UnforgedOn(device, facts, more, doc);
    MadeIsUnforged(device, more, f);
    UpsertKeepsOrIs(doc.secrets, entry);
  }

  lemma MadeIsUnforged(device: Device, facts: set<Fact>, f: Fact)
    requires f in facts && BoxOf(f).Some?
    ensures Unforged(device, facts, BoxOf(f).value)
  {
  }

  lemma {:induction false} UpsertKeepsOrIs(secrets: seq<SealedSecret>, entry: SealedSecret)
    ensures forall s :: s in Upsert(secrets, entry) ==> s == entry || s in secrets
  {
    if secrets == [] {
    } else {
      UpsertKeepsOrIs(secrets[1..], entry);
      assert secrets == [secrets[0]] + secrets[1..];
    }
  }

  lemma {:induction false} WithoutNameKeeps(secrets: seq<SealedSecret>, name: Bytes)
    ensures forall s :: s in WithoutName(secrets, name) ==> s in secrets
  {
    if secrets == [] {
    } else {
      WithoutNameKeeps(secrets[1..], name);
      assert secrets == [secrets[0]] + secrets[1..];
    }
  }

  lemma EnrollKeyKeeps(port: Port, device: Device, sc: Scene, s: nat, act: Act)
    requires SceneHolds(device, sc) && HasSession(sc.world, s) && act.EnrollKey?
    ensures SceneHolds(device, Play(port, sc, Honest(Use(s, act))))
  {
    hide FactsHold, DocsHold, CopiesHold, Op.Enrolling, KeyHolds;
    var w := sc.world;
    var session := w.sessions[s];
    var doc := w.docs[session.doc];
    var added := Op.Enrolling(port, w.ledger, doc, session.key, session.opts, act.slot, act.keyLabel, act.draws).0;
    assert SessionHolds(sc.facts, w.docs, session);
    var next := Play(port, sc, Honest(Use(s, act)));
    if added.Err? {
      assert sc.facts + {} == sc.facts;
      DocUnforged(device, sc.facts, w.docs, session.doc);
      OneDocKeeps(device, sc, session.doc, doc, next);
    } else {
      EnrollingFacts(port, w.ledger, doc, session.key, session.opts, act.slot, act.keyLabel, act.draws);
      EnrollUnforged(device, sc.facts, w.docs, session.doc, session.key.value, added.value.0);
      OneDocKeeps(device, sc, session.doc, doc.(keys := doc.keys + [added.value.0]), next);
    }
  }

  lemma DocUnforged(device: Device, facts: set<Fact>, docs: seq<Doc>, d: nat)
    requires DocsHold(device, facts, docs) && d < |docs|
    ensures AllUnforged(device, facts, docs[d])
  {
    assert DocHolds(device, facts, docs[d]);
  }

  lemma EnrollUnforged(device: Device, facts: set<Fact>, docs: seq<Doc>, d: nat, key: Bytes, entry: SealedKey)
    requires FactsHold(facts) && DocsHold(device, facts, docs) && d < |docs|
    requires VaultMade(docs[d].header, key) in facts && KeyHolds(Origin(docs[d].header, key), entry)
    ensures var more := facts + {KeyMade(docs[d].header, key, entry)};
      && FactsHold(more) && NoNewVault(facts, more)
      && AllUnforged(device, more, docs[d].(keys := docs[d].keys + [entry]))
  {
    hide Unforged;
    var doc, f := docs[d], KeyMade(docs[d].header, key, entry);
    assert FactHolds(facts, VaultMade(doc.header, key));
    FactsHoldWith(facts, f);
    DocUnforged(device, facts, docs, d);
    UnforgedOn(device, facts, facts + {f}, doc);
    MadeIsUnforged(device, facts + {f}, f);
  }

  lemma DeleteKeeps(port: Port, device: Device, sc: Scene, s: nat, act: Act)
    requires SceneHolds(device, sc) && HasSession(sc.world, s) && act.Delete?
    ensures SceneHolds(device, Play(port, sc, Honest(Use(s, act))))
  {
    hide FactsHold, DocsHold, CopiesHold, SessionsHold, Unforged;
    var d, key := sc.world.sessions[s].doc, sc.world.sessions[s].key;
    DocUnforged(device, sc.facts, sc.world.docs, d);
    WithoutNameKeeps(sc.world.docs[d].secrets, act.name);
    assert sc.facts + {} == sc.facts;
    OneDocKeeps(device, sc, d, Op.Delete(sc.world.docs[d], key, act.name).1, Play(port, sc, Honest(Use(s, act))));
  }

  lemma RemovalKeeps(port: Port, device: Device, sc: Scene, s: nat, act: Act)
    requires SceneHolds(device, sc) && HasSession(sc.world, s) && (act.RemoveKey? || act.ForceRemoveKey?)
    ensures SceneHolds(device, Play(port, sc, Honest(Use(s, act))))
  {
    hide FactsHold, DocsHold, CopiesHold, SessionsHold, Unforged;
    var d, key := sc.world.sessions[s].doc, sc.world.sessions[s].key;
    DocUnforged(device, sc.facts, sc.world.docs, d);
    WithoutSlotMembers(sc.world.docs[d].keys, act.slot);
    assert sc.facts + {} == sc.facts;
    OneDocKeeps(device, sc, d, Removal(sc.world.docs[d], key, act).1, Play(port, sc, Honest(Use(s, act))));
  }

  lemma SealKeeps(port: Port, device: Device, sc: Scene, s: nat)
    requires SceneHolds(device, sc) && HasSession(sc.world, s)
    ensures SceneHolds(device, Play(port, sc, Honest(Use(s, Seal))))
  {
    hide FactsHold, DocsHold, SessionsHold, AllUnforged;
    var d := sc.world.sessions[s].doc;
    DocUnforged(device, sc.facts, sc.world.docs, d);
    CopyUnforged(device, sc.facts, sc.world.docs[d]);
    assert sc.facts + {} == sc.facts;
  }

  lemma QuietKeeps(port: Port, device: Device, sc: Scene, s: nat, act: Act)
    requires SceneHolds(device, sc) && HasSession(sc.world, s) && (act.Open? || act.Lock?)
    ensures SceneHolds(device, Play(port, sc, Honest(Use(s, act))))
  {
    hide FactsHold, DocsHold, CopiesHold;
    assert sc.facts + {} == sc.facts;
  }

  lemma UseKeeps(port: Port, device: Device, sc: Scene, s: nat, act: Act)
    requires SceneHolds(device, sc) && HasSession(sc.world, s)
    ensures SceneHolds(device, Play(port, sc, Honest(Use(s, act))))
  {
    hide SceneHolds, Play;
    match act
    case Open(_) => QuietKeeps(port, device, sc, s, act);
    case Put(_, _, _) => PutKeeps(port, device, sc, s, act);
    case Delete(_) => DeleteKeeps(port, device, sc, s, act);
    case EnrollKey(_, _, _) => EnrollKeyKeeps(port, device, sc, s, act);
    case RemoveKey(_) => RemovalKeeps(port, device, sc, s, act);
    case ForceRemoveKey(_) => RemovalKeeps(port, device, sc, s, act);
    case Lock => QuietKeeps(port, device, sc, s, act);
    case Seal => SealKeeps(port, device, sc, s);
  }

  /** A new vault, with a key that nobody guessed. */
  lemma NewVaultKeeps(device: Device, sc: Scene, header: Header, dataKey: DataKey, entry: SealedKey, opts: Op.Options,
                      touch: nat, next: Scene)
    requires SceneHolds(device, sc) && NotGuessed(sc.world, dataKey)
    requires HeaderWellFormed(header) && KeyHolds(Origin(header, dataKey), entry)
    requires next.facts == sc.facts + {VaultMade(header, dataKey), KeyMade(header, dataKey, entry)}
    requires next.world.docs == sc.world.docs + [Doc(header, [entry], [])] && next.world.blobs == sc.world.blobs
    requires next.world.vaults == sc.world.vaults
    requires next.world.sessions == sc.world.sessions + [Sess(|sc.world.docs|, opts, Some(dataKey), touch)]
    ensures SceneHolds(device, next)
  {
    hide Unforged, KeyHolds, SecretHolds, HeaderWellFormed, UsesKey;
    forall d | 0 <= d < |sc.world.docs| ensures DocHolds(device, next.facts, sc.world.docs[d]) {
      assert DocHolds(device, sc.facts, sc.world.docs[d]);
      UnforgedOnCreate(device, sc.facts, next.facts, sc.world.docs[d], header, dataKey);
    }
    forall b | 0 <= b < |sc.world.blobs| && sc.world.blobs[b].Decoded?
      ensures AllUnforged(device, next.facts, sc.world.blobs[b].doc)
    {
      UnforgedOnCreate(device, sc.facts, next.facts, sc.world.blobs[b].doc, header, dataKey);
    }
    MadeIsUnforged(device, next.facts, KeyMade(header, dataKey, entry));
    forall s | 0 <= s < |sc.world.sessions| ensures SessionHolds(next.facts, next.world.docs, sc.world.sessions[s]) {
      assert SessionHolds(sc.facts, sc.world.docs, sc.world.sessions[s]);
    }
  }

  lemma CreateKeeps(port: Port, device: Device, sc: Scene, a: Action)
    requires SceneHolds(device, sc) && a.Create?
    requires a.dataKey.Some? ==> NotGuessed(sc.world, a.dataKey.value)
    ensures SceneHolds(device, Play(port, sc, Honest(a)))
  {
    hide Op.Create, FactsHold, DocsHold, CopiesHold, SessionsHold, NotGuessed, KeyHolds;
    var r := Op.Create(port, sc.world.ledger, a.opts, a.salt, a.draws, a.dataKey).0;
    if r.Ok? {
      CreateFacts(port, sc.world.ledger, a.opts, a.salt, a.draws, a.dataKey);
      var doc := r.value.doc;
      assert doc == Doc(doc.header, [doc.keys[0]], []);
      NewVaultKeeps(device, sc, doc.header, r.value.dataKey, doc.keys[0], a.opts, |sc.world.ledger| + 1,
                    Play(port, sc, Honest(a)));
    } else {
      assert sc.facts + {} == sc.facts;
    }
  }

  lemma OpenWithKeeps(port: Port, device: Device, sc: Scene, a: Action)
    requires SceneHolds(device, sc) && a.OpenWith?
    ensures SceneHolds(device, Play(port, sc, Honest(a)))
  {
    hide FactsHold, AllUnforged, KeysWellFormed, SecretsWellFormed;
    assert sc.facts + {} == sc.facts;
    var next := Play(port, sc, Honest(a));
    forall s | 0 <= s < |sc.world.sessions| ensures SessionHolds(next.facts, next.world.docs, sc.world.sessions[s]) {
      assert SessionHolds(sc.facts, sc.world.docs, sc.world.sessions[s]);
    }
  }

  lemma UnlockKeeps(port: Port, device: Device, sc: Scene, a: Action)
    requires SceneHolds(device, sc) && SceneFits(sc) && Faithful(port, device) && a.Unlock?
    ensures SceneHolds(device, Play(port, sc, Honest(a)))
  {
    hide CopiesHold, AllUnforged, Op.DataKeyFrom;
    var w := sc.world;
    assert sc.facts + {} == sc.facts;
    if a.vault < |w.vaults| {
      var doc := w.docs[w.vaults[a.vault].doc];
      var answer := port.derive(|w.ledger|, Op.UnlockRequest(doc));
      if Op.DataKeyFrom(doc, answer).Ok? {
        AnswerIsOk(doc, answer);
        var k, f := UnlockFindsFact(device, sc.facts, doc, answer.value);
        assert FactHolds(sc.facts, f);
      }
    }
  }

  lemma AnswerIsOk(doc: Doc, answer: Result<DeriveResult>)
    requires Op.DataKeyFrom(doc, answer).Ok?
    ensures answer.Ok?
  {
  }

  lemma PlantKeeps(port: Port, device: Device, sc: Scene, doc: Doc)
    requires SceneHolds(device, sc) && AllUnforged(device, sc.facts, doc)
    ensures SceneHolds(device, Play(port, sc, Plant(doc)))
  {
    hide FactsHold, DocsHold, SessionsHold, AllUnforged;
  }

  lemma NoSessionKeeps(port: Port, device: Device, sc: Scene, s: nat, act: Act)
    requires SceneHolds(device, sc) && !HasSession(sc.world, s)
    ensures SceneHolds(device, Play(port, sc, Honest(Use(s, act))))
  {
    assert sc.facts + {} == sc.facts;
  }

  lemma PlayKeeps(port: Port, device: Device, sc: Scene, deed: Deed, next: Scene)
    requires SceneHolds(device, sc) && Faithful(port, device) && Plays(port, device, sc, deed, next)
    ensures SceneHolds(device, next)
  {
    hide SceneHolds, Play, Faithful, SceneFits;
    match deed
    case Plant(doc) => PlantKeeps(port, device, sc, doc);
    case Honest(a) =>
      match a
      case Create(_, _, _, _) => CreateKeeps(port, device, sc, a);
      case OpenWith(_, _) => OpenWithKeeps(port, device, sc, a);
      case Unlock(_) => UnlockKeeps(port, device, sc, a);
      case Use(s, act) =>
        if HasSession(sc.world, s) {
          UseKeeps(port, device, sc, s, act);
        } else {
          NoSessionKeeps(port, device, sc, s, act);
        }
  }

  lemma EmptySceneHolds(device: Device)
    ensures SceneHolds(device, EMPTY_SCENE)
  {
  }

  lemma EverySceneHolds(port: Port, device: Device, scenes: seq<Scene>, deeds: seq<Deed>)
    requires IsPlay(port, device, scenes, deeds) && Faithful(port, device)
    ensures SceneHolds(device, scenes[|deeds|])
  {
    hide SceneHolds, Plays, Faithful, SceneFits;
    EmptySceneHolds(device);
    for i := 0 to |deeds|
      invariant SceneHolds(device, scenes[i])
    {
      PlayKeeps(port, device, scenes[i], deeds[i], scenes[i + 1]);
    }
  }

  // ----- What was done, for what is found -----

  /** Every fact was made by one honest step. */
  lemma FactWasMade(port: Port, device: Device, scenes: seq<Scene>, deeds: seq<Deed>, f: Fact) returns (i: nat)
    requires IsPlay(port, device, scenes, deeds) && f in scenes[|deeds|].facts
    ensures i < |deeds| && deeds[i].Honest?
    ensures var w, a := scenes[i].world, deeds[i].action; f in FactsOf(w, a, Step(port, w, a).1)
  {
    hide Possible, SceneFits, Step, FactsOf;
    i := |deeds|;
    while f in scenes[i].facts && i > 0 && f in scenes[i - 1].facts
      invariant i <= |deeds| && f in scenes[i].facts
      decreases i
    {
      i := i - 1;
    }
    assert i > 0;
    i := i - 1;
    assert Plays(port, device, scenes[i], deeds[i], scenes[i + 1]);
  }

  /** This step was a successful Put of that name and value, by a session that held this key, into a document with this
      header. */
  ghost predicate PutAt(w: World, deed: Deed, header: Header, dataKey: Bytes, name: Bytes, value: Bytes) {
    && deed.Honest? && deed.action.Use? && HasSession(w, deed.action.session)
    && var act, session := deed.action.act, w.sessions[deed.action.session];
       && act.Put? && act.name == name && act.secret == Op.Reads(value)
       && session.key == Some(dataKey) && w.docs[session.doc].header == header
       && Op.Put(w.docs[session.doc], session.key, act.name, act.secret, act.nonce).0 == None
  }

  /** This step created the vault with this header and data key. */
  ghost predicate CreateAt(port: Port, w: World, deed: Deed, header: Header, dataKey: Bytes) {
    && deed.Honest? && deed.action.Create?
    && var a := deed.action;
       var r := Op.Create(port, w.ledger, a.opts, a.salt, a.draws, a.dataKey).0;
       r.Ok? && r.value.doc.header == header && r.value.dataKey == dataKey
  }

  lemma SealedByPut(port: Port, w: World, a: Action, f: Fact)
    requires f.SecretMade? && f in FactsOf(w, a, Step(port, w, a).1)
    ensures PutAt(w, Honest(a), f.header, f.dataKey, f.name, f.plaintext)
  {
    hide Op.Create, Op.Enrolling, Op.Delete, Op.RemoveKey, Op.ForceRemoveKey;
  }

  lemma VaultByCreate(port: Port, w: World, a: Action, f: Fact)
    requires f.VaultMade? && f in FactsOf(w, a, Step(port, w, a).1)
    ensures CreateAt(port, w, Honest(a), f.header, f.dataKey)
  {
    hide Op.Create, Op.Enrolling, Op.Delete, Op.RemoveKey, Op.ForceRemoveKey;
  }

  /** However the storage was tampered with: what a session reads under a name was put under that name, by a session
      with the same data key, into a document with the same header; and that header and key are those of a vault that
      the library created. */
  lemma WhatIsReadWasPut(port: Port, device: Device, scenes: seq<Scene>, deeds: seq<Deed>, s: nat, name: Bytes)
    returns (i: nat, j: nat)
    requires IsPlay(port, device, scenes, deeds) && Faithful(port, device)
    requires HasSession(scenes[|deeds|].world, s)
    requires var w := scenes[|deeds|].world;
      Op.Open(w.docs[w.sessions[s].doc], w.sessions[s].key, name).Ok?
    ensures i < |deeds| && j < |deeds| && scenes[|deeds|].world.sessions[s].key.Some?
    ensures var w := scenes[|deeds|].world;
      var doc, key := w.docs[w.sessions[s].doc], w.sessions[s].key.value;
      && PutAt(scenes[i].world, deeds[i], doc.header, key, name, Op.Open(doc, Some(key), name).value)
      && CreateAt(port, scenes[j].world, deeds[j], doc.header, key)
  {
    hide Plays, Faithful, Op.Open, FactsOf, Step, PutAt, CreateAt, FactsHold, AllUnforged, CopiesHold;
    EverySceneHolds(port, device, scenes, deeds);
    var sc := scenes[|deeds|];
    var session := sc.world.sessions[s];
    var doc := sc.world.docs[session.doc];
    ReadingNeedsKey(doc, session.key, name);
    assert SessionHolds(sc.facts, sc.world.docs, session);
    var f := ReadFindsFact(device, sc.facts, doc, session.key.value, name);
    i := FactWasMade(port, device, scenes, deeds, f);
    SealedByPut(port, scenes[i].world, deeds[i].action, f);
    j := FactWasMade(port, device, scenes, deeds, VaultMade(doc.header, session.key.value));
    VaultByCreate(port, scenes[j].world, deeds[j].action, VaultMade(doc.header, session.key.value));
  }

  /** And whatever document is around at the end, honest or planted: if an honest answer unlocks it, the entry that
      answered is one the library wrapped in some step, for a vault with this very header, at that credential and at
      that slot modulo 2^32, and the data key is that vault's. */
  lemma WhatUnlocksWasWrapped(port: Port, device: Device, scenes: seq<Scene>, deeds: seq<Deed>, d: nat,
                              answer: DeriveResult)
    returns (i: nat, k: SealedKey, made: SealedKey)
    requires IsPlay(port, device, scenes, deeds) && Faithful(port, device) && d < |scenes[|deeds|].world.docs|
    requires answer.secret == []
      || answer.secret == device(answer.credentialID, answer.userVerified, scenes[|deeds|].world.docs[d].header.salt)
    requires Op.DataKeyFrom(scenes[|deeds|].world.docs[d], Ok(answer)).Ok?
    ensures k in scenes[|deeds|].world.docs[d].keys && k.credentialID == answer.credentialID == made.credentialID
    ensures made.wrapped == k.wrapped && made.slot % TWO32 == k.slot % TWO32
    ensures i < |deeds| && deeds[i].Honest?
    ensures var w, a, doc := scenes[i].world, deeds[i].action, scenes[|deeds|].world.docs[d];
      KeyMade(doc.header, Op.DataKeyFrom(doc, Ok(answer)).value, made) in FactsOf(w, a, Step(port, w, a).1)
  {
    hide Plays, Faithful, Op.DataKeyFrom, FactsOf, Step, FactsHold, CopiesHold, SessionsHold;
    EverySceneHolds(port, device, scenes, deeds);
    var sc := scenes[|deeds|];
    var f;
    k, f := UnlockFindsFact(device, sc.facts, sc.world.docs[d], answer);
    made := f.key;
    i := FactWasMade(port, device, scenes, deeds, f);
  }

  lemma ReadingNeedsKey(doc: Doc, key: Option<Bytes>, name: Bytes)
    requires Op.Open(doc, key, name).Ok?
    ensures key.Some?
  {
  }
}
