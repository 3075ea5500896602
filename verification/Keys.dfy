/** Enrolled keys over whole runs: any one of them suffices, none of them ignores the salt, and only
    ForceRemoveKey can leave a vault without any. */
module Keys {
  import opened Common
  import opened Aad
  import opened Document
  import opened Authenticators
  import opened Entropy
  import opened Wire
  import opened Runs
  import opened Refinement
  import D = Decisions
  import Op = Operations

  // ----- Every entry was wrapped under a proven derivation -----

  /** The entry was wrapped under what the device derives for its credential, and that output depends on the salt. */
  ghost predicate Proven(device: Device, h: Header, k: SealedKey) {
    && k.wrapped.Box? && k.wrapped.key.Hkdf? && |h.salt| == SALT_LEN
    && k.wrapped.key.prf == device(k.credentialID, h.userVerified, h.salt)
    && DependsOnTail(device, k.credentialID, h.userVerified, h.salt)
  }

  ghost predicate AllProven(device: Device, doc: Doc) {
    forall k :: k in doc.keys ==> Proven(device, doc.header, k)
  }

  ghost predicate ProvenWorld(device: Device, w: World) {
    && (forall d :: 0 <= d < |w.docs| ==> AllProven(device, w.docs[d]))
    && (forall b :: 0 <= b < |w.blobs| ==> w.blobs[b].Decoded? && AllProven(device, w.blobs[b].doc))
  }

  lemma FreshKeyIsProven(port: Port, device: Device, ledger: seq<Call>, rpID: Bytes, salt: Bytes, opts: Op.Options,
                         uv: UserVerification, userID: Option<UserID>)
    requires Faithful(port, device)
    requires var (r, l) := Op.EnrollAndDerive(port, ledger, rpID, salt, opts, uv, userID);
      r.Ok? && Gate(port, l, rpID, r.value.cred.credentialID, salt, r.value.derived.secret, uv,
                    r.value.derived.userVerified).0 == None
    ensures var en := Op.EnrollAndDerive(port, ledger, rpID, salt, opts, uv, userID).0.value;
      && |salt| == SALT_LEN
      && en.derived.secret == device(en.cred.credentialID, en.derived.userVerified, salt)
      && DependsOnTail(device, en.cred.credentialID, en.derived.userVerified, salt)
  {
    var (r, l) := Op.EnrollAndDerive(port, ledger, rpID, salt, opts, uv, userID);
    EnrollAndDeriveFacts(port, ledger, rpID, salt, opts, uv, userID);
    var en := r.value;
    assert en.derived.credentialID == en.cred.credentialID;
    GatePassedMeansDependence(port, device, l, rpID, en.cred.credentialID, salt, uv, en.derived.userVerified);
  }

  lemma CreateIsProven(port: Port, device: Device, ledger: seq<Call>, opts: Op.Options, salt: Option<Salt>,
                       draws: Op.Draws, dataKey: Option<DataKey>)
    requires Faithful(port, device) && Op.Create(port, ledger, opts, salt, draws, dataKey).0.Ok?
    ensures AllProven(device, Op.Create(port, ledger, opts, salt, draws, dataKey).0.value.doc)
  {
    FreshKeyIsProven(port, device, ledger, opts.rpID, salt.value, opts, UVDiscouraged, draws.userID);
  }

  lemma EnrollingIsProven(port: Port, device: Device, ledger: seq<Call>, doc: Doc, key: Option<Bytes>, opts: Op.Options,
                          slot: int, keyLabel: Bytes, draws: Op.Draws)
    requires Faithful(port, device)
    requires Op.Enrolling(port, ledger, doc, key, opts, slot, keyLabel, draws).0.Ok?
    ensures Proven(device, doc.header, Op.Enrolling(port, ledger, doc, key, opts, slot, keyLabel, draws).0.value.0)
  {
    var h := doc.header;
    FreshKeyIsProven(port, device, ledger, h.rpID, h.salt, opts, Op.UvRequirement(h), draws.userID);
  }

  lemma CoerceKeepsProven(device: Device, doc: Doc)
    requires AllProven(device, doc)
    ensures AllProven(device, CoerceDoc(doc))
  {
    var r := CoerceDoc(doc);
    forall k | k in r.keys ensures Proven(device, r.header, k) {
      var i :| 0 <= i < |r.keys| && r.keys[i] == k;
      assert doc.keys[i] in doc.keys;
    }
  }

  lemma UseKeepsProven(port: Port, device: Device, w: World, s: nat, act: Act)
    requires Faithful(port, device) && ProvenWorld(device, w) && HasSession(w, s)
    ensures ProvenWorld(device, StepUse(port, w, s, act).0)
  {
    var session := w.sessions[s];
    var doc := w.docs[session.doc];
    match act
    case EnrollKey(slot, keyLabel, draws) =>
      if Op.Enrolling(port, w.ledger, doc, session.key, session.opts, slot, keyLabel, draws).0.Ok? {
        EnrollingIsProven(port, device, w.ledger, doc, session.key, session.opts, slot, keyLabel, draws);
      }
    case RemoveKey(slot) => WithoutSlotMembers(doc.keys, slot);
    case ForceRemoveKey(slot) => WithoutSlotMembers(doc.keys, slot);
    case Seal => CoerceKeepsProven(device, doc);
    case _ =>
  }

  lemma StepKeepsProven(port: Port, device: Device, p: Past, a: Action)
    requires Faithful(port, device) && ProvenWorld(device, p.world)
    ensures ProvenWorld(device, Next(port, p, a).world)
  {
    if a.Create? && Op.Create(port, p.world.ledger, a.opts, a.salt, a.draws, a.dataKey).0.Ok? {
      CreateIsProven(port, device, p.world.ledger, a.opts, a.salt, a.draws, a.dataKey);
    } else if a.Use? && HasSession(p.world, a.session) {
      UseKeepsProven(port, device, p.world, a.session, a.act);
    }
  }

  lemma ReachableIsProven(port: Port, device: Device, p: Past)
    requires Faithful(port, device) && Reachable(port, p)
    ensures ProvenWorld(device, p.world)
  {
    hide Faithful, Next;
    var actions :| Reaches(port, FROM_NOTHING, actions, p);
    var trace: seq<Past> :| IsTrace(port, trace, actions) && trace[0] == FROM_NOTHING && trace[|actions|] == p;
    for i := 0 to |actions|
      invariant ProvenWorld(device, trace[i].world)
    {
      StepKeepsProven(port, device, trace[i], actions[i]);
    }
  }

  /** No run ever leaves an entry, in memory or sealed, for a credential whose device drops salt bytes. */
  lemma NoTruncatingKeyIsEverEnrolled(port: Port, device: Device, p: Past, credentialID: Bytes, n: nat)
    requires Reachable(port, p) && Faithful(port, device)
    requires ReadsPrefix(device, credentialID, n) && n < SALT_LEN
    ensures var w := p.world;
      && (forall d :: 0 <= d < |w.docs| ==> credentialID !in CredentialSet(w.docs[d].keys))
      && (forall b :: 0 <= b < |w.blobs| ==>
            w.blobs[b].Decoded? && credentialID !in CredentialSet(w.blobs[b].doc.keys))
  {
    ReachableIsProven(port, device, p);
    forall doc: Doc | AllProven(device, doc) ensures credentialID !in CredentialSet(doc.keys) {
      if k :| k in doc.keys && k.credentialID == credentialID {
        TruncationIsCaught(device, credentialID, n, doc.header.userVerified, doc.header.salt);
      }
    }
    assert forall d :: 0 <= d < |p.world.docs| ==> AllProven(device, p.world.docs[d]);
  }

  /** A key entry of a document in step with its origin opens exactly if the document kept its header. */
  lemma EntryOpensExactly(o: Origin, h: Header, k: SealedKey, prf: Bytes)
    requires HeaderHolds(o.header, h) && KeyHolds(o, k) && prf == k.wrapped.key.prf
    ensures UnwrapDataKey(h, k, prf) == if h == o.header then Ok(o.dataKey) else Err(AuthenticationFailed)
    ensures ValidUtf8(o.header.rpID) ==> h == o.header
  {
    CoercedKeyAad(o.header, k.slot, k.credentialID);
    CoerceFixesExactlyUtf8(o.header.rpID);
  }

  lemma KeptHeader(o: Origin, h: Header)
    requires HeaderHolds(o.header, h) && ValidUtf8(o.header.rpID)
    ensures h == o.header
  {
    CoerceFixesExactlyUtf8(o.header.rpID);
  }

  /** An entry of a reachable document, met with what its device derives, or with nothing. */
  lemma EntryGivesExactly(device: Device, o: Origin, h: Header, k: SealedKey, secret: Bytes)
    requires HeaderHolds(o.header, h) && KeyHolds(o, k) && Proven(device, h, k)
    requires secret == [] || secret == device(k.credentialID, h.userVerified, h.salt)
    ensures D.EntryGives(h, k, secret)
         == if secret == [] then Err(NoPrf) else if h == o.header then Ok(o.dataKey) else Err(AuthenticationFailed)
  {
    EntryOpensExactly(o, h, k, k.wrapped.key.prf);
  }

  /** What unlocking a reachable document comes to, with any honest authenticator, from the first check to the data
      key. A changed PIN is reported as such; the one thing that can be reported as a failed decryption is an RP ID that
      was not UTF-8 and went through a sealed copy. */
  lemma UnlockIsDecided(port: Port, device: Device, p: Past, d: nat, other: Port, ledger: seq<Call>)
    requires Reachable(port, p) && Faithful(port, device) && Faithful(other, device) && d < |p.world.docs|
    ensures d < |p.history.lines| && p.history.lines[d].origin < |p.history.origins|
    ensures var doc, o := p.world.docs[d], p.history.origins[p.history.lines[d].origin];
      ValidUtf8(o.header.rpID) ==> doc.header == o.header
    ensures var doc, o := p.world.docs[d], p.history.origins[p.history.lines[d].origin];
      Op.Unlock(other, ledger, doc)
        == if doc.keys == [] then (Err(NoKeysEnrolled), ledger)
           else
             var answer := other.derive(|ledger|, D.UnlockAsks(doc));
             (if answer.Err? then Err(answer.error)
              else if !answer.value.userPresent then Err(NotPresent)
              else if answer.value.userVerified != doc.header.userVerified then Err(UserVerificationMismatch)
              else if !D.CredentialInUse(doc.keys, answer.value.credentialID) then Err(UnknownCredential)
              else if answer.value.secret == [] then Err(NoPrf)
              else if doc.header == o.header then Ok(o.dataKey)
              else Err(AuthenticationFailed),
              ledger + [DeriveCall(D.UnlockAsks(doc), answer)])
  {
    hide Reachable, Op.Unlock, D.UnlockAsks, D.EntryGives, KeyHolds, Proven, HeaderHolds;
    ReachableHolds(port, p);
    ReachableIsProven(port, device, p);
    var line, doc := p.history.lines[d], p.world.docs[d];
    var o := p.history.origins[line.origin];
    assert DocHolds(p.history.origins, line, doc) && AllProven(device, doc) && OriginHolds(o);
    HeaderIsProven(o, doc.header);
    if ValidUtf8(o.header.rpID) {
      KeptHeader(o, doc.header);
    }
    D.UnlockIsDecided(other, ledger, doc);
    if doc.keys != [] {
      var answer := other.derive(|ledger|, D.UnlockAsks(doc));
      if answer.Ok? && answer.value.userVerified == doc.header.userVerified
         && D.CredentialInUse(doc.keys, answer.value.credentialID) {
        AnswerIsFaithful(other, device, |ledger|, doc);
        var i :| 0 <= i < |doc.keys| && doc.keys[i].credentialID == answer.value.credentialID;
        assert doc.keys[i] in doc.keys;
        EntryGivesExactly(device, o, doc.header, doc.keys[i], answer.value.secret);
      }
    }
  }

  lemma HeaderIsProven(o: Origin, h: Header)
    requires OriginHolds(o) && HeaderHolds(o.header, h)
    ensures h.entropyVerified && h.userVerified == o.header.userVerified && h.salt == o.header.salt
  {
  }

  lemma AnswerIsFaithful(port: Port, device: Device, n: nat, doc: Doc)
    requires Faithful(port, device) && port.derive(n, D.UnlockAsks(doc)).Ok?
    ensures var a := port.derive(n, D.UnlockAsks(doc)).value;
      a.secret == [] || a.secret == device(a.credentialID, a.userVerified, doc.header.salt)
  {
  }

  /** Every enrolled key of every document suffices, the first or any other: asked the one request of an unlock, if it
      answers with a touch, verified as recorded, the document unlocks to the one data key exactly if it kept its
      header, and under that key it reads as the plain map. */
  lemma AnyEnrolledKeySuffices(port: Port, device: Device, p: Past, d: nat, k: SealedKey, other: Port, ledger: seq<Call>)
    requires Reachable(port, p) && Faithful(port, device) && d < |p.world.docs| && k in p.world.docs[d].keys
    requires var h := p.world.docs[d].header;
      other.derive(|ledger|, D.UnlockAsks(p.world.docs[d]))
        == Ok(DeriveResult(device(k.credentialID, h.userVerified, h.salt), k.credentialID, true, h.userVerified))
    ensures d < |p.history.lines| && p.history.lines[d].origin < |p.history.origins|
    ensures var line, doc := p.history.lines[d], p.world.docs[d];
      var o := p.history.origins[line.origin];
      && (ValidUtf8(o.header.rpID) ==> doc.header == o.header)
      && Op.Unlock(other, ledger, doc).0 == (if doc.header == o.header then Ok(o.dataKey) else Err(AuthenticationFailed))
      && (doc.header == o.header ==> forall name :: Op.Open(doc, Some(o.dataKey), name) == Lookup(line.contents, name))
  {
    hide Reachable, Op.Unlock, Op.Open, D.UnlockAsks, D.EntryGives, HeaderHolds, Lookup, CellHolds;
    ReachableHolds(port, p);
    ReachableIsProven(port, device, p);
    var line, doc := p.history.lines[d], p.world.docs[d];
    var o := p.history.origins[line.origin];
    assert DocHolds(p.history.origins, line, doc) && AllProven(device, doc) && OriginHolds(o);
    assert KeyHolds(o, k) && Proven(device, doc.header, k);
    HeaderIsProven(o, doc.header);
    if ValidUtf8(o.header.rpID) {
      KeptHeader(o, doc.header);
    }
    D.UnlockIsDecided(other, ledger, doc);
    EntryGivesExactly(device, o, doc.header, k, device(k.credentialID, doc.header.userVerified, doc.header.salt));
    if doc.header == o.header {
      forall name ensures Op.Open(doc, Some(o.dataKey), name) == Lookup(line.contents, name) {
        ReadingIsLookup(o, doc, line.contents, name);
      }
    }
  }

  // ----- A vault keeps a key unless it is forced to lose it -----

  ghost predicate Keyed(doc: Doc) {
    doc.keys != [] && DistinctSlots(doc.keys)
  }

  ghost predicate KeyedWorld(w: World) {
    && (forall d :: 0 <= d < |w.docs| ==> Keyed(w.docs[d]))
    && (forall b :: 0 <= b < |w.blobs| ==> w.blobs[b].Decoded? && Keyed(w.blobs[b].doc))
  }

  lemma RemoveKeyLeavesOne(doc: Doc, key: Option<Bytes>, slot: int)
    requires Keyed(doc)
    ensures Keyed(Op.RemoveKey(doc, key, slot).1)
  {
    if Op.RemoveKey(doc, key, slot).0.None? {
      WithoutSlotLength(doc.keys, slot);
      WithoutSlotDistinct(doc.keys, slot);
    }
  }

  lemma {:induction false} WithoutSlotDistinct(keys: seq<SealedKey>, slot: int)
    requires DistinctSlots(keys)
    ensures DistinctSlots(WithoutSlot(keys, slot))
  {
    if keys == [] {
    } else {
      var rest := keys[1..];
      assert forall k :: k in rest ==> k.slot != keys[0].slot;
      WithoutSlotMembers(rest, slot);
      WithoutSlotDistinct(rest, slot);
    }
  }

  lemma AppendDistinct(keys: seq<SealedKey>, entry: SealedKey)
    requires DistinctSlots(keys) && entry.slot !in SlotSet(keys)
    ensures DistinctSlots(keys + [entry])
  {
    var r := keys + [entry];
    forall i, j | 0 <= i < j < |r| ensures r[i].slot != r[j].slot {
      assert r[i] == keys[i] && keys[i] in keys;
    }
  }

  lemma UseKeepsKeyed(port: Port, w: World, s: nat, act: Act)
    requires KeyedWorld(w) && HasSession(w, s) && !act.ForceRemoveKey?
    ensures KeyedWorld(StepUse(port, w, s, act).0)
  {
    var session := w.sessions[s];
    var doc := w.docs[session.doc];
    match act
    case EnrollKey(slot, keyLabel, draws) =>
      var added := Op.Enrolling(port, w.ledger, doc, session.key, session.opts, slot, keyLabel, draws).0;
      if added.Ok? {
        EnrollingFacts(port, w.ledger, doc, session.key, session.opts, slot, keyLabel, draws);
        AppendDistinct(doc.keys, added.value.0);
      }
    case RemoveKey(slot) => RemoveKeyLeavesOne(doc, session.key, slot);
    case Seal =>
      var r := CoerceDoc(doc);
      assert forall i :: 0 <= i < |r.keys| ==> r.keys[i].slot == doc.keys[i].slot;
    case _ =>
  }

  lemma StepKeepsKeyed(port: Port, p: Past, a: Action)
    requires KeyedWorld(p.world) && !(a.Use? && a.act.ForceRemoveKey?)
    ensures KeyedWorld(Next(port, p, a).world)
  {
    if a.Create? && Op.Create(port, p.world.ledger, a.opts, a.salt, a.draws, a.dataKey).0.Ok? {
      CreateFacts(port, p.world.ledger, a.opts, a.salt, a.draws, a.dataKey);
    } else if a.Use? && HasSession(p.world, a.session) {
      UseKeepsKeyed(port, p.world, a.session, a.act);
    }
  }

  /** Without ForceRemoveKey, no document and no sealed copy is ever without an enrolled key. */
  lemma OnlyForceRemovesTheLastKey(port: Port, p: Past, actions: seq<Action>, q: Past)
    requires KeyedWorld(p.world) && Reaches(port, p, actions, q)
    requires forall i :: 0 <= i < |actions| ==> !(actions[i].Use? && actions[i].act.ForceRemoveKey?)
    ensures KeyedWorld(q.world)
  {
    hide Next;
    var trace: seq<Past> :| IsTrace(port, trace, actions) && trace[0] == p && trace[|actions|] == q;
    for i := 0 to |actions|
      invariant KeyedWorld(trace[i].world)
    {
      StepKeepsKeyed(port, trace[i], actions[i]);
    }
  }
}
