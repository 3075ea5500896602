/** Calls that must succeed do: over any run, with the request each call makes and the answers it needs spelled out, an
    unlock by any enrolled key, an enrollment, a Put, a Delete and the way through a sealed copy come to what they are
    for. */
module Liveness {
  import opened Common
  import opened Aad
  import opened Document
  import opened Authenticators
  import opened Entropy
  import opened Wire
  import opened Runs
  import opened Refinement
  import opened Stranding
  import Aead
  import D = Decisions
  import Op = Operations

  // ----- Unlocking -----

  /** Under the original header every entry is good for an unlock, wherever it stands. */
  lemma EveryEntryUnlocks(o: Origin, doc: Doc, k: SealedKey, port: Port, ledger: seq<Call>)
    requires OriginHolds(o) && doc.header == o.header && KeysHold(o, doc.keys) && k in doc.keys && KeyHolds(o, k)
    requires port.derive(|ledger|, D.UnlockAsks(doc)) == Ok(OwnAnswer(doc.header, k, k.wrapped.key.prf))
    ensures Op.Unlock(port, ledger, doc)
         == (Ok(o.dataKey), ledger + [DeriveCall(D.UnlockAsks(doc), port.derive(|ledger|, D.UnlockAsks(doc)))])
  {
    hide Op.Unlock, D.UnlockAsks;
    D.UnlockIsDecided(port, ledger, doc);
    var i :| 0 <= i < |doc.keys| && doc.keys[i] == k;
    assert D.CredentialInUse(doc.keys, k.credentialID);
  }

  /** A vault of any run opens a session for any of its keys: touched and verified as recorded, the key that answers
      makes Unlock add one session, which holds the data key and reads the plain map. */
  lemma AnyKeyOpensASession(port: Port, p: Past, v: nat, k: SealedKey)
    requires Reachable(port, p) && v < |p.world.vaults| && p.world.vaults[v].doc < |p.world.docs|
    requires var doc := p.world.docs[p.world.vaults[v].doc];
      && k in doc.keys && k.wrapped.Box? && k.wrapped.key.Hkdf?
      && port.derive(|p.world.ledger|, D.UnlockAsks(doc)) == Ok(OwnAnswer(doc.header, k, k.wrapped.key.prf))
    ensures var (w, d) := (p.world, p.world.vaults[v].doc);
      && d < |p.history.lines| && p.history.lines[d].origin < |p.history.origins|
      && var o := p.history.origins[p.history.lines[d].origin];
         w.docs[d].header == o.header ==>
           && Step(port, w, Unlock(v))
              == (w.(sessions := w.sessions + [Sess(d, w.vaults[v].opts, Some(o.dataKey), |w.ledger|)],
                     ledger := w.ledger + [DeriveCall(D.UnlockAsks(w.docs[d]),
                                                      Ok(OwnAnswer(o.header, k, k.wrapped.key.prf)))]),
                  Unlocked(v))
           && forall name :: Op.Open(w.docs[d], Some(o.dataKey), name) == Lookup(p.history.lines[d].contents, name)
  {
    hide Reachable, Op.Unlock, Op.Open, D.UnlockAsks, CellHolds, HeaderHolds, KeyHolds, Lookup;
    ReachableHolds(port, p);
    var d := p.world.vaults[v].doc;
    var line, doc := p.history.lines[d], p.world.docs[d];
    assert DocHolds(p.history.origins, line, doc);
    var o := p.history.origins[line.origin];
    if doc.header == o.header {
      EveryEntryUnlocks(o, doc, k, port, p.world.ledger);
      forall name ensures Op.Open(doc, Some(o.dataKey), name) == Lookup(line.contents, name) {
        ReadingIsLookup(o, doc, line.contents, name);
      }
    }
  }

  // ----- Creating -----

  /** Create opens a session over a new document whenever the three answers pass, on any port and in any state. */
  lemma CreateSucceeds(port: Port, w: World, opts: Op.Options, salt: Salt, draws: Op.Draws, dataKey: DataKey)
    requires opts.rpID != [] && draws.userID.Some? && draws.nonce.Some?
    requires var a := D.AnswersTo(port, |w.ledger|, opts.rpID, D.RpNameOf(opts), draws.userID.value, salt, UVDiscouraged);
      D.CredentialRefusal(opts, a) == None && D.ProbeRefusal(a) == None
    ensures
      var a := D.AnswersTo(port, |w.ledger|, opts.rpID, D.RpNameOf(opts), draws.userID.value, salt, UVDiscouraged);
      var h := Header(1, opts.rpID, a.derived.value.userVerified, true, salt);
      var entry := D.EntryFor(h, dataKey, a, 0, opts.keyLabel, draws.nonce.value);
      var (w', e) := Step(port, w, Create(opts, Some(salt), draws, Some(dataKey)));
      && e == Created(h, dataKey, entry)
      && w'.docs == w.docs + [Doc(h, [entry], [])]
      && w'.sessions == w.sessions + [Sess(|w.docs|, opts, Some(dataKey), |w.ledger| + 1)]
      && w'.vaults == w.vaults && w'.blobs == w.blobs && |w'.ledger| == |w.ledger| + 3
  {
    hide Op.Create, D.AnswersTo, D.CredentialRefusal, D.ProbeRefusal;
    D.CreateIsDecided(port, w.ledger, opts, Some(salt), draws, Some(dataKey));
  }

  // ----- Enrolling -----

  /** In any run an unlocked session enrols a genuine new credential into any free slot, however many keys the vault has,
      and afterwards every key, the new one and each old one, unlocks the vault to the one data key. */
  lemma EnrollKeySucceeds(port: Port, p: Past, s: nat, slot: nat, keyLabel: Bytes, userID: UserID, nonce: Nonce)
    requires Reachable(port, p) && s < |p.world.sessions| && s !in p.history.locked
    requires p.world.sessions[s].doc < |p.world.docs| && |p.world.docs[p.world.sessions[s].doc].header.salt| == 32
    requires var (doc, opts) := (p.world.docs[p.world.sessions[s].doc], p.world.sessions[s].opts);
      && !D.SlotInUse(doc.keys, slot)
      && AnswersEnrollment(doc, opts, D.AnswersTo(port, |p.world.ledger|, doc.header.rpID, D.RpNameOf(opts), userID,
                                                  doc.header.salt, D.UvFor(doc.header.userVerified)))
    ensures var (w, d) := (p.world, p.world.sessions[s].doc);
      && d < |p.history.lines| && p.history.lines[d].origin < |p.history.origins|
      && var (h, o) := (w.docs[d].header, p.history.origins[p.history.lines[d].origin]);
         var a := D.AnswersTo(port, |w.ledger|, h.rpID, D.RpNameOf(w.sessions[s].opts), userID, h.salt,
                              D.UvFor(h.userVerified));
         var entry := D.EntryFor(h, o.dataKey, a, slot, keyLabel, nonce);
         var enrolled := Doc(h, w.docs[d].keys + [entry], w.docs[d].secrets);
         var (w', e) := Step(port, w, Use(s, EnrollKey(slot, keyLabel, Op.Draws(Some(userID), Some(nonce)))));
         && e == KeyAdded(d, entry) && w' == w.(docs := w.docs[d := enrolled], ledger := w'.ledger)
         && |w'.ledger| == |w.ledger| + 3
         && forall k :: k in enrolled.keys ==> EntryIsGood(o, enrolled, k)
  {
    hide Reachable, Op.Enrolling, D.AnswersTo, D.SlotInUse, KeyHolds, HeaderHolds, SecretsHold, AnswersEnrollment;
    ReachableHolds(port, p);
    var session := p.world.sessions[s];
    var d := session.doc;
    var line, doc := p.history.lines[d], p.world.docs[d];
    assert SessionHolds(p.history, p.world.docs, session, false) && DocHolds(p.history.origins, line, doc);
    var o := p.history.origins[line.origin];
    assert OriginHolds(o);
    EnrolledIsGood(port, p.world.ledger, o, doc, session.opts, slot, keyLabel, userID, nonce);
  }

  /** The entry's own answer to the request of an unlock, whenever and on whatever port it comes, gives the data key. */
  ghost predicate EntryIsGood(o: Origin, doc: Doc, k: SealedKey) {
    && k.wrapped.Box? && k.wrapped.key.Hkdf?
    && forall port: Port, ledger: seq<Call> ::
         port.derive(|ledger|, D.UnlockAsks(doc)) == Ok(OwnAnswer(doc.header, k, k.wrapped.key.prf)) ==>
           Op.Unlock(port, ledger, doc).0 == Ok(o.dataKey)
  }

  lemma EntriesAreGood(o: Origin, doc: Doc)
    requires OriginHolds(o) && doc.header == o.header && KeysHold(o, doc.keys)
    ensures forall k :: k in doc.keys ==> EntryIsGood(o, doc, k)
  {
    hide Op.Unlock, D.UnlockAsks;
    forall k, port: Port, ledger: seq<Call> |
      k in doc.keys && KeyHolds(o, k)
      && port.derive(|ledger|, D.UnlockAsks(doc)) == Ok(OwnAnswer(doc.header, k, k.wrapped.key.prf))
      ensures Op.Unlock(port, ledger, doc).0 == Ok(o.dataKey)
    {
      EveryEntryUnlocks(o, doc, k, port, ledger);
    }
  }

  lemma EnrolledIsGood(port: Port, ledger: seq<Call>, o: Origin, doc: Doc, opts: Op.Options, slot: nat, keyLabel: Bytes,
                       userID: UserID, nonce: Nonce)
    requires OriginHolds(o) && doc.header == o.header && KeysHold(o, doc.keys) && !D.SlotInUse(doc.keys, slot)
    requires AnswersEnrollment(doc, opts, D.AnswersTo(port, |ledger|, doc.header.rpID, D.RpNameOf(opts), userID,
                                                      doc.header.salt, D.UvFor(doc.header.userVerified)))
    ensures var h := doc.header;
      var a := D.AnswersTo(port, |ledger|, h.rpID, D.RpNameOf(opts), userID, h.salt, D.UvFor(h.userVerified));
      var entry := D.EntryFor(h, o.dataKey, a, slot, keyLabel, nonce);
      var enrolled := Doc(h, doc.keys + [entry], doc.secrets);
      var (added, l) := Op.Enrolling(port, ledger, doc, Some(o.dataKey), opts, slot, keyLabel,
                                     Op.Draws(Some(userID), Some(nonce)));
      && added == Ok((entry, a.derived.value)) && |l| == |ledger| + 3 && Op.WithKey(doc, added).1 == enrolled
      && forall k :: k in enrolled.keys ==> EntryIsGood(o, enrolled, k)
  {
    hide Op.Enrolling, D.AnswersTo, D.SlotInUse, D.EntryFor, SlotSet, CredentialSet, KeysWellFormed;
    var h := doc.header;
    var a := D.AnswersTo(port, |ledger|, h.rpID, D.RpNameOf(opts), userID, h.salt, D.UvFor(h.userVerified));
    D.EnrollKeyIsDecided(port, ledger, doc, Some(o.dataKey), opts, slot, keyLabel, Op.Draws(Some(userID), Some(nonce)));
    EnrollingFacts(port, ledger, doc, Some(o.dataKey), opts, slot, keyLabel, Op.Draws(Some(userID), Some(nonce)));
    var entry := D.EntryFor(h, o.dataKey, a, slot, keyLabel, nonce);
    AppendKeyHolds(o, doc.keys, entry);
    EntriesAreGood(o, Doc(h, doc.keys + [entry], doc.secrets));
  }

  // ----- Putting and deleting -----

  /** In any run Delete does exactly what a plain map would: it takes the name out if it is there, from an unlocked
      session. */
  lemma DeleteSucceedsExactly(port: Port, p: Past, s: nat, name: Bytes)
    requires Reachable(port, p) && s < |p.world.sessions|
    ensures var d := p.world.sessions[s].doc;
      && d < |p.history.lines|
      && Step(port, p.world, Use(s, Delete(name))).1
         == if s in p.history.locked then Failed(Locked)
            else if name in p.history.lines[d].contents then Deleted(d, name)
            else Failed(NoSuchSecret)
  {
    hide Reachable, CellHolds, HeaderHolds, KeysHold;
    ReachableHolds(port, p);
    var session := p.world.sessions[s];
    assert SessionHolds(p.history, p.world.docs, session, s in p.history.locked);
    assert DocHolds(p.history.origins, p.history.lines[session.doc], p.world.docs[session.doc]);
    NameTaken(p.world.docs[session.doc], p.history.lines[session.doc].contents, name);
    D.DeleteIsDecided(p.world.docs[session.doc], session.key, name);
  }

  lemma NameTaken(doc: Doc, contents: map<Bytes, Cell>, name: Bytes)
    requires NameSet(doc.secrets) == contents.Keys
    ensures name in contents <==> D.NameInUse(doc.secrets, name)
  {
    D.NameTaken(doc.secrets, name);
  }

  /** In any run Put stores the value under the name, sealed over the drawn nonce, unless one of its refusals applies. */
  lemma PutSucceedsExactly(port: Port, p: Past, s: nat, name: Bytes, secret: Op.Reader, nonce: Option<Nonce>)
    requires Reachable(port, p) && s < |p.world.sessions|
    ensures var d := p.world.sessions[s].doc;
      && d < |p.history.lines| == |p.world.docs| && p.history.lines[d].origin < |p.history.origins|
      && var (h, dataKey) := (p.world.docs[d].header, p.history.origins[p.history.lines[d].origin].dataKey);
         Step(port, p.world, Use(s, Put(name, secret, nonce))).1
           == if s in p.history.locked then Failed(Locked)
              else if |name| == 0 then Failed(NoName)
              else if secret == Op.NilReader then Failed(NoValue)
              else if secret == Op.BrokenReader then Failed(ReadFailed)
              else if nonce.None? then Failed(RandomSourceFailed)
              else Stored(d, name, secret.bytes,
                          SealedSecret(name, nonce.value, Aead.Box(Aead.Raw(dataKey), nonce.value, secret.bytes,
                                                                   SecretAad(h, name))))
  {
    hide Reachable, DocsHold, CopiesHold, SecretAad;
    ReachableHolds(port, p);
    var session := p.world.sessions[s];
    assert SessionHolds(p.history, p.world.docs, session, s in p.history.locked);
    assert OriginHolds(p.history.origins[p.history.lines[session.doc].origin]);
  }

  // ----- Removing keys -----

  /** In any run ForceRemoveKey empties a taken slot, and RemoveKey does unless it holds the only key. */
  lemma RemovalSucceedsExactly(port: Port, p: Past, s: nat, slot: int)
    requires Reachable(port, p) && s < |p.world.sessions|
    ensures var d := p.world.sessions[s].doc;
      && d < |p.world.docs|
      && var keys := p.world.docs[d].keys;
         && Step(port, p.world, Use(s, ForceRemoveKey(slot))).1
            == (if s in p.history.locked then Failed(Locked)
                else if D.SlotInUse(keys, slot) then KeyRemoved(d)
                else Failed(NoSuchSlot))
         && Step(port, p.world, Use(s, RemoveKey(slot))).1
            == (if s in p.history.locked then Failed(Locked)
                else if !D.SlotInUse(keys, slot) then Failed(NoSuchSlot)
                else if |keys| == 1 then Failed(LastKey)
                else KeyRemoved(d))
  {
    hide Reachable, HeaderHolds, SecretsHold, KeyHolds, D.SlotInUse;
    ReachableHolds(port, p);
    var session := p.world.sessions[s];
    assert SessionHolds(p.history, p.world.docs, session, s in p.history.locked);
    var doc := p.world.docs[session.doc];
    assert DocHolds(p.history.origins, p.history.lines[session.doc], doc);
    D.RemovalIsDecided(doc, session.key, slot);
    OnlyKeysSlot(doc.keys, slot);
  }

  lemma OnlyKeysSlot(keys: seq<SealedKey>, slot: int)
    ensures |keys| == 1 ==> (D.SlotInUse(keys, slot) <==> keys[0].slot == slot)
  {
  }

  // ----- There and back -----

  /** OpenWith opens exactly what parses, with no RP ID given or with the document's own. */
  lemma OpenWithSucceedsExactly(port: Port, w: World, b: nat, opts: Op.Options)
    requires b < |w.blobs|
    ensures Step(port, w, OpenWith(b, opts)).1
         == if !D.IsAccepted(w.blobs[b]) then Failed(WrongFormat)
            else if |opts.rpID| > 0 && opts.rpID != w.blobs[b].doc.header.rpID then Failed(RpIDConflict)
            else Reopened(b)
  {
    D.ParseIsDecided(w.blobs[b]);
    if w.blobs[b].Decoded? {
      D.ConflictIsDecided(opts, w.blobs[b].doc.header);
    }
  }

  lemma CopyAsksTheSame(doc: Doc)
    requires ValidUtf8(doc.header.rpID)
    ensures CoerceDoc(doc).header == doc.header && D.UnlockAsks(CoerceDoc(doc)) == D.UnlockAsks(doc)
  {
    CoerceFixesExactlyUtf8(doc.header.rpID);
    assert D.UnlockAsks(CoerceDoc(doc)).credentialIDs == D.UnlockAsks(doc).credentialIDs;
  }

  lemma CopyParses(origins: seq<Origin>, line: Line, doc: Doc)
    requires DocHolds(origins, line, doc) && OriginHolds(origins[line.origin])
    requires forall i, j :: 0 <= i < j < |doc.secrets| ==> Coerce(doc.secrets[i].name) != Coerce(doc.secrets[j].name)
    ensures Parse(Marshal(doc)) == Ok(CoerceDoc(doc))
  {
    hide WellFormed, OriginHolds, DocHolds, Coerce;
    HoldsMeansWellFormed(origins, line, doc);
    ReopensExactly(doc);
  }

  lemma CopyUnlocks(o: Origin, doc: Doc, k: SealedKey, port: Port, ledger: seq<Call>)
    requires OriginHolds(o) && doc.header == o.header && KeysHold(o, doc.keys) && k in doc.keys
    requires ValidUtf8(doc.header.rpID) && k.wrapped.Box? && k.wrapped.key.Hkdf?
    requires port.derive(|ledger|, D.UnlockAsks(doc)) == Ok(OwnAnswer(doc.header, k, k.wrapped.key.prf))
    ensures Op.Unlock(port, ledger, CoerceDoc(doc))
         == (Ok(o.dataKey), ledger + [DeriveCall(D.UnlockAsks(doc), port.derive(|ledger|, D.UnlockAsks(doc)))])
  {
    hide Op.Unlock, D.UnlockAsks, ValidUtf8, KeysWellFormed;
    var copy := CoerceDoc(doc);
    CopyAsksTheSame(doc);
    CoercedKeysHold(o, doc);
    var i :| 0 <= i < |doc.keys| && doc.keys[i] == k;
    assert copy.keys[i] == CoerceKey(k) && copy.keys[i] in copy.keys;
    EveryEntryUnlocks(o, copy, copy.keys[i], port, ledger);
  }

  /** Seal through session s, open what was sealed, unlock what was opened. */
  ghost function ThereAndBack(port: Port, p: Past, s: nat, opts: Op.Options): Past {
    Next(port, Next(port, Next(port, p, Use(s, Seal)), OpenWith(|p.world.blobs|, opts)), Unlock(|p.world.vaults|))
  }

  lemma SealAdds(port: Port, p: Past, s: nat)
    requires Inv(p) && s < |p.world.sessions|
    ensures var d := p.world.sessions[s].doc;
      && d < |p.world.docs| == |p.history.lines|
      && Next(port, p, Use(s, Seal)).world == p.world.(blobs := p.world.blobs + [Decoded(CoerceDoc(p.world.docs[d]))])
      && Next(port, p, Use(s, Seal)).history == p.history.(blobs := p.history.blobs + [CopyOf(p.history.lines[d])])
  {
    assert SessionHolds(p.history, p.world.docs, p.world.sessions[s], s in p.history.locked);
  }

  /** What parses is opened with no RP ID given, or with its own. */
  lemma OpenWithAdds(port: Port, p: Past, b: nat, opts: Op.Options, doc: Doc)
    requires b < |p.world.blobs| == |p.history.blobs| && Parse(p.world.blobs[b]) == Ok(doc)
    requires |opts.rpID| == 0 || opts.rpID == doc.header.rpID
    ensures var q := Next(port, p, OpenWith(b, opts));
      && q.world == p.world.(docs := p.world.docs + [doc],
                             vaults := p.world.vaults + [Handle(|p.world.docs|, opts.(rpID := doc.header.rpID))])
      && q.history == p.history.(lines := p.history.lines + [p.history.blobs[b]])
  {
    D.ConflictIsDecided(opts, doc.header);
  }

  lemma UnlockAdds(port: Port, p: Past, v: nat, key: Bytes, call: Call)
    requires v < |p.world.vaults| && p.world.vaults[v].doc < |p.world.docs| && key != []
    requires Op.Unlock(port, p.world.ledger, p.world.docs[p.world.vaults[v].doc]) == (Ok(key), p.world.ledger + [call])
    ensures Next(port, p, Unlock(v)).world
         == p.world.(sessions := p.world.sessions
                                 + [Sess(p.world.vaults[v].doc, p.world.vaults[v].opts, Some(key), |p.world.ledger|)],
                     ledger := p.world.ledger + [call])
  {
    hide Op.Unlock;
  }

  /** The whole way: what any session of any run seals is reopened with no RP ID given or with the vault's own, any
      enrolled key unlocks it, and the new session reads the map it was sealed from, UTF-8 name for UTF-8 name. It needs
      the RP ID to be UTF-8 and no two names to read alike after JSON. */
  lemma SealedVaultReopens(port: Port, p: Past, s: nat, opts: Op.Options, k: SealedKey, name: Bytes)
    requires Reachable(port, p) && s < |p.world.sessions| && p.world.sessions[s].doc < |p.world.docs|
    requires var doc := p.world.docs[p.world.sessions[s].doc];
      && ValidUtf8(doc.header.rpID) && (|opts.rpID| == 0 || opts.rpID == doc.header.rpID)
      && (forall i, j :: 0 <= i < j < |doc.secrets| ==> Coerce(doc.secrets[i].name) != Coerce(doc.secrets[j].name))
      && k in doc.keys && k.wrapped.Box? && k.wrapped.key.Hkdf?
      && port.derive(|p.world.ledger|, D.UnlockAsks(doc)) == Ok(OwnAnswer(doc.header, k, k.wrapped.key.prf))
    ensures var (d, q) := (p.world.sessions[s].doc, ThereAndBack(port, p, s, opts));
      && d < |p.history.lines| && p.history.lines[d].origin < |p.history.origins| && |p.world.docs| < |q.world.docs|
      && var o, contents := p.history.origins[p.history.lines[d].origin], p.history.lines[d].contents;
         && Reachable(port, q)
         && q.world.sessions == p.world.sessions + [Sess(|p.world.docs|, opts.(rpID := p.world.docs[d].header.rpID),
                                                         Some(o.dataKey), |p.world.ledger|)]
         && Op.Open(q.world.docs[|p.world.docs|], Some(o.dataKey), name)
            == if name in contents && ValidUtf8(name) then Lookup(contents, name)
               else if exists n :: n in contents && Coerce(n) == name then Err(AuthenticationFailed)
               else Err(NoSuchSecret)
  {
    hide Next, Op.Unlock, Op.Open, D.UnlockAsks, ValidUtf8, KeyHolds, Lookup, WellFormed, SecretsHold, KeysHold;
    ReachableHolds(port, p);
    var d := p.world.sessions[s].doc;
    var line, doc := p.history.lines[d], p.world.docs[d];
    var o := p.history.origins[line.origin];
    assert SessionHolds(p.history, p.world.docs, p.world.sessions[s], s in p.history.locked);
    assert DocHolds(p.history.origins, line, doc) && OriginHolds(o);
    CopyParses(p.history.origins, line, doc);
    CopyAsksTheSame(doc);
    CopyUnlocks(o, doc, k, port, p.world.ledger);
    var p1 := Next(port, p, Use(s, Seal));
    var p2 := Next(port, p1, OpenWith(|p.world.blobs|, opts));
    SealAdds(port, p, s);
    OpenWithAdds(port, p1, |p.world.blobs|, opts, CoerceDoc(doc));
    UnlockAdds(port, p2, |p.world.vaults|, o.dataKey, DeriveCall(D.UnlockAsks(doc),
                                                                 port.derive(|p.world.ledger|, D.UnlockAsks(doc))));
    OneMoreStep(port, p, Use(s, Seal));
    OneMoreStep(port, p1, OpenWith(|p.world.blobs|, opts));
    OneMoreStep(port, p2, Unlock(|p.world.vaults|));
    CopyReadsNameByName(o, doc, line.contents, name);
  }
}
