/** Every seal a run ever made keeps its meaning, and an edited document yields nothing that was not sealed so. */
module Integrity {
  import opened Common
  import opened Encoding
  import opened Aad
  import opened Aead
  import opened Document
  import opened Authenticators
  import opened Wire
  import opened Runs
  import opened Refinement
  import Op = Operations

  // ----- The log of seals -----

  ghost predicate MadeHolds(origins: seq<Origin>, m: Made) {
    && m.origin < |origins|
    && match m
       case MadeKey(o, key) => KeyHolds(origins[o], key)
       case MadeSecret(o, secret, plaintext) => SecretHolds(origins[o], secret, plaintext)
  }

  /** This very ciphertext was made for this line's vault, under whatever name. */
  ghost predicate SecretLogged(made: set<Made>, line: Line, s: SealedSecret) {
    exists m :: m in made && m.MadeSecret? && m.origin == line.origin
      && m.secret.nonce == s.nonce && m.secret.ciphertext == s.ciphertext
  }

  ghost predicate EntriesLogged(made: set<Made>, line: Line, doc: Doc) {
    && (forall k :: k in doc.keys ==> MadeKey(line.origin, Unlabelled(k)) in made)
    && (forall s :: s in doc.secrets ==> SecretLogged(made, line, s))
  }

  ghost predicate Logged(p: Past) {
    var w, h := p.world, p.history;
    && |h.lines| == |w.docs| && |h.blobs| == |w.blobs|
    && (forall m :: m in h.made ==> MadeHolds(h.origins, m))
    && (forall d :: 0 <= d < |w.docs| ==> EntriesLogged(h.made, h.lines[d], w.docs[d]))
    && (forall b :: 0 <= b < |w.blobs| ==> w.blobs[b].Decoded? && EntriesLogged(h.made, h.blobs[b], w.blobs[b].doc))
  }

  lemma UnlabelledHolds(o: Origin, k: SealedKey)
    requires KeyHolds(o, k)
    ensures KeyHolds(o, Unlabelled(k))
  {
  }

  lemma EntriesLoggedOn(made: set<Made>, more: set<Made>, line: Line, doc: Doc)
    requires EntriesLogged(made, line, doc)
    ensures EntriesLogged(made + more, line, doc)
  {
    forall s | s in doc.secrets ensures SecretLogged(made + more, line, s) {
      assert SecretLogged(made, line, s);
    }
  }

  /** A new vault: one origin, one document with one entry, one seal. */
  lemma NewDocKeepsLogged(p: Past, o: Origin, entry: SealedKey, q: Past)
    requires Logged(p) && KeyHolds(o, entry)
    requires q.world.docs == p.world.docs + [Doc(o.header, [entry], [])] && q.world.blobs == p.world.blobs
    requires q.history == p.history.(origins := p.history.origins + [o],
                                     lines := p.history.lines + [Line(|p.history.origins|, map[])],
                                     made := p.history.made + {MadeKey(|p.history.origins|, Unlabelled(entry))})
    ensures Logged(q)
  {
    hide KeyHolds, SecretHolds, SecretLogged;
    var more := {MadeKey(|p.history.origins|, Unlabelled(entry))};
    UnlabelledHolds(o, entry);
    forall d | 0 <= d < |p.world.docs| ensures EntriesLogged(q.history.made, p.history.lines[d], p.world.docs[d]) {
      EntriesLoggedOn(p.history.made, more, p.history.lines[d], p.world.docs[d]);
    }
    forall b | 0 <= b < |p.world.blobs| ensures EntriesLogged(q.history.made, p.history.blobs[b], p.world.blobs[b].doc) {
      EntriesLoggedOn(p.history.made, more, p.history.blobs[b], p.world.blobs[b].doc);
    }
    forall m | m in p.history.made ensures MadeHolds(q.history.origins, m) {
      assert MadeHolds(p.history.origins, m);
    }
  }

  lemma CreateKeepsLogged(port: Port, p: Past, a: Action)
    requires Logged(p) && a.Create?
    ensures Logged(Next(port, p, a))
  {
    hide Op.Create, EntriesLogged, MadeHolds, KeyHolds;
    var w := p.world;
    var r := Op.Create(port, w.ledger, a.opts, a.salt, a.draws, a.dataKey).0;
    if r.Ok? {
      CreateFacts(port, w.ledger, a.opts, a.salt, a.draws, a.dataKey);
      var doc := r.value.doc;
      assert doc == Doc(doc.header, [doc.keys[0]], []);
      NewDocKeepsLogged(p, Origin(doc.header, r.value.dataKey), doc.keys[0], Next(port, p, a));
    }
  }

  /** One document and its line change, and some seals are added to the log. */
  lemma ChangedKeepsLogged(p: Past, d: nat, line: Line, doc: Doc, more: set<Made>, next: Past)
    requires Logged(p) && d < |p.world.docs|
    requires next.world.docs == p.world.docs[d := doc] && next.world.blobs == p.world.blobs
    requires next.history == p.history.(lines := p.history.lines[d := line], made := p.history.made + more)
    requires forall m :: m in more ==> MadeHolds(p.history.origins, m)
    requires EntriesLogged(p.history.made + more, line, doc)
    ensures Logged(next)
  {
  }

  lemma UpsertLogged(made: set<Made>, line: Line, doc: Doc, entry: SealedSecret, value: Bytes)
    requires EntriesLogged(made, line, doc) && DistinctNames(doc.secrets)
    ensures EntriesLogged(made + {MadeSecret(line.origin, entry, value)}, Written(line, entry.name, value),
                          doc.(secrets := Upsert(doc.secrets, entry)))
  {
    UpsertMembers(doc.secrets, entry);
    var more := made + {MadeSecret(line.origin, entry, value)};
    forall s | s in Upsert(doc.secrets, entry) ensures SecretLogged(more, Written(line, entry.name, value), s) {
      if s == entry {
        assert MadeSecret(line.origin, entry, value) in more;
      } else {
        assert SecretLogged(made, line, s);
      }
    }
  }

  lemma PutKeepsLogged(port: Port, p: Past, s: nat, act: Act)
    requires Inv(p) && Logged(p) && HasSession(p.world, s) && act.Put?
    ensures Logged(Next(port, p, Use(s, act)))
  {
    hide Inv, Next, EntriesLogged, SecretHolds;
    var d, key := p.world.sessions[s].doc, p.world.sessions[s].key;
    var line, doc := p.history.lines[d], p.world.docs[d];
    DistinctAtRest(p, d);
    SessionAtRest(p, s);
    PutStep(port, p, s, act);
    var sealing := Op.Sealing(doc, key, act.name, act.secret, act.nonce);
    if sealing.Ok? {
      var entry, value := sealing.value, act.secret.bytes;
      SealingFacts(p.history.origins[line.origin], doc, key, act.name, act.secret, act.nonce);
      UpsertLogged(p.history.made, line, doc, entry, value);
      ChangedKeepsLogged(p, d, Written(line, act.name, value), doc.(secrets := Upsert(doc.secrets, entry)),
                         {MadeSecret(line.origin, entry, value)}, Next(port, p, Use(s, act)));
    }
  }

  lemma DeleteKeepsLogged(port: Port, p: Past, s: nat, act: Act)
    requires Inv(p) && Logged(p) && HasSession(p.world, s) && act.Delete?
    ensures Logged(Next(port, p, Use(s, act)))
  {
    hide Inv, Next, EntriesLogged, MadeHolds;
    var d, key := p.world.sessions[s].doc, p.world.sessions[s].key;
    var line, doc := p.history.lines[d], p.world.docs[d];
    DistinctAtRest(p, d);
    DeleteStep(port, p, s, act.name);
    var change := Op.Delete(doc, key, act.name);
    if change.0.None? {
      EraseLogged(p.history.made, line, doc, act.name);
      assert p.history.made + {} == p.history.made;
      ChangedKeepsLogged(p, d, Erased(line, act.name), change.1, {}, Next(port, p, Use(s, act)));
    }
  }

  lemma DistinctAtRest(p: Past, d: nat)
    requires Inv(p) && d < |p.world.docs|
    ensures d < |p.history.lines| && DistinctNames(p.world.docs[d].secrets)
  {
    assert DocHolds(p.history.origins, p.history.lines[d], p.world.docs[d]);
  }

  lemma SessionAtRest(p: Past, s: nat)
    requires Inv(p) && s < |p.world.sessions|
    ensures SessionHolds(p.history, p.world.docs, p.world.sessions[s], s in p.history.locked)
  {
  }

  lemma EraseLogged(made: set<Made>, line: Line, doc: Doc, name: Bytes)
    requires EntriesLogged(made, line, doc) && DistinctNames(doc.secrets)
    ensures EntriesLogged(made + {}, Erased(line, name), doc.(secrets := WithoutName(doc.secrets, name)))
  {
    WithoutNameMembers(doc.secrets, name);
    assert made + {} == made;
    forall s | s in WithoutName(doc.secrets, name) ensures SecretLogged(made, Erased(line, name), s) {
      assert SecretLogged(made, line, s);
    }
  }

  lemma AppendLogged(made: set<Made>, line: Line, doc: Doc, entry: SealedKey)
    requires EntriesLogged(made, line, doc)
    ensures EntriesLogged(made + {MadeKey(line.origin, Unlabelled(entry))}, line, doc.(keys := doc.keys + [entry]))
  {
    forall s | s in doc.secrets ensures SecretLogged(made + {MadeKey(line.origin, Unlabelled(entry))}, line, s) {
      assert SecretLogged(made, line, s);
    }
  }

  lemma EnrollKeyKeepsLogged(port: Port, p: Past, s: nat, act: Act)
    requires Inv(p) && Logged(p) && HasSession(p.world, s) && act.EnrollKey?
    ensures Logged(Next(port, p, Use(s, act)))
  {
    hide Inv, Next, EntriesLogged, KeyHolds, Op.Enrolling;
    var session := p.world.sessions[s];
    var line, doc := p.history.lines[session.doc], p.world.docs[session.doc];
    SessionAtRest(p, s);
    assert EntriesLogged(p.history.made, line, doc);
    EnrollKeyStep(port, p, s, act);
    SameDocs(p.history.lines, session.doc);
    var added := Op.Enrolling(port, p.world.ledger, doc, session.key, session.opts, act.slot, act.keyLabel, act.draws).0;
    var more := {};
    if added.Err? {
      assert p.history.made + more == p.history.made;
    } else {
      EnrollingFacts(port, p.world.ledger, doc, session.key, session.opts, act.slot, act.keyLabel, act.draws);
      UnlabelledHolds(p.history.origins[line.origin], added.value.0);
      AppendLogged(p.history.made, line, doc, added.value.0);
      more := {MadeKey(line.origin, Unlabelled(added.value.0))};
    }
    ChangedKeepsLogged(p, session.doc, line, Op.WithKey(doc, added).1, more, Next(port, p, Use(s, act)));
  }

  lemma RemoveLogged(made: set<Made>, line: Line, doc: Doc, slot: int)
    requires EntriesLogged(made, line, doc)
    ensures EntriesLogged(made + {}, line, doc)
    ensures EntriesLogged(made + {}, line, doc.(keys := WithoutSlot(doc.keys, slot)))
  {
    WithoutSlotMembers(doc.keys, slot);
    assert made + {} == made;
  }

  lemma RemovalKeepsLogged(port: Port, p: Past, s: nat, act: Act)
    requires Logged(p) && HasSession(p.world, s) && (act.RemoveKey? || act.ForceRemoveKey?)
    ensures Logged(Next(port, p, Use(s, act)))
  {
    hide Next, EntriesLogged, MadeHolds;
    var d, key := p.world.sessions[s].doc, p.world.sessions[s].key;
    var line, doc := p.history.lines[d], p.world.docs[d];
    assert EntriesLogged(p.history.made, line, doc);
    RemovalStep(port, p, s, act);
    RemoveLogged(p.history.made, line, doc, act.slot);
    SameDocs(p.history.lines, d);
    assert p.history.made + {} == p.history.made;
    ChangedKeepsLogged(p, d, line, Removal(doc, key, act).1, {}, Next(port, p, Use(s, act)));
  }

  lemma SealKeepsLogged(port: Port, p: Past, s: nat)
    requires Inv(p) && Logged(p) && HasSession(p.world, s)
    ensures Logged(Next(port, p, Use(s, Seal)))
  {
    hide EntriesLogged, MadeHolds, Inv;
    var d := p.world.sessions[s].doc;
    CopyLogged(p.history.made, p.history.lines[d], p.world.docs[d]);
  }

  lemma CopyLogged(made: set<Made>, line: Line, doc: Doc)
    requires EntriesLogged(made, line, doc)
    ensures EntriesLogged(made, CopyOf(line), CoerceDoc(doc))
  {
    var r := CoerceDoc(doc);
    forall k | k in r.keys ensures MadeKey(line.origin, Unlabelled(k)) in made {
      var i :| 0 <= i < |r.keys| && r.keys[i] == k;
      assert doc.keys[i] in doc.keys && Unlabelled(k) == Unlabelled(doc.keys[i]);
    }
    forall s | s in r.secrets ensures SecretLogged(made, CopyOf(line), s) {
      var i :| 0 <= i < |r.secrets| && r.secrets[i] == s;
      assert SecretLogged(made, line, doc.secrets[i]);
    }
  }

  lemma QuietKeepsLogged(port: Port, p: Past, s: nat, act: Act)
    requires Logged(p) && HasSession(p.world, s) && (act.Open? || act.Lock?)
    ensures Logged(Next(port, p, Use(s, act)))
  {
    hide EntriesLogged, MadeHolds;
  }

  lemma UseKeepsLogged(port: Port, p: Past, s: nat, act: Act)
    requires Inv(p) && Logged(p) && HasSession(p.world, s)
    ensures Logged(Next(port, p, Use(s, act)))
  {
    hide Inv, Logged, Next;
    match act
    case Open(_) => QuietKeepsLogged(port, p, s, act);
    case Put(_, _, _) => PutKeepsLogged(port, p, s, act);
    case Delete(_) => DeleteKeepsLogged(port, p, s, act);
    case EnrollKey(_, _, _) => EnrollKeyKeepsLogged(port, p, s, act);
    case RemoveKey(_) => RemovalKeepsLogged(port, p, s, act);
    case ForceRemoveKey(_) => RemovalKeepsLogged(port, p, s, act);
    case Lock => QuietKeepsLogged(port, p, s, act);
    case Seal => SealKeepsLogged(port, p, s);
  }

  lemma OpenWithKeepsLogged(port: Port, p: Past, a: Action)
    requires Inv(p) && Logged(p) && a.OpenWith?
    ensures Logged(Next(port, p, a))
  {
    hide EntriesLogged, MadeHolds, WellFormed, InStep;
  }

  lemma UnlockKeepsLogged(port: Port, p: Past, a: Action)
    requires Logged(p) && a.Unlock?
    ensures Logged(Next(port, p, a))
  {
    hide EntriesLogged, MadeHolds, Op.Unlock;
  }

  lemma StepKeepsLogged(port: Port, p: Past, a: Action)
    requires Inv(p) && Logged(p)
    ensures Logged(Next(port, p, a))
  {
    hide Inv, Logged, Next;
    match a
    case Create(_, _, _, _) => CreateKeepsLogged(port, p, a);
    case OpenWith(_, _) => OpenWithKeepsLogged(port, p, a);
    case Unlock(_) => UnlockKeepsLogged(port, p, a);
    case Use(s, act) =>
      if HasSession(p.world, s) {
        UseKeepsLogged(port, p, s, act);
      } else {
        NoSessionNoStep(port, p, s, act);
      }
  }

  lemma FollowingKeepsLogged(port: Port, p: Past, a: Action, q: Past)
    requires Inv(p) && Logged(p) && Follows(port, p, a, q)
    ensures Inv(q) && Logged(q)
  {
    hide Inv, Logged, Next;
    StepKeepsInv(port, p, a);
    StepKeepsLogged(port, p, a);
  }

  lemma NothingLoggedYet()
    ensures Inv(FROM_NOTHING) && Logged(FROM_NOTHING)
  {
  }

  lemma ReachableIsLogged(port: Port, p: Past)
    requires Reachable(port, p)
    ensures Inv(p) && Logged(p)
  {
    hide Inv, Logged, Follows;
    var actions :| Reaches(port, FROM_NOTHING, actions, p);
    var trace: seq<Past> :| IsTrace(port, trace, actions) && trace[0] == FROM_NOTHING && trace[|actions|] == p;
    NothingLoggedYet();
    for i := 0 to |actions|
      invariant Inv(trace[i]) && Logged(trace[i])
    {
      FollowingKeepsLogged(port, trace[i], actions[i], trace[i + 1]);
    }
  }

  // ----- The header is frozen before the first seal -----

  ghost predicate SameHeaders(w: World, w': World) {
    |w.docs| <= |w'.docs| && forall d :: 0 <= d < |w.docs| ==> w'.docs[d].header == w.docs[d].header
  }

  /** A document never changes its header once it exists, and no document goes away. */
  lemma HeadersNeverChange(port: Port, p: Past, actions: seq<Action>, q: Past)
    requires Reaches(port, p, actions, q)
    ensures SameHeaders(p.world, q.world)
  {
    hide Next;
    var trace: seq<Past> :| IsTrace(port, trace, actions) && trace[0] == p && trace[|actions|] == q;
    for i := 0 to |actions|
      invariant SameHeaders(p.world, trace[i].world)
    {
      StepKeepsHeaders(port, trace[i], actions[i]);
    }
  }

  lemma StepKeepsHeaders(port: Port, p: Past, a: Action)
    ensures SameHeaders(p.world, Next(port, p, a).world)
  {
  }

  /** Every seal a run ever made, replaced or not, still opens in every document descended from the same Create
      that kept its RP ID: all of them were made under the final header. Nothing marks an older seal of a name as
      stale. A document whose RP ID did not survive a sealed copy opens none of them. */
  lemma EverySealStillOpens(port: Port, p: Past, m: Made, d: nat)
    requires Reachable(port, p) && m in p.history.made
    requires d < |p.world.docs| && d < |p.history.lines| && p.history.lines[d].origin == m.origin
    ensures m.origin < |p.history.origins|
    ensures var h, o := p.world.docs[d].header, p.history.origins[m.origin];
      && (h == o.header || (h == CoerceHeader(o.header) && !ValidUtf8(o.header.rpID)))
      && match m
         case MadeKey(_, key) =>
           && key.wrapped.Box? && key.wrapped.key.Hkdf?
           && UnwrapDataKey(h, key, key.wrapped.key.prf)
              == if h == o.header then Ok(o.dataKey) else Err(AuthenticationFailed)
         case MadeSecret(_, secret, plaintext) =>
           OpenSecret(h, o.dataKey, secret) == if h == o.header then Ok(plaintext) else Err(AuthenticationFailed)
  {
    ReachableIsLogged(port, p);
    assert MadeHolds(p.history.origins, m);
    assert DocHolds(p.history.origins, p.history.lines[d], p.world.docs[d]);
    var o := p.history.origins[m.origin];
    assert OriginHolds(o);
    CoerceFixesExactlyUtf8(o.header.rpID);
    match m
    case MadeKey(_, key) => CoercedKeyAad(o.header, key.slot, key.credentialID);
    case MadeSecret(_, secret, _) => GrownRpIDShows(o.header, secret.name);
  }

  lemma GrownRpIDShows(h: Header, name: Bytes)
    ensures SecretAad(CoerceHeader(h), name) == SecretAad(h, name) <==> ValidUtf8(h.rpID)
  {
    CoerceNeverShrinks(h.rpID);
    CoerceFixesExactlyUtf8(h.rpID);
    GrownFieldsShow(h, [KIND_SECRET], name, Coerce(h.rpID), name);
  }

  // ----- Documents edited at will -----

  /** Keys that never leave the library or the device: the data keys, and what is derived from device outputs. */
  ghost predicate Unexposed(device: Device, h: History, key: AeadKey) {
    match key
    case Raw(bytes) => exists o :: 0 <= o < |h.origins| && h.origins[o].dataKey == bytes
    case Hkdf(prf, _) => exists c, uv, salt :: prf == device(c, uv, salt)
  }

  function BoxOf(m: Made): Box {
    match m
    case MadeKey(_, key) => key.wrapped
    case MadeSecret(_, secret, _) => secret.ciphertext
  }

  /** A box under such a key can only be one that some seal of the run made. */
  ghost predicate Unforged(device: Device, h: History, box: Box) {
    box.Box? && Unexposed(device, h, box.key) ==> exists m :: m in h.made && BoxOf(m) == box
  }

  /** Any document at all: any header, any entries, in any place, under any name, with any box that is
      junk, someone else's, or copied from anywhere in the run. */
  ghost predicate Edited(device: Device, h: History, doc: Doc) {
    && (forall k :: k in doc.keys ==> Unforged(device, h, k.wrapped))
    && (forall s :: s in doc.secrets ==> Unforged(device, h, s.ciphertext))
  }

  ghost predicate DocFits(doc: Doc) {
    && HeaderFits(doc.header)
    && (forall k :: k in doc.keys ==> |k.credentialID| < TWO32)
    && (forall s :: s in doc.secrets ==> |s.name| < TWO32)
  }

  ghost predicate HistoryFits(h: History) {
    && (forall i :: 0 <= i < |h.origins| ==> HeaderFits(h.origins[i].header))
    && (forall m :: m in h.made ==>
          match m case MadeKey(_, key) => |key.credentialID| < TWO32 case MadeSecret(_, s, _) => |s.name| < TWO32)
  }

  /** The vault a successful unlock of an edited document must belong to, and the entry it went through. */
  ghost predicate BelongsTo(p: Past, doc: Doc, credentialID: Bytes, dataKey: Bytes, o: nat) {
    && o < |p.history.origins|
    && doc.header == p.history.origins[o].header && dataKey == p.history.origins[o].dataKey
    && exists k, original :: k in doc.keys && MadeKey(o, original) in p.history.made
         && k.credentialID == credentialID == original.credentialID
         && k.slot % TWO32 == original.slot % TWO32 && k.wrapped == original.wrapped
  }

  /** If an edited document unlocks at all, its header is an original one, the data key is that vault's own, and
      the entry that answered sits at its own credential and at its own slot modulo 2^32. */
  lemma EditedDocumentUnlocksAsSealed(device: Device, p: Past, doc: Doc, answer: DeriveResult) returns (o: nat)
    requires Inv(p) && Logged(p) && HistoryFits(p.history)
    requires WellFormed(doc) && DocFits(doc) && Edited(device, p.history, doc)
    requires answer.secret == device(answer.credentialID, answer.userVerified, doc.header.salt)
    requires Op.DataKeyFrom(doc, Ok(answer)).Ok?
    ensures BelongsTo(p, doc, answer.credentialID, Op.DataKeyFrom(doc, Ok(answer)).value, o)
  {
    FindKeyIsMember(doc.keys, answer.credentialID);
    var k := FindKey(doc.keys, answer.credentialID).value;
    assert k.wrapped.key == Hkdf(answer.secret, doc.header.salt);
    assert Unexposed(device, p.history, k.wrapped.key);
    var m :| m in p.history.made && BoxOf(m) == k.wrapped;
    assert MadeHolds(p.history.origins, m);
    o := m.origin;
    var origin := p.history.origins[o];
    assert OriginHolds(origin);
    KeyAadInjective(doc.header, k.slot, k.credentialID, origin.header, m.key.slot, m.key.credentialID);
  }

  /** Two origins are the same vault to every seal: same header, same data key. Creating two vaults under one header
      takes the same salt drawn twice. */
  ghost predicate SameVault(h: History, o: nat, o': nat) {
    o < |h.origins| && o' < |h.origins| && h.origins[o] == h.origins[o']
  }

  /** And whatever it then reads under a name was put under exactly that name in exactly that vault. */
  lemma EditedDocumentReadsAsSealed(device: Device, p: Past, doc: Doc, answer: DeriveResult, name: Bytes, o: nat)
    returns (o': nat, secret: SealedSecret)
    requires Inv(p) && Logged(p) && HistoryFits(p.history)
    requires WellFormed(doc) && DocFits(doc) && Edited(device, p.history, doc)
    requires Op.DataKeyFrom(doc, Ok(answer)).Ok?
    requires BelongsTo(p, doc, answer.credentialID, Op.DataKeyFrom(doc, Ok(answer)).value, o)
    requires Op.Open(doc, Some(Op.DataKeyFrom(doc, Ok(answer)).value), name).Ok?
    ensures SameVault(p.history, o, o') && secret.name == name
    ensures MadeSecret(o', secret, Op.Open(doc, Some(Op.DataKeyFrom(doc, Ok(answer)).value), name).value) in p.history.made
  {
    var dataKey := p.history.origins[o].dataKey;
    FindSecretIsMember(doc.secrets, name);
    var s := FindSecret(doc.secrets, name).value;
    assert s.ciphertext.key == Raw(dataKey);
    assert Unexposed(device, p.history, s.ciphertext.key);
    var m :| m in p.history.made && BoxOf(m) == s.ciphertext;
    assert MadeHolds(p.history.origins, m);
    o', secret := m.origin, m.secret;
    var origin := p.history.origins[o'];
    assert OriginHolds(origin) && OriginHolds(p.history.origins[o]);
    SecretAadInjective(doc.header, s.name, origin.header, secret.name);
  }

  /** Both, for every reachable state of every run. */
  lemma IntegrityUnderEditing(port: Port, device: Device, p: Past, doc: Doc, answer: DeriveResult, name: Bytes)
    requires Reachable(port, p) && HistoryFits(p.history)
    requires WellFormed(doc) && DocFits(doc) && Edited(device, p.history, doc)
    requires answer.secret == device(answer.credentialID, answer.userVerified, doc.header.salt)
    ensures var key := Op.DataKeyFrom(doc, Ok(answer));
      key.Ok? ==>
        exists o: nat :: BelongsTo(p, doc, answer.credentialID, key.value, o)
          && var plaintext := Op.Open(doc, Some(key.value), name);
             plaintext.Ok? ==> exists o': nat, secret: SealedSecret ::
               SameVault(p.history, o, o') && secret.name == name
               && MadeSecret(o', secret, plaintext.value) in p.history.made
  {
    hide Inv, Logged, Edited, DocFits, HistoryFits, WellFormed;
    ReachableIsLogged(port, p);
    var key := Op.DataKeyFrom(doc, Ok(answer));
    if key.Ok? {
      var o := EditedDocumentUnlocksAsSealed(device, p, doc, answer);
      if Op.Open(doc, Some(key.value), name).Ok? {
        var o', secret := EditedDocumentReadsAsSealed(device, p, doc, answer, name, o);
      }
    }
  }

  /** Every document of a run, and every sealed copy, is itself one such document: its boxes are seals of the run. */
  lemma ReachableDocumentsAreEdits(port: Port, device: Device, p: Past)
    requires Reachable(port, p)
    ensures forall d :: 0 <= d < |p.world.docs| ==> Edited(device, p.history, p.world.docs[d])
    ensures forall b :: 0 <= b < |p.world.blobs| ==>
      p.world.blobs[b].Decoded? && Edited(device, p.history, p.world.blobs[b].doc)
  {
    ReachableIsLogged(port, p);
    forall line: Line, doc: Doc | EntriesLogged(p.history.made, line, doc) ensures Edited(device, p.history, doc) {
      forall k | k in doc.keys ensures Unforged(device, p.history, k.wrapped) {
        assert BoxOf(MadeKey(line.origin, Unlabelled(k))) == k.wrapped;
      }
      forall s | s in doc.secrets ensures Unforged(device, p.history, s.ciphertext) {
        assert SecretLogged(p.history.made, line, s);
      }
    }
    assert forall d :: 0 <= d < |p.world.docs| ==> EntriesLogged(p.history.made, p.history.lines[d], p.world.docs[d]);
    assert forall b :: 0 <= b < |p.world.blobs| ==>
      EntriesLogged(p.history.made, p.history.blobs[b], p.world.blobs[b].doc);
  }
}
