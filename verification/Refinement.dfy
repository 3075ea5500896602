/** Whole runs refine a plain map: what an unlocked session reads is what was last put and not deleted,
    whatever the authenticators answer, across any number of sealed copies and reopened vaults. */
module Refinement {
  import opened Common
  import opened Aad
  import opened Document
  import opened Authenticators
  import opened Entropy
  import opened Wire
  import opened Runs
  import Op = Operations

  // ----- What a successful enrollment has done -----

  lemma EnrollAndDeriveFacts(port: Port, ledger: seq<Call>, rpID: Bytes, salt: Bytes, opts: Op.Options,
                             uv: UserVerification, userID: Option<UserID>)
    requires Op.EnrollAndDerive(port, ledger, rpID, salt, opts, uv, userID).0.Ok?
    ensures var (r, l) := Op.EnrollAndDerive(port, ledger, rpID, salt, opts, uv, userID);
      var (cred, derived) := (r.value.cred, r.value.derived);
      && cred.credentialID != [] && derived.userPresent && derived.secret != []
      && !cred.residentKey && opts.roots(cred).None?
      && |l| == |ledger| + 2 && l[..|ledger|] == ledger && l[|ledger|].EnrollCall?
      && l[|ledger| + 1] == DeriveCall(DeriveRequest(rpID, [cred.credentialID], salt, uv), Ok(derived))
      && port.derive(|ledger| + 1, DeriveRequest(rpID, [cred.credentialID], salt, uv)) == Ok(derived)
  {
  }

  lemma GateFacts(port: Port, ledger: seq<Call>, rpID: Bytes, credentialID: Bytes, salt: Bytes, realOutput: Bytes,
                  uv: UserVerification, observedUV: bool)
    requires Gate(port, ledger, rpID, credentialID, salt, realOutput, uv, observedUV).0 == None
    ensures var l := Gate(port, ledger, rpID, credentialID, salt, realOutput, uv, observedUV).1;
      && |salt| == SALT_LEN && |l| == |ledger| + 1 && l[..|ledger|] == ledger
      && l[|ledger|].DeriveCall? && l[|ledger|].request == ProbeRequest(rpID, credentialID, salt, uv)
      && Judge(l[|ledger|].answer, realOutput, observedUV) == None
  {
  }

  /** On success Create leaves one entry, wrapped under a finished header, and has spent three gestures. */
  lemma CreateFacts(port: Port, ledger: seq<Call>, opts: Op.Options, salt: Option<Salt>, draws: Op.Draws,
                    dataKey: Option<DataKey>)
    requires Op.Create(port, ledger, opts, salt, draws, dataKey).0.Ok?
    ensures var (r, l) := Op.Create(port, ledger, opts, salt, draws, dataKey);
      var (doc, derived) := (r.value.doc, r.value.derived);
      && opts.rpID != [] && salt.Some? && dataKey == Some(r.value.dataKey)
      && doc.header == Header(FORMAT_VERSION, opts.rpID, derived.userVerified, true, salt.value)
      && doc.secrets == [] && |doc.keys| == 1 && doc.keys[0].slot == Op.FIRST_SLOT && doc.keys[0].credentialID != []
      && KeyHolds(Origin(doc.header, r.value.dataKey), doc.keys[0])
      && doc.keys[0].wrapped.key.prf == derived.secret && derived.userPresent
      && |l| == |ledger| + 3 && l[..|ledger|] == ledger
      && l[|ledger|].EnrollCall? && l[|ledger| + 2].DeriveCall?
      && l[|ledger| + 1]
         == DeriveCall(DeriveRequest(opts.rpID, [doc.keys[0].credentialID], salt.value, UVDiscouraged), Ok(derived))
      && l[|ledger| + 2].request == ProbeRequest(opts.rpID, doc.keys[0].credentialID, salt.value, UVDiscouraged)
      && Judge(l[|ledger| + 2].answer, derived.secret, derived.userVerified) == None
  {
    var (enrolled, l1) := Op.EnrollAndDerive(port, ledger, opts.rpID, salt.value, opts, UVDiscouraged, draws.userID);
    EnrollAndDeriveFacts(port, ledger, opts.rpID, salt.value, opts, UVDiscouraged, draws.userID);
    var en := enrolled.value;
    GateFacts(port, l1, opts.rpID, en.cred.credentialID, salt.value, en.derived.secret, UVDiscouraged,
              en.derived.userVerified);
    var l2 := Gate(port, l1, opts.rpID, en.cred.credentialID, salt.value, en.derived.secret, UVDiscouraged,
                   en.derived.userVerified).1;
    assert l2[..|ledger|] == l2[..|l1|][..|ledger|] == ledger;
    assert l2[|ledger|] == l2[..|l1|][|ledger|] && l2[|ledger| + 1] == l2[..|l1|][|ledger| + 1];
  }

  /** On success EnrollKey adds one entry in a free slot for a new credential, wrapped under the unchanged header. */
  lemma EnrollingFacts(port: Port, ledger: seq<Call>, doc: Doc, key: Option<Bytes>, opts: Op.Options, slot: int,
                       keyLabel: Bytes, draws: Op.Draws)
    requires Op.Enrolling(port, ledger, doc, key, opts, slot, keyLabel, draws).0.Ok?
    ensures var (r, l) := Op.Enrolling(port, ledger, doc, key, opts, slot, keyLabel, draws);
      var (entry, derived) := r.value;
      && key.Some? && entry.slot == slot >= 0 && slot !in SlotSet(doc.keys)
      && entry.credentialID != [] && entry.credentialID !in CredentialSet(doc.keys)
      && KeyHolds(Origin(doc.header, key.value), entry) && entry.wrapped.key.prf == derived.secret
      && derived.userPresent && derived.userVerified == doc.header.userVerified
      && |l| == |ledger| + 3 && l[..|ledger|] == ledger
      && l[|ledger|].EnrollCall? && l[|ledger| + 2].DeriveCall?
      && |doc.header.salt| == SALT_LEN
      && l[|ledger| + 1] == DeriveCall(DeriveRequest(doc.header.rpID, [entry.credentialID], doc.header.salt,
                                                     Op.UvRequirement(doc.header)), Ok(derived))
      && l[|ledger| + 2].request
         == ProbeRequest(doc.header.rpID, entry.credentialID, doc.header.salt, Op.UvRequirement(doc.header))
      && Judge(l[|ledger| + 2].answer, derived.secret, derived.userVerified) == None
  {
    var h, uv := doc.header, Op.UvRequirement(doc.header);
    var (enrolled, l1) := Op.EnrollAndDerive(port, ledger, h.rpID, h.salt, opts, uv, draws.userID);
    EnrollAndDeriveFacts(port, ledger, h.rpID, h.salt, opts, uv, draws.userID);
    var en := enrolled.value;
    GateFacts(port, l1, h.rpID, en.cred.credentialID, h.salt, en.derived.secret, uv, en.derived.userVerified);
    var l2 := Gate(port, l1, h.rpID, en.cred.credentialID, h.salt, en.derived.secret, uv, en.derived.userVerified).1;
    assert l2[..|ledger|] == l2[..|l1|][..|ledger|] == ledger;
    assert l2[|ledger|] == l2[..|l1|][|ledger|] && l2[|ledger| + 1] == l2[..|l1|][|ledger| + 1];
  }

  lemma SealingFacts(o: Origin, doc: Doc, key: Option<Bytes>, name: Bytes, secret: Op.Reader, nonce: Option<Nonce>)
    requires doc.header == o.header && (key.Some? ==> key.value == o.dataKey)
    requires Op.Sealing(doc, key, name, secret, nonce).Ok?
    ensures var entry := Op.Sealing(doc, key, name, secret, nonce).value;
      secret.Reads? && entry.name == name != [] && SecretHolds(o, entry, secret.bytes)
  {
  }

  // ----- Each update keeps the document in step with its line -----

  lemma AppendKeyHolds(o: Origin, keys: seq<SealedKey>, entry: SealedKey)
    requires KeysHold(o, keys) && KeyHolds(o, entry)
    requires entry.slot >= 0 && entry.slot !in SlotSet(keys)
    requires entry.credentialID != [] && entry.credentialID !in CredentialSet(keys)
    ensures KeysHold(o, keys + [entry])
  {
    var r := keys + [entry];
    forall i, j | 0 <= i < j < |r| ensures r[i].slot != r[j].slot && r[i].credentialID != r[j].credentialID {
      assert r[i] == keys[i] && keys[i] in keys;
    }
  }

  lemma RemoveKeyHolds(o: Origin, keys: seq<SealedKey>, slot: int)
    requires KeysHold(o, keys)
    ensures KeysHold(o, WithoutSlot(keys, slot))
  {
    WithoutSlotWellFormed(keys, slot);
    WithoutSlotMembers(keys, slot);
  }

  lemma UpsertWellFormed(secrets: seq<SealedSecret>, entry: SealedSecret)
    requires SecretsWellFormed(secrets) && entry.name != []
    ensures SecretsWellFormed(Upsert(secrets, entry))
  {
    UpsertMembers(secrets, entry);
  }

  lemma EraseWellFormed(secrets: seq<SealedSecret>, name: Bytes)
    requires SecretsWellFormed(secrets)
    ensures SecretsWellFormed(WithoutName(secrets, name))
  {
    WithoutNameMembers(secrets, name);
  }

  lemma UpsertHolds(o: Origin, secrets: seq<SealedSecret>, contents: map<Bytes, Cell>, entry: SealedSecret, value: Bytes)
    requires SecretsHold(o, secrets, contents) && entry.name != [] && SecretHolds(o, entry, value)
    ensures SecretsHold(o, Upsert(secrets, entry), contents[entry.name := Kept(value)])
  {
    UpsertMembers(secrets, entry);
    var r := Upsert(secrets, entry);
    forall n ensures n in NameSet(r) <==> n in contents[entry.name := Kept(value)] {
      if n == entry.name {
        assert entry in r;
      } else if n in contents {
        var s :| s in secrets && s.name == n;
        assert s in r;
      }
    }
  }

  lemma EraseNames(secrets: seq<SealedSecret>, name: Bytes)
    requires DistinctNames(secrets)
    ensures NameSet(WithoutName(secrets, name)) == NameSet(secrets) - {name}
  {
    WithoutNameMembers(secrets, name);
    var r := WithoutName(secrets, name);
    forall n | n in NameSet(secrets) - {name} ensures n in NameSet(r) {
      var s :| s in secrets && s.name == n;
      assert s in r;
    }
  }

  lemma EraseHolds(o: Origin, secrets: seq<SealedSecret>, contents: map<Bytes, Cell>, name: Bytes)
    requires SecretsHold(o, secrets, contents)
    ensures SecretsHold(o, WithoutName(secrets, name), contents - {name})
  {
    WithoutNameMembers(secrets, name);
    EraseNames(secrets, name);
  }

  // ----- What a sealed copy keeps -----

  lemma CoercedHeaderHolds(h: Header, h': Header)
    requires HeaderHolds(h, h')
    ensures HeaderHolds(h, CoerceHeader(h'))
  {
    CoerceYieldsUtf8(h.rpID);
    CoerceFixesExactlyUtf8(Coerce(h.rpID));
  }

  lemma CoercedKeysHold(o: Origin, doc: Doc)
    requires KeysHold(o, doc.keys)
    ensures KeysHold(o, CoerceDoc(doc).keys)
  {
    CoerceKeepsKeys(doc);
    var r := CoerceDoc(doc).keys;
    forall k | k in r ensures KeyHolds(o, k) {
      var i :| 0 <= i < |r| && r[i] == k;
      assert doc.keys[i] in doc.keys;
    }
  }

  lemma CoerceKeepsReadableNames(doc: Doc)
    requires forall n :: n in NameSet(doc.secrets) ==> ValidUtf8(n)
    ensures CoerceDoc(doc).secrets == doc.secrets
  {
    var r := CoerceDoc(doc).secrets;
    forall i | 0 <= i < |r| ensures r[i] == doc.secrets[i] {
      assert doc.secrets[i].name in NameSet(doc.secrets);
      CoerceFixesExactlyUtf8(doc.secrets[i].name);
    }
  }

  lemma CopiedNamesHold(doc: Doc, contents: map<Bytes, Cell>)
    requires NameSet(doc.secrets) == contents.Keys
    ensures NameSet(CoerceDoc(doc).secrets) == Copied(contents).Keys
  {
    var r := CoerceDoc(doc).secrets;
    forall n ensures n in NameSet(r) <==> n in CopiedNames(contents) {
      if n in NameSet(r) {
        var s :| s in r && s.name == n;
        var i :| 0 <= i < |r| && r[i] == s;
        assert doc.secrets[i].name in NameSet(doc.secrets);
      }
      if n in CopiedNames(contents) {
        var m :| m in contents && Coerce(m) == n;
        assert m in NameSet(doc.secrets);
        var s :| s in doc.secrets && s.name == m;
        var i :| 0 <= i < |r| && doc.secrets[i] == s;
        assert r[i] in r && r[i].name == n;
      }
    }
  }

  /** In a copy that parses, the new spelling of a name that JSON rewrites is no other entry's name. */
  lemma RewrittenNameIsNew(doc: Doc, i: nat)
    requires i < |doc.secrets| && Coerce(doc.secrets[i].name) != doc.secrets[i].name
    requires DistinctNames(CoerceDoc(doc).secrets)
    ensures Coerce(doc.secrets[i].name) !in NameSet(doc.secrets)
  {
    var r := CoerceDoc(doc).secrets;
    CoerceYieldsUtf8(doc.secrets[i].name);
    forall t | t in doc.secrets ensures t.name != Coerce(doc.secrets[i].name) {
      var j :| 0 <= j < |doc.secrets| && doc.secrets[j] == t;
      if j != i {
        CoerceFixesExactlyUtf8(t.name);
        assert r[j].name != r[i].name;
      }
    }
  }

  lemma CopiedCellHolds(o: Origin, doc: Doc, contents: map<Bytes, Cell>, i: nat)
    requires SecretsHold(o, doc.secrets, contents) && i < |doc.secrets|
    requires DistinctNames(CoerceDoc(doc).secrets)
    ensures var s := CoerceDoc(doc).secrets[i];
      s.name in Copied(contents) && CellHolds(o, s, Copied(contents)[s.name])
  {
    var was := doc.secrets[i];
    var name := Coerce(was.name);
    assert was in doc.secrets;
    CoerceFixesExactlyUtf8(was.name);
    CoerceYieldsUtf8(was.name);
    assert name in CopiedNames(contents);
    if name != was.name {
      RewrittenNameIsNew(doc, i);
      CoerceNeverShrinks(was.name);
      GrownFieldsShow(o.header, [KIND_SECRET], was.name, o.header.rpID, name);
      assert o.header.(rpID := o.header.rpID) == o.header;
    }
  }

  lemma CopiedSecretsHold(o: Origin, doc: Doc, contents: map<Bytes, Cell>)
    requires SecretsHold(o, doc.secrets, contents) && SecretsWellFormed(CoerceDoc(doc).secrets)
    ensures SecretsHold(o, CoerceDoc(doc).secrets, Copied(contents))
  {
    CopiedNamesHold(doc, contents);
    var r := CoerceDoc(doc).secrets;
    forall s | s in r ensures s.name in Copied(contents) && CellHolds(o, s, Copied(contents)[s.name]) {
      var i :| 0 <= i < |r| && r[i] == s;
      CopiedCellHolds(o, doc, contents, i);
    }
  }

  lemma MarshalHolds(origins: seq<Origin>, line: Line, doc: Doc)
    requires DocHolds(origins, line, doc)
    ensures CopyHolds(origins, CopyOf(line), CoerceDoc(doc))
  {
    var o, copy := origins[line.origin], CoerceDoc(doc);
    CoercedHeaderHolds(o.header, doc.header);
    CoercedKeysHold(o, doc);
    CopiedNamesHold(doc, line.contents);
    if copy.header == o.header && SecretsWellFormed(copy.secrets) {
      CoerceFixesExactlyUtf8(o.header.rpID);
      CoerceFixesExactlyUtf8(doc.header.rpID);
      CoercedHeaderStays(o.header, doc.header);
      CopiedSecretsHold(o, doc, line.contents);
    }
  }

  lemma CoercedHeaderStays(h: Header, h': Header)
    requires HeaderHolds(h, h') && CoerceHeader(h') == h
    ensures h' == h
  {
    CoerceYieldsUtf8(h.rpID);
    CoerceFixesExactlyUtf8(Coerce(h.rpID));
    CoerceYieldsUtf8(h'.rpID);
    CoerceFixesExactlyUtf8(h.rpID);
  }

  lemma HoldsMeansWellFormed(origins: seq<Origin>, line: Line, doc: Doc)
    requires DocHolds(origins, line, doc) && OriginHolds(origins[line.origin])
    ensures WellFormed(doc)
  {
  }

  // ----- Unlocking and reading -----

  /** Whatever the authenticator answers, a data key that comes out is the right one, and the header it came out
      under is the one it was wrapped under. */
  lemma UnlockYieldsTheDataKey(o: Origin, doc: Doc, answer: Result<DeriveResult>)
    requires HeaderHolds(o.header, doc.header) && KeysHold(o, doc.keys)
    requires Op.DataKeyFrom(doc, answer).Ok?
    ensures Op.DataKeyFrom(doc, answer) == Ok(o.dataKey) && doc.header == o.header
  {
    FindKeyIsMember(doc.keys, answer.value.credentialID);
    var k := FindKey(doc.keys, answer.value.credentialID).value;
    assert KeyHolds(o, k);
    CoercedKeyAad(o.header, k.slot, k.credentialID);
    CoerceFixesExactlyUtf8(o.header.rpID);
  }

  /** What a plain map answers. */
  function Lookup(contents: map<Bytes, Cell>, name: Bytes): Result<Bytes> {
    if name !in contents then Err(NoSuchSecret)
    else match contents[name] case Kept(value) => Ok(value) case Spoilt => Err(AuthenticationFailed)
  }

  /** Reading through the right data key is looking the name up in the plain map. */
  lemma ReadingIsLookup(o: Origin, doc: Doc, contents: map<Bytes, Cell>, name: Bytes)
    requires OriginHolds(o) && doc.header == o.header && SecretsHold(o, doc.secrets, contents)
    ensures Op.Open(doc, Some(o.dataKey), name) == Lookup(contents, name)
  {
    FindSecretIsMember(doc.secrets, name);
  }

  // ----- One step -----

  lemma DocsHoldAfterUpdate(origins: seq<Origin>, lines: seq<Line>, docs: seq<Doc>, d: nat, line: Line, doc: Doc)
    requires DocsHold(origins, lines, docs) && d < |docs| && DocHolds(origins, line, doc)
    ensures DocsHold(origins, lines[d := line], docs[d := doc])
  {
  }

  lemma SessionsHoldAfterUpdate(h: History, docs: seq<Doc>, sessions: seq<Sess>, d: nat, line: Line, doc: Doc)
    requires SessionsHold(h, docs, sessions) && d < |docs| == |h.lines|
    requires line.origin == h.lines[d].origin && doc.header == docs[d].header
    ensures SessionsHold(h.(lines := h.lines[d := line]), docs[d := doc], sessions)
  {
    var h', docs' := h.(lines := h.lines[d := line]), docs[d := doc];
    forall s | 0 <= s < |sessions| ensures SessionHolds(h', docs', sessions[s], s in h.locked) {
      assert SessionHolds(h, docs, sessions[s], s in h.locked);
    }
  }

  lemma SameDocs(lines: seq<Line>, d: nat)
    requires d < |lines|
    ensures lines[d := lines[d]] == lines
  {
  }

  /** One document and its line change together; the log, the ledger and nothing else may have grown. */
  lemma ChangedKeepsInv(p: Past, d: nat, line: Line, doc: Doc, q: Past)
    requires Inv(p) && d < |p.world.docs|
    requires line.origin == p.history.lines[d].origin && doc.header == p.world.docs[d].header
    requires DocHolds(p.history.origins, line, doc)
    requires q.world == WithDoc(p.world, d, doc).(ledger := q.world.ledger)
    requires q.history == p.history.(lines := p.history.lines[d := line], made := q.history.made)
    ensures Inv(q)
  {
    hide DocHolds, CopyHolds, SessionHolds;
    DocsHoldAfterUpdate(p.history.origins, p.history.lines, p.world.docs, d, line, doc);
    SessionsHoldAfterUpdate(p.history, p.world.docs, p.world.sessions, d, line, doc);
    assert SessionsHold(q.history, q.world.docs, q.world.sessions) by {
      SessionsIgnoreTheLog(p.history.(lines := p.history.lines[d := line]), q.history, q.world.docs, q.world.sessions);
    }
  }

  lemma SessionsIgnoreTheLog(h: History, h': History, docs: seq<Doc>, sessions: seq<Sess>)
    requires SessionsHold(h, docs, sessions) && h' == h.(made := h'.made)
    ensures SessionsHold(h', docs, sessions)
  {
  }

  lemma CreateKeepsInv(port: Port, p: Past, a: Action)
    requires Inv(p) && a.Create?
    ensures Inv(Next(port, p, a))
  {
    hide Op.Create, KeyHolds;
    var w, h := p.world, p.history;
    var r := Op.Create(port, w.ledger, a.opts, a.salt, a.draws, a.dataKey).0;
    if r.Ok? {
      CreateFacts(port, w.ledger, a.opts, a.salt, a.draws, a.dataKey);
      var doc := r.value.doc;
      assert doc.keys == [doc.keys[0]];
      NewDocKeepsInv(p, Origin(doc.header, r.value.dataKey), doc, a.opts, |w.ledger| + 1, Next(port, p, a));
    }
  }

  lemma NewDocKeepsInv(p: Past, o: Origin, doc: Doc, opts: Op.Options, touch: nat, q: Past)
    requires Inv(p) && OriginHolds(o) && doc.header == o.header && doc.secrets == [] && KeysHold(o, doc.keys)
    requires q.world.docs == p.world.docs + [doc] && q.world.blobs == p.world.blobs && q.world.vaults == p.world.vaults
    requires q.world.sessions == p.world.sessions + [Sess(|p.world.docs|, opts, Some(o.dataKey), touch)]
    requires q.history == p.history.(origins := p.history.origins + [o],
                                     lines := p.history.lines + [Line(|p.history.origins|, map[])],
                                     made := q.history.made)
    ensures Inv(q)
  {
    hide KeysHold;
    assert SecretsHold(o, doc.secrets, map[]);
    forall s | 0 <= s < |p.world.sessions|
      ensures SessionHolds(q.history, q.world.docs, q.world.sessions[s], s in q.history.locked)
    {
      assert SessionHolds(p.history, p.world.docs, p.world.sessions[s], s in p.history.locked);
    }
  }

  lemma OpenWithKeepsInv(port: Port, p: Past, a: Action)
    requires Inv(p) && a.OpenWith?
    ensures Inv(Next(port, p, a))
  {
    hide InStep, OriginHolds;
    var q := Next(port, p, a);
    forall s | 0 <= s < |p.world.sessions|
      ensures SessionHolds(q.history, q.world.docs, q.world.sessions[s], s in q.history.locked)
    {
      assert SessionHolds(p.history, p.world.docs, p.world.sessions[s], s in p.history.locked);
    }
  }

  lemma UnlockKeepsInv(port: Port, p: Past, a: Action)
    requires Inv(p) && a.Unlock?
    ensures Inv(Next(port, p, a))
  {
    hide KeysHold, SecretsHold, SecretsWellFormed, HeaderHolds, CopyHolds;
    var w, h := p.world, p.history;
    if a.vault < |w.vaults| {
      var d := w.vaults[a.vault].doc;
      var answer := port.derive(|w.ledger|, Op.UnlockRequest(w.docs[d]));
      if Op.DataKeyFrom(w.docs[d], answer).Ok? {
        UnlockYieldsTheDataKey(h.origins[h.lines[d].origin], w.docs[d], answer);
        assert OriginHolds(h.origins[h.lines[d].origin]);
      }
    }
  }

  function Written(line: Line, name: Bytes, value: Bytes): Line {
    line.(contents := line.contents[name := Kept(value)])
  }

  /** Put as a step: nothing, or one document, its line and one new seal. */
  lemma PutStep(port: Port, p: Past, s: nat, act: Act)
    requires HasSession(p.world, s) && |p.history.lines| == |p.world.docs| && act.Put?
    ensures var d := p.world.sessions[s].doc;
      var doc, line := p.world.docs[d], p.history.lines[d];
      var sealing := Op.Sealing(doc, p.world.sessions[s].key, act.name, act.secret, act.nonce);
      Next(port, p, Use(s, act))
        == match sealing
           case Err(_) => p
           case Ok(entry) =>
             Past(WithDoc(p.world, d, doc.(secrets := Upsert(doc.secrets, entry))),
                  p.history.(lines := p.history.lines[d := Written(line, act.name, act.secret.bytes)],
                             made := p.history.made + {MadeSecret(line.origin, entry, act.secret.bytes)}))
  {
    var d := p.world.sessions[s].doc;
    assert WithDoc(p.world, d, p.world.docs[d]) == p.world;
  }

  lemma PutHolds(origins: seq<Origin>, line: Line, doc: Doc, key: Option<Bytes>, act: Act)
    requires DocHolds(origins, line, doc) && act.Put?
    requires doc.header == origins[line.origin].header && (key.Some? ==> key.value == origins[line.origin].dataKey)
    requires Op.Sealing(doc, key, act.name, act.secret, act.nonce).Ok?
    ensures act.secret.Reads?
    ensures var entry := Op.Sealing(doc, key, act.name, act.secret, act.nonce).value;
      DocHolds(origins, Written(line, act.name, act.secret.bytes), doc.(secrets := Upsert(doc.secrets, entry)))
  {
    var o := origins[line.origin];
    var entry := Op.Sealing(doc, key, act.name, act.secret, act.nonce).value;
    SealingFacts(o, doc, key, act.name, act.secret, act.nonce);
    UpsertWellFormed(doc.secrets, entry);
    UpsertHolds(o, doc.secrets, line.contents, entry, act.secret.bytes);
  }

  lemma PutKeepsInv(port: Port, p: Past, s: nat, act: Act)
    requires Inv(p) && HasSession(p.world, s) && act.Put?
    ensures Inv(Next(port, p, Use(s, act)))
  {
    hide Next, DocHolds, Op.Sealing;
    var d, key := p.world.sessions[s].doc, p.world.sessions[s].key;
    var line, doc := p.history.lines[d], p.world.docs[d];
    PutStep(port, p, s, act);
    var sealing := Op.Sealing(doc, key, act.name, act.secret, act.nonce);
    if sealing.Ok? {
      assert SessionHolds(p.history, p.world.docs, p.world.sessions[s], s in p.history.locked);
      PutHolds(p.history.origins, line, doc, key, act);
      ChangedKeepsInv(p, d, Written(line, act.name, act.secret.bytes),
                      doc.(secrets := Upsert(doc.secrets, sealing.value)), Next(port, p, Use(s, act)));
    }
  }

  function Erased(line: Line, name: Bytes): Line {
    line.(contents := line.contents - {name})
  }

  lemma DeleteHolds(origins: seq<Origin>, line: Line, doc: Doc, key: Option<Bytes>, name: Bytes)
    requires DocHolds(origins, line, doc) && Op.Delete(doc, key, name).0.None?
    ensures DocHolds(origins, Erased(line, name), Op.Delete(doc, key, name).1)
  {
    EraseWellFormed(doc.secrets, name);
    EraseNames(doc.secrets, name);
    if doc.header == origins[line.origin].header {
      EraseHolds(origins[line.origin], doc.secrets, line.contents, name);
    }
  }

  /** Delete as a step: nothing, or one document and its line. */
  lemma DeleteStep(port: Port, p: Past, s: nat, name: Bytes)
    requires HasSession(p.world, s) && |p.history.lines| == |p.world.docs|
    ensures var d := p.world.sessions[s].doc;
      var (err, doc) := Op.Delete(p.world.docs[d], p.world.sessions[s].key, name);
      Next(port, p, Use(s, Delete(name)))
        == if err.Some? then p
           else Past(WithDoc(p.world, d, doc), p.history.(lines := p.history.lines[d := Erased(p.history.lines[d], name)]))
  {
    var d := p.world.sessions[s].doc;
    assert WithDoc(p.world, d, p.world.docs[d]) == p.world;
  }

  lemma DeleteKeepsInv(port: Port, p: Past, s: nat, act: Act)
    requires Inv(p) && HasSession(p.world, s) && act.Delete?
    ensures Inv(Next(port, p, Use(s, act)))
  {
    hide Next, InStep;
    var d, key := p.world.sessions[s].doc, p.world.sessions[s].key;
    var line, doc := p.history.lines[d], p.world.docs[d];
    DeleteStep(port, p, s, act.name);
    var change := Op.Delete(doc, key, act.name);
    if change.0.None? {
      DeleteHolds(p.history.origins, line, doc, key, act.name);
      ChangedKeepsInv(p, d, Erased(line, act.name), change.1, Next(port, p, Use(s, act)));
    }
  }

  /** EnrollKey as a step: gestures, and possibly one more entry and one new seal. */
  lemma EnrollKeyStep(port: Port, p: Past, s: nat, act: Act)
    requires HasSession(p.world, s) && |p.history.lines| == |p.world.docs| && act.EnrollKey?
    ensures var session := p.world.sessions[s];
      var doc, line := p.world.docs[session.doc], p.history.lines[session.doc];
      var (added, ledger) := Op.Enrolling(port, p.world.ledger, doc, session.key, session.opts, act.slot, act.keyLabel,
                                          act.draws);
      Next(port, p, Use(s, act))
        == Past(WithDoc(p.world, session.doc, Op.WithKey(doc, added).1).(ledger := ledger),
                p.history.(made := p.history.made + (if added.Err? then {}
                                                     else {MadeKey(line.origin, Unlabelled(added.value.0))})))
  {
    hide Op.Enrolling;
    var session := p.world.sessions[s];
    match Op.Enrolling(port, p.world.ledger, p.world.docs[session.doc], session.key, session.opts, act.slot, act.keyLabel,
                       act.draws).0
    case Err(_) => assert p.history.made + {} == p.history.made;
    case Ok((entry, _)) =>
  }

  lemma EnrollKeyHolds(port: Port, ledger: seq<Call>, origins: seq<Origin>, line: Line, doc: Doc, key: Option<Bytes>,
                       opts: Op.Options, act: Act)
    requires DocHolds(origins, line, doc) && act.EnrollKey?
    requires doc.header == origins[line.origin].header && (key.Some? ==> key.value == origins[line.origin].dataKey)
    ensures var added := Op.Enrolling(port, ledger, doc, key, opts, act.slot, act.keyLabel, act.draws).0;
      DocHolds(origins, line, Op.WithKey(doc, added).1)
  {
    hide Op.Enrolling;
    var added := Op.Enrolling(port, ledger, doc, key, opts, act.slot, act.keyLabel, act.draws).0;
    if added.Ok? {
      EnrollingFacts(port, ledger, doc, key, opts, act.slot, act.keyLabel, act.draws);
      AppendKeyHolds(origins[line.origin], doc.keys, added.value.0);
    }
  }

  lemma EnrollKeyKeepsInv(port: Port, p: Past, s: nat, act: Act)
    requires Inv(p) && HasSession(p.world, s) && act.EnrollKey?
    ensures Inv(Next(port, p, Use(s, act)))
  {
    hide Op.Enrolling, Next, DocHolds;
    var session := p.world.sessions[s];
    var line, doc := p.history.lines[session.doc], p.world.docs[session.doc];
    EnrollKeyStep(port, p, s, act);
    assert SessionHolds(p.history, p.world.docs, session, s in p.history.locked);
    EnrollKeyHolds(port, p.world.ledger, p.history.origins, line, doc, session.key, session.opts, act);
    var added := Op.Enrolling(port, p.world.ledger, doc, session.key, session.opts, act.slot, act.keyLabel, act.draws).0;
    SameDocs(p.history.lines, session.doc);
    ChangedKeepsInv(p, session.doc, line, Op.WithKey(doc, added).1, Next(port, p, Use(s, act)));
  }

  function Removal(doc: Doc, key: Option<Bytes>, act: Act): (Option<Error>, Doc)
    requires act.RemoveKey? || act.ForceRemoveKey?
  {
    if act.RemoveKey? then Op.RemoveKey(doc, key, act.slot) else Op.ForceRemoveKey(doc, key, act.slot)
  }

  lemma RemovalStep(port: Port, p: Past, s: nat, act: Act)
    requires HasSession(p.world, s) && (act.RemoveKey? || act.ForceRemoveKey?)
    ensures var d := p.world.sessions[s].doc;
      Next(port, p, Use(s, act))
        == Past(WithDoc(p.world, d, Removal(p.world.docs[d], p.world.sessions[s].key, act).1), p.history)
  {
  }

  lemma RemovalHolds(origins: seq<Origin>, line: Line, doc: Doc, key: Option<Bytes>, act: Act)
    requires DocHolds(origins, line, doc) && (act.RemoveKey? || act.ForceRemoveKey?)
    ensures DocHolds(origins, line, Removal(doc, key, act).1)
  {
    RemoveKeyHolds(origins[line.origin], doc.keys, act.slot);
  }

  lemma RemovalKeepsInv(port: Port, p: Past, s: nat, act: Act)
    requires Inv(p) && HasSession(p.world, s) && (act.RemoveKey? || act.ForceRemoveKey?)
    ensures Inv(Next(port, p, Use(s, act)))
  {
    hide Next, InStep;
    var d, key := p.world.sessions[s].doc, p.world.sessions[s].key;
    var line, doc := p.history.lines[d], p.world.docs[d];
    RemovalStep(port, p, s, act);
    RemovalHolds(p.history.origins, line, doc, key, act);
    SameDocs(p.history.lines, d);
    ChangedKeepsInv(p, d, line, Removal(doc, key, act).1, Next(port, p, Use(s, act)));
  }

  lemma SealKeepsInv(port: Port, p: Past, s: nat)
    requires Inv(p) && HasSession(p.world, s)
    ensures Inv(Next(port, p, Use(s, Seal)))
  {
    hide InStep;
    var d := p.world.sessions[s].doc;
    MarshalHolds(p.history.origins, p.history.lines[d], p.world.docs[d]);
    var q := Next(port, p, Use(s, Seal));
    forall i | 0 <= i < |p.world.sessions|
      ensures SessionHolds(q.history, q.world.docs, q.world.sessions[i], i in q.history.locked)
    {
      assert SessionHolds(p.history, p.world.docs, p.world.sessions[i], i in p.history.locked);
    }
  }

  lemma LockKeepsInv(port: Port, p: Past, s: nat)
    requires Inv(p) && HasSession(p.world, s)
    ensures Inv(Next(port, p, Use(s, Lock)))
  {
    hide InStep, OriginHolds;
    var q := Next(port, p, Use(s, Lock));
    forall i | 0 <= i < |p.world.sessions|
      ensures SessionHolds(q.history, q.world.docs, q.world.sessions[i], i in q.history.locked)
    {
      assert SessionHolds(p.history, p.world.docs, p.world.sessions[i], i in p.history.locked);
    }
  }

  /** Reading changes nothing. */
  lemma OpenStep(port: Port, p: Past, s: nat, act: Act)
    requires HasSession(p.world, s) && act.Open?
    ensures Next(port, p, Use(s, act)) == p
  {
  }

  lemma UseKeepsInv(port: Port, p: Past, s: nat, act: Act)
    requires Inv(p) && HasSession(p.world, s)
    ensures Inv(Next(port, p, Use(s, act)))
  {
    hide Inv, Next;
    match act
    case Open(_) => OpenStep(port, p, s, act);
    case Put(_, _, _) => PutKeepsInv(port, p, s, act);
    case Delete(_) => DeleteKeepsInv(port, p, s, act);
    case EnrollKey(_, _, _) => EnrollKeyKeepsInv(port, p, s, act);
    case RemoveKey(_) => RemovalKeepsInv(port, p, s, act);
    case ForceRemoveKey(_) => RemovalKeepsInv(port, p, s, act);
    case Lock => LockKeepsInv(port, p, s);
    case Seal => SealKeepsInv(port, p, s);
  }

  lemma NoSessionNoStep(port: Port, p: Past, s: nat, act: Act)
    requires !HasSession(p.world, s)
    ensures Next(port, p, Use(s, act)) == p
  {
  }

  lemma StepKeepsInv(port: Port, p: Past, a: Action)
    requires Inv(p)
    ensures Inv(Next(port, p, a))
  {
    hide Inv, Next;
    match a
    case Create(_, _, _, _) => CreateKeepsInv(port, p, a);
    case OpenWith(_, _) => OpenWithKeepsInv(port, p, a);
    case Unlock(_) => UnlockKeepsInv(port, p, a);
    case Use(s, act) =>
      if HasSession(p.world, s) {
        UseKeepsInv(port, p, s, act);
      } else {
        NoSessionNoStep(port, p, s, act);
      }
  }

  // ----- Whole runs -----

  lemma RunKeepsInv(port: Port, p: Past, actions: seq<Action>, q: Past)
    requires Inv(p) && Reaches(port, p, actions, q)
    ensures Inv(q)
  {
    hide Inv, Next;
    var trace: seq<Past> :| IsTrace(port, trace, actions) && trace[0] == p && trace[|actions|] == q;
    for i := 0 to |actions|
      invariant Inv(trace[i])
    {
      StepKeepsInv(port, trace[i], actions[i]);
    }
  }

  lemma ReachableHolds(port: Port, p: Past)
    requires Reachable(port, p)
    ensures Inv(p)
  {
    var actions :| Reaches(port, FROM_NOTHING, actions, p);
    RunKeepsInv(port, FROM_NOTHING, actions, p);
  }

  /** After any run at all, every session reads exactly the plain map its document's history amounts to, until it is
      locked, and ErrLocked from then on. */
  lemma WholeRunRefinesPlainMap(port: Port, p: Past, s: nat, name: Bytes)
    requires Reachable(port, p) && s < |p.world.sessions|
    ensures var session := p.world.sessions[s];
      && session.doc < |p.world.docs| == |p.history.lines|
      && Op.Open(p.world.docs[session.doc], session.key, name)
         == if s in p.history.locked then Err(Locked) else Lookup(p.history.lines[session.doc].contents, name)
  {
    ReachableHolds(port, p);
    var session := p.world.sessions[s];
    assert SessionHolds(p.history, p.world.docs, session, s in p.history.locked);
    var line := p.history.lines[session.doc];
    assert DocHolds(p.history.origins, line, p.world.docs[session.doc]);
    ReadingIsLookup(p.history.origins[line.origin], p.world.docs[session.doc], line.contents, name);
  }

  /** After any run, what a sealed copy of a document parses to: whether it is accepted, whether it is the very
      same document, and what it keeps when its RP ID and its names are UTF-8 but a key label is not. */
  lemma EveryReachableDocumentReopens(port: Port, p: Past, d: nat)
    requires Reachable(port, p) && d < |p.world.docs|
    ensures var doc := p.world.docs[d];
      var reopened := Parse(Marshal(doc));
      && WellFormed(doc)
      && (reopened.Ok? <==>
            forall i, j :: 0 <= i < j < |doc.secrets| ==> Coerce(doc.secrets[i].name) != Coerce(doc.secrets[j].name))
      && (reopened == Ok(doc) <==> TextIsUtf8(doc))
      && (ValidUtf8(doc.header.rpID) && (forall n :: n in NameSet(doc.secrets) ==> ValidUtf8(n)) ==>
            && reopened.Ok? && reopened.value.header == doc.header && reopened.value.secrets == doc.secrets
            && |reopened.value.keys| == |doc.keys|
            && forall i :: 0 <= i < |doc.keys| ==> Unlabelled(reopened.value.keys[i]) == Unlabelled(doc.keys[i]))
  {
    ReachableHolds(port, p);
    var line, doc := p.history.lines[d], p.world.docs[d];
    assert DocHolds(p.history.origins, line, doc) && OriginHolds(p.history.origins[line.origin]);
    HoldsMeansWellFormed(p.history.origins, line, doc);
    RoundTripExactly(doc);
    ReopensExactly(doc);
    if ValidUtf8(doc.header.rpID) && (forall n :: n in NameSet(doc.secrets) ==> ValidUtf8(n)) {
      CoerceFixesExactlyUtf8(doc.header.rpID);
      CoerceKeepsReadableNames(doc);
      CoerceKeepsKeys(doc);
    }
  }

  // ----- What a copy loses when its text is not UTF-8 -----

  lemma ParsedCopy(doc: Doc)
    requires Parse(Marshal(doc)).Ok?
    ensures Parse(Marshal(doc)).value == CoerceDoc(doc) && SecretsWellFormed(CoerceDoc(doc).secrets)
  {
  }

  /** Under the data key, a sealed copy that kept its RP ID and that parses reads, name by name: a UTF-8 name as
      before, the new spelling of any other name as a failed decryption, and nothing else. */
  lemma CopyReadsNameByName(o: Origin, doc: Doc, contents: map<Bytes, Cell>, name: Bytes)
    requires OriginHolds(o) && doc.header == o.header && SecretsHold(o, doc.secrets, contents)
    requires ValidUtf8(o.header.rpID) && Parse(Marshal(doc)).Ok?
    ensures Op.Open(Parse(Marshal(doc)).value, Some(o.dataKey), name)
         == if name in contents && ValidUtf8(name) then Lookup(contents, name)
            else if exists n :: n in contents && Coerce(n) == name then Err(AuthenticationFailed)
            else Err(NoSuchSecret)
  {
    hide SecretsHold, WellFormed, OriginHolds, Coerce, ValidUtf8, Parse, SecretsWellFormed, Op.Open;
    ParsedCopy(doc);
    CoerceFixesExactlyUtf8(o.header.rpID);
    CopiedSecretsHold(o, doc, contents);
    ReadingIsLookup(o, CoerceDoc(doc), Copied(contents), name);
    CoerceFixesExactlyUtf8(name);
    if n :| n in contents && Coerce(n) == name {
      CoerceYieldsUtf8(n);
    }
  }

  /** Under the data key, a sealed copy reads as the map it was made from exactly when there is nothing to read,
      or the RP ID and every name are UTF-8. */
  lemma CopyReadsTheSameExactly(o: Origin, doc: Doc, contents: map<Bytes, Cell>)
    requires OriginHolds(o) && doc.header == o.header && SecretsHold(o, doc.secrets, contents)
    requires forall name :: name in contents ==> contents[name].Kept?
    ensures (forall name :: Op.Open(CoerceDoc(doc), Some(o.dataKey), name) == Lookup(contents, name))
       <==> contents == map[] || (ValidUtf8(o.header.rpID) && forall name :: name in contents ==> ValidUtf8(name))
  {
    var copy := CoerceDoc(doc);
    if contents == map[] {
      NoNamesNoSecrets(doc.secrets);
    } else if name :| name in contents && !ValidUtf8(name) {
      CopyLosesName(doc, name);
      assert Op.Open(copy, Some(o.dataKey), name) == Err(NoSuchSecret);
    } else {
      CoerceKeepsReadableNames(doc);
      if ValidUtf8(o.header.rpID) {
        CoerceFixesExactlyUtf8(o.header.rpID);
        forall name ensures Op.Open(copy, Some(o.dataKey), name) == Lookup(contents, name) {
          ReadingIsLookup(o, doc, contents, name);
        }
      } else {
        var name :| name in contents;
        CopyLosesSeal(o, doc, contents, name);
      }
    }
  }

  lemma NoNamesNoSecrets(secrets: seq<SealedSecret>)
    ensures NameSet(secrets) == {} <==> secrets == []
  {
    if secrets != [] {
      assert secrets[0].name in NameSet(secrets);
    }
  }

  lemma CopyLosesName(doc: Doc, name: Bytes)
    requires !ValidUtf8(name)
    ensures FindSecret(CoerceDoc(doc).secrets, name) == None
  {
    var r := CoerceDoc(doc).secrets;
    FindSecretIsMember(r, name);
    if s :| s in r && s.name == name {
      var i :| 0 <= i < |r| && r[i] == s;
      CoerceYieldsUtf8(doc.secrets[i].name);
    }
  }

  lemma CopyLosesSeal(o: Origin, doc: Doc, contents: map<Bytes, Cell>, name: Bytes)
    requires OriginHolds(o) && doc.header == o.header && SecretsHold(o, doc.secrets, contents)
    requires !ValidUtf8(o.header.rpID) && name in contents && contents[name].Kept?
    requires CoerceDoc(doc).secrets == doc.secrets
    ensures Op.Open(CoerceDoc(doc), Some(o.dataKey), name) == Err(AuthenticationFailed)
  {
    FindSecretIsMember(doc.secrets, name);
    var s := FindSecret(doc.secrets, name).value;
    var i :| 0 <= i < |doc.secrets| && doc.secrets[i] == s;
    assert CoerceDoc(doc).secrets[i] == CoerceSecret(s);
    CoercedSecretAad(o.header, name);
  }

  /** Put accepts names that are not UTF-8, so two of them can make a vault unreadable: whatever the vault holds,
      putting FF and then FE succeeds, and what is sealed after that is refused. */
  lemma TwoNamesCanCollide(doc: Doc, dataKey: DataKey, a: Bytes, b: Bytes, m: Nonce, n: Nonce)
    requires WellFormed(doc)
    ensures var (err, once) := Op.Put(doc, Some(dataKey), [0xFF], Op.Reads(a), Some(m));
      var (err', twice) := Op.Put(once, Some(dataKey), [0xFE], Op.Reads(b), Some(n));
      && err == None && err' == None && WellFormed(twice) && Parse(Marshal(twice)) == Err(WrongFormat)
  {
    hide Op.Put, WellFormed;
    var once := Op.Put(doc, Some(dataKey), [0xFF], Op.Reads(a), Some(m)).1;
    var twice := Op.Put(once, Some(dataKey), [0xFE], Op.Reads(b), Some(n)).1;
    PutAddsName(doc, dataKey, [0xFF], a, m);
    PutAddsName(once, dataKey, [0xFE], b, n);
    TwoSpellingsClash(twice);
  }

  lemma PutAddsName(doc: Doc, dataKey: DataKey, name: Bytes, value: Bytes, nonce: Nonce)
    requires WellFormed(doc) && name != []
    ensures var (err, changed) := Op.Put(doc, Some(dataKey), name, Op.Reads(value), Some(nonce));
      && err == None && WellFormed(changed)
      && name in NameSet(changed.secrets) && NameSet(doc.secrets) <= NameSet(changed.secrets)
  {
    var entry := Op.Sealing(doc, Some(dataKey), name, Op.Reads(value), Some(nonce)).value;
    UpsertMembers(doc.secrets, entry);
    UpsertWellFormed(doc.secrets, entry);
    var r := Upsert(doc.secrets, entry);
    assert entry in r;
    forall t | t in NameSet(doc.secrets) ensures t in NameSet(r) {
      var s :| s in doc.secrets && s.name == t;
      assert t == name || s in r;
    }
  }

  lemma TheyReadTheSame()
    ensures Coerce([0xFF]) == REPLACEMENT == Coerce([0xFE])
  {
    assert REPLACEMENT + Coerce([]) == REPLACEMENT;
  }

  lemma TwoSpellingsClash(doc: Doc)
    requires WellFormed(doc) && [0xFF] in NameSet(doc.secrets) && [0xFE] in NameSet(doc.secrets)
    ensures Parse(Marshal(doc)) == Err(WrongFormat)
  {
    hide WellFormed, Coerce, CoerceDoc;
    var s :| s in doc.secrets && s.name == [0xFF];
    var t :| t in doc.secrets && t.name == [0xFE];
    var i :| 0 <= i < |doc.secrets| && doc.secrets[i] == s;
    var j :| 0 <= j < |doc.secrets| && doc.secrets[j] == t;
    TheyReadTheSame();
    ReopensExactly(doc);
    assert Coerce(doc.secrets[i].name) == Coerce(doc.secrets[j].name);
  }

  function PutAction(s: nat, name: Bytes, value: Bytes, nonce: Nonce): Action {
    Use(s, Put(name, Op.Reads(value), Some(nonce)))
  }

  /** So every run that left a session unlocked goes on, in two steps, to a document whose sealed copy is refused. */
  lemma AnyRunCanBecomeUnreadable(port: Port, p: Past, s: nat, a: Bytes, b: Bytes, m: Nonce, n: Nonce)
    requires Reachable(port, p) && s < |p.world.sessions| && s !in p.history.locked
    ensures var q := Next(port, Next(port, p, PutAction(s, [0xFF], a, m)), PutAction(s, [0xFE], b, n));
      && Reachable(port, q) && p.world.sessions[s].doc < |q.world.docs|
      && Parse(Marshal(q.world.docs[p.world.sessions[s].doc])) == Err(WrongFormat)
  {
    ReachableHolds(port, p);
    var session := p.world.sessions[s];
    var d := session.doc;
    assert SessionHolds(p.history, p.world.docs, session, s in p.history.locked);
    assert DocHolds(p.history.origins, p.history.lines[d], p.world.docs[d]);
    HoldsMeansWellFormed(p.history.origins, p.history.lines[d], p.world.docs[d]);
    TwoNamesCanCollide(p.world.docs[d], session.key.value, a, b, m, n);
    var q1 := Next(port, p, PutAction(s, [0xFF], a, m));
    PutStep(port, p, s, Put([0xFF], Op.Reads(a), Some(m)));
    PutStep(port, q1, s, Put([0xFE], Op.Reads(b), Some(n)));
    OneMoreStep(port, p, PutAction(s, [0xFF], a, m));
    OneMoreStep(port, q1, PutAction(s, [0xFE], b, n));
  }

  lemma OneMoreStep(port: Port, p: Past, a: Action)
    requires Reachable(port, p)
    ensures Reachable(port, Next(port, p, a))
  {
    hide Next;
    var actions :| Reaches(port, FROM_NOTHING, actions, p);
    var trace: seq<Past> :| IsTrace(port, trace, actions) && trace[0] == FROM_NOTHING && trace[|actions|] == p;
    var longer, more := trace + [Next(port, p, a)], actions + [a];
    forall i | 0 <= i < |more| ensures Follows(port, longer[i], more[i], longer[i + 1]) {
      if i < |actions| {
        assert more[i] == actions[i];
      }
    }
    assert IsTrace(port, longer, more);
    assert Reaches(port, FROM_NOTHING, more, longer[|more|]);
  }

  // ----- Runs whose text is UTF-8 lose nothing -----

  ghost predicate LineUnspoilt(line: Line) {
    forall name :: name in line.contents ==> ValidUtf8(name) && line.contents[name].Kept?
  }

  ghost predicate AllUnspoilt(h: History) {
    && (forall i :: 0 <= i < |h.origins| ==> ValidUtf8(h.origins[i].header.rpID))
    && (forall d :: 0 <= d < |h.lines| ==> LineUnspoilt(h.lines[d]))
    && (forall b :: 0 <= b < |h.blobs| ==> LineUnspoilt(h.blobs[b]))
  }

  ghost predicate ReadableEvent(e: Event) {
    (e.Created? ==> ValidUtf8(e.header.rpID)) && (e.Stored? ==> ValidUtf8(e.name))
  }

  lemma CopyStaysUnspoilt(line: Line)
    requires LineUnspoilt(line)
    ensures LineUnspoilt(CopyOf(line)) && CopyOf(line) == line
  {
    forall n | n in line.contents ensures Coerce(n) == n {
      CoerceFixesExactlyUtf8(n);
    }
    assert Copied(line.contents) == line.contents;
  }

  lemma RememberKeepsUnspoilt(h: History, e: Event)
    requires AllUnspoilt(h) && ReadableEvent(e)
    ensures AllUnspoilt(Remember(h, e))
  {
    hide ValidUtf8, Copied;
    if e.Serialized? && e.doc < |h.lines| {
      CopyStaysUnspoilt(h.lines[e.doc]);
    }
  }

  lemma StepIsReadable(port: Port, w: World, a: Action)
    requires Readable(a)
    ensures ReadableEvent(Step(port, w, a).1)
  {
    hide ValidUtf8;
    if a.Create? && Op.Create(port, w.ledger, a.opts, a.salt, a.draws, a.dataKey).0.Ok? {
      CreateFacts(port, w.ledger, a.opts, a.salt, a.draws, a.dataKey);
    }
  }

  /** A run that puts nothing but UTF-8 text into its documents spoils nothing: every value is kept in every document
      and in every copy. */
  lemma ReadableRunsSpoilNothing(port: Port, p: Past, actions: seq<Action>, q: Past)
    requires AllUnspoilt(p.history) && AllReadable(actions) && Reaches(port, p, actions, q)
    ensures AllUnspoilt(q.history)
  {
    hide AllUnspoilt, Step, Remember, Readable;
    var trace: seq<Past> :| IsTrace(port, trace, actions) && trace[0] == p && trace[|actions|] == q;
    for i := 0 to |actions|
      invariant AllUnspoilt(trace[i].history)
    {
      StepIsReadable(port, trace[i].world, actions[i]);
      RememberKeepsUnspoilt(trace[i].history, Step(port, trace[i].world, actions[i]).1);
    }
  }
}
