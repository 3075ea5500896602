/** Touches over whole runs: what each gesture was spent on, and that no session is unlocked without its own. */
module Sessions {
  import opened Common
  import opened Aad
  import opened Aead
  import opened Document
  import opened Authenticators
  import opened Entropy
  import opened Wire
  import opened Runs
  import opened Refinement
  import opened Integrity
  import Op = Operations

  // ----- What each operation spends -----

  ghost predicate Extends(before: seq<Call>, after: seq<Call>) {
    |before| <= |after| && after[..|before|] == before
  }

  /** A credential the library may use at all. */
  predicate Acceptable(created: Result<EnrollResult>, opts: Op.Options) {
    created.Ok? && !created.value.residentKey && created.value.credentialID != [] && opts.roots(created.value).None?
  }

  /** A beginning of: create, derive, probe. Nothing is derived from a credential that is resident, nameless or not
      trusted, and nothing is probed that was not derived from with a touch. */
  ghost predicate EnrollmentWord(calls: seq<Call>, opts: Op.Options, rpID: Bytes, salt: Bytes, uv: UserVerification) {
    && |salt| == SALT_LEN && |calls| <= 3
    && (|calls| >= 1 ==> calls[0].EnrollCall? && calls[0].creation.rpID == rpID && calls[0].creation.uv == uv)
    && (|calls| >= 2 ==>
          && Acceptable(calls[0].created, opts) && calls[1].DeriveCall?
          && calls[1].request == DeriveRequest(rpID, [calls[0].created.value.credentialID], salt, uv))
    && (|calls| == 3 ==>
          && calls[1].answer.Ok? && calls[1].answer.value.userPresent && calls[1].answer.value.secret != []
          && calls[2].DeriveCall?
          && calls[2].request == ProbeRequest(rpID, calls[0].created.value.credentialID, salt, uv))
  }

  lemma EnrollAndDeriveSpends(port: Port, ledger: seq<Call>, rpID: Bytes, salt: Bytes, opts: Op.Options,
                              uv: UserVerification, userID: Option<UserID>)
    requires |salt| == SALT_LEN
    ensures var (r, l) := Op.EnrollAndDerive(port, ledger, rpID, salt, opts, uv, userID);
      && Extends(ledger, l) && EnrollmentWord(l[|ledger|..], opts, rpID, salt, uv) && |l| <= |ledger| + 2
      && (r.Ok? ==>
            && |l| == |ledger| + 2 && l[|ledger|].created == Ok(r.value.cred)
            && l[|ledger| + 1].answer == Ok(r.value.derived)
            && r.value.derived.userPresent && r.value.derived.secret != [])
  {
  }

  lemma WordPlusProbe(ledger: seq<Call>, l1: seq<Call>, l2: seq<Call>, opts: Op.Options, en: Op.Enrolled,
                      rpID: Bytes, salt: Bytes, uv: UserVerification)
    requires Extends(ledger, l1) && EnrollmentWord(l1[|ledger|..], opts, rpID, salt, uv) && |l1| == |ledger| + 2
    requires l1[|ledger|].created == Ok(en.cred) && l1[|ledger| + 1].answer == Ok(en.derived)
    requires en.derived.userPresent && en.derived.secret != []
    requires l2 == l1 || (|l2| == |l1| + 1 && l2[..|l1|] == l1 && l2[|l1|].DeriveCall?
                          && l2[|l1|].request == ProbeRequest(rpID, en.cred.credentialID, salt, uv))
    ensures Extends(ledger, l2) && EnrollmentWord(l2[|ledger|..], opts, rpID, salt, uv)
  {
    var n := |ledger|;
    assert l2[..n] == l2[..|l1|][..n] == ledger;
    assert forall i :: 0 <= i < 2 ==> l2[n..][i] == l2[..|l1|][n + i] == l1[n..][i];
  }

  /** The probe was answered with a touch, verified as the derivation before it, and its output differs from that
      one's. */
  predicate ProbePassed(derived: DeriveResult, answer: Result<DeriveResult>) {
    && answer.Ok? && answer.value.userPresent && answer.value.userVerified == derived.userVerified
    && answer.value.secret != [] && answer.value.secret != derived.secret
  }

  /** A whole enrollment, with a probe that passed. */
  predicate Complete(calls: seq<Call>) {
    && |calls| == 3 && calls[1].DeriveCall? && calls[1].answer.Ok? && calls[2].DeriveCall?
    && ProbePassed(calls[1].answer.value, calls[2].answer)
  }

  lemma CreateSpends(port: Port, ledger: seq<Call>, opts: Op.Options, salt: Option<Salt>, draws: Op.Draws,
                     dataKey: Option<DataKey>)
    ensures var (r, l) := Op.Create(port, ledger, opts, salt, draws, dataKey);
      && Extends(ledger, l)
      && (if opts.rpID == [] || salt.None? then l == ledger && r.Err?
          else EnrollmentWord(l[|ledger|..], opts, opts.rpID, salt.value, UVDiscouraged))
      && (r.Ok? ==> Complete(l[|ledger|..]))
  {
    if opts.rpID != [] && salt.Some? {
      EnrollAndDeriveSpends(port, ledger, opts.rpID, salt.value, opts, UVDiscouraged, draws.userID);
      var (r, l1) := Op.EnrollAndDerive(port, ledger, opts.rpID, salt.value, opts, UVDiscouraged, draws.userID);
      if r.Ok? {
        WordPlusProbe(ledger, l1, Gate(port, l1, opts.rpID, r.value.cred.credentialID, salt.value,
                                       r.value.derived.secret, UVDiscouraged, r.value.derived.userVerified).1,
                      opts, r.value, opts.rpID, salt.value, UVDiscouraged);
      }
    }
  }

  /** EnrollKey refuses before the first gesture when the session is locked or the slot is not free, and before the
      third when the credential is already enrolled or was verified differently. */
  ghost predicate EnrollKeyWord(doc: Doc, key: Option<Bytes>, opts: Op.Options, slot: int, calls: seq<Call>) {
    && EnrollmentWord(calls, opts, doc.header.rpID, doc.header.salt, Op.UvRequirement(doc.header))
    && (key.None? || slot < 0 || slot in SlotSet(doc.keys) ==> calls == [])
    && (|calls| == 3 ==>
          && calls[0].created.value.credentialID !in CredentialSet(doc.keys)
          && calls[1].answer.value.userVerified == doc.header.userVerified)
  }

  lemma EnrollingSpends(port: Port, ledger: seq<Call>, doc: Doc, key: Option<Bytes>, opts: Op.Options, slot: int,
                        keyLabel: Bytes, draws: Op.Draws)
    requires |doc.header.salt| == SALT_LEN
    ensures var (r, l) := Op.Enrolling(port, ledger, doc, key, opts, slot, keyLabel, draws);
      && Extends(ledger, l) && EnrollKeyWord(doc, key, opts, slot, l[|ledger|..])
      && (r.Ok? ==> Complete(l[|ledger|..]))
  {
    var h, uv := doc.header, Op.UvRequirement(doc.header);
    EnrollAndDeriveSpends(port, ledger, h.rpID, h.salt, opts, uv, draws.userID);
    var (r, l1) := Op.EnrollAndDerive(port, ledger, h.rpID, h.salt, opts, uv, draws.userID);
    if r.Ok? {
      WordPlusProbe(ledger, l1, Gate(port, l1, h.rpID, r.value.cred.credentialID, h.salt, r.value.derived.secret, uv,
                                     r.value.derived.userVerified).1,
                    opts, r.value, h.rpID, h.salt, uv);
    }
  }

  /** Refused before a touch is asked for. */
  predicate Unusable(doc: Doc) {
    doc.keys == [] || !doc.header.entropyVerified
  }

  /** The calls one step may add to the ledger, given what it did. */
  ghost predicate StepWord(w: World, a: Action, e: Event, calls: seq<Call>) {
    match a
    case Create(opts, salt, _, _) =>
      if salt.None? || opts.rpID == [] then calls == []
      else EnrollmentWord(calls, opts, opts.rpID, salt.value, UVDiscouraged) && (e.Created? ==> Complete(calls))
    case Unlock(v) =>
      if v < |w.vaults| && w.vaults[v].doc < |w.docs| && !Unusable(w.docs[w.vaults[v].doc]) then
        var request := Op.UnlockRequest(w.docs[w.vaults[v].doc]);
        ValidRequest(request) && |calls| == 1 && calls[0].DeriveCall? && calls[0].request == request
      else calls == []
    case Use(s, act) =>
      if act.EnrollKey? && HasSession(w, s) then
        var session := w.sessions[s];
        EnrollKeyWord(w.docs[session.doc], session.key, session.opts, act.slot, calls) && (e.KeyAdded? ==> Complete(calls))
      else calls == []
    case OpenWith(_, _) => calls == []
  }

  /** A document that parsed only ever asks for derivations a provider accepts: to unlock it with any enrolled
      key, to enrol a credential with an ID, and to probe one. */
  lemma AcceptedDocumentAsksValidly(data: Sealed, credentialID: Bytes, uv: UserVerification)
    requires Parse(data).Ok? && credentialID != []
    ensures var doc := Parse(data).value;
      && (ValidRequest(Op.UnlockRequest(doc)) <==> doc.keys != [])
      && ValidRequest(DeriveRequest(doc.header.rpID, [credentialID], doc.header.salt, uv))
      && ValidRequest(ProbeRequest(doc.header.rpID, credentialID, doc.header.salt, uv))
  {
    UnlockRequestIsValid(Parse(data).value);
  }

  lemma UnlockRequestIsValid(doc: Doc)
    requires KeysWellFormed(doc.keys) && |doc.header.salt| == SALT_LEN
    ensures ValidRequest(Op.UnlockRequest(doc)) <==> doc.keys != []
  {
    assert forall i :: 0 <= i < |doc.keys| ==> doc.keys[i] in doc.keys;
  }

  lemma StepSpends(port: Port, p: Past, a: Action)
    requires Inv(p)
    ensures var l, l' := p.world.ledger, Next(port, p, a).world.ledger;
      Extends(l, l') && StepWord(p.world, a, Step(port, p.world, a).1, l'[|l|..])
  {
    var w, h := p.world, p.history;
    match a
    case Create(opts, salt, draws, dataKey) => CreateSpends(port, w.ledger, opts, salt, draws, dataKey);
    case Unlock(v) =>
      if v < |w.vaults| {
        var d := w.vaults[v].doc;
        assert DocHolds(h.origins, h.lines[d], w.docs[d]) && OriginHolds(h.origins[h.lines[d].origin]);
        UnlockRequestIsValid(w.docs[d]);
      }
    case Use(s, act) =>
      if HasSession(w, s) && act.EnrollKey? {
        var session := w.sessions[s];
        assert OriginHolds(h.origins[h.lines[session.doc].origin]);
        assert DocHolds(h.origins, h.lines[session.doc], w.docs[session.doc]);
        EnrollingSpends(port, w.ledger, w.docs[session.doc], session.key, session.opts, act.slot, act.keyLabel, act.draws);
      }
    case OpenWith(_, _) =>
  }

  function Flatten(words: seq<seq<Call>>): seq<Call> {
    if words == [] then [] else Flatten(words[..|words| - 1]) + words[|words| - 1]
  }

  /** This word is what action a may spend in state p, given how it turned out there. */
  ghost predicate Spends(port: Port, p: Past, a: Action, word: seq<Call>) {
    StepWord(p.world, a, Step(port, p.world, a).1, word)
  }

  /** The gesture ledger of a whole run: one word after another, one per action, each of them what that action and
      its outcome allow. Nothing but three gestures per enrollment and one per unlock, or a beginning of those. */
  lemma LedgerIsExplained(port: Port, trace: seq<Past>, actions: seq<Action>) returns (words: seq<seq<Call>>)
    requires IsTrace(port, trace, actions) && trace[0] == FROM_NOTHING
    ensures |words| == |actions| && trace[|actions|].world.ledger == Flatten(words)
    ensures forall i :: 0 <= i < |actions| ==> Spends(port, trace[i], actions[i], words[i])
  {
    hide Inv, Follows, Spends, Flatten;
    words := [];
    NothingSpentYet();
    for i := 0 to |actions|
      invariant |words| == i && Inv(trace[i]) && trace[i].world.ledger == Flatten(words)
      invariant forall j :: 0 <= j < i ==> Spends(port, trace[j], actions[j], words[j])
    {
      var word := OneMoreWord(port, trace[i], actions[i], trace[i + 1], words);
      words := words + [word];
    }
  }

  lemma NothingSpentYet()
    ensures Inv(FROM_NOTHING) && FROM_NOTHING.world.ledger == Flatten([])
  {
  }

  lemma OneMoreWord(port: Port, p: Past, a: Action, q: Past, words: seq<seq<Call>>) returns (word: seq<Call>)
    requires Inv(p) && Follows(port, p, a, q) && p.world.ledger == Flatten(words)
    ensures Inv(q) && Spends(port, p, a, word) && q.world.ledger == Flatten(words + [word])
  {
    hide Inv, Next, Step, StepWord;
    StepSpends(port, p, a);
    StepKeepsInv(port, p, a);
    word := q.world.ledger[|p.world.ledger|..];
    assert (words + [word])[..|words|] == words;
    assert q.world.ledger == p.world.ledger + word;
  }

  ghost predicate AllValid(calls: seq<Call>) {
    forall i :: 0 <= i < |calls| && calls[i].DeriveCall? ==> ValidRequest(calls[i].request)
  }

  lemma WordIsValid(w: World, a: Action, e: Event, calls: seq<Call>)
    requires StepWord(w, a, e, calls)
    ensures AllValid(calls)
  {
  }

  lemma StretchIsValid(l: seq<Call>, m: seq<Call>)
    requires AllValid(l) && Extends(l, m) && AllValid(m[|l|..])
    ensures AllValid(m)
  {
    forall i | 0 <= i < |m| && m[i].DeriveCall? ensures ValidRequest(m[i].request) {
      assert if i < |l| then m[..|l|][i] == l[i] else m[|l|..][i - |l|] == m[i];
    }
  }

  lemma StepRequestsAreValid(port: Port, p: Past, a: Action)
    requires Inv(p) && AllValid(p.world.ledger)
    ensures AllValid(Next(port, p, a).world.ledger)
  {
    hide Inv, Step, Next, AllValid, StepWord, Extends;
    var l, m := p.world.ledger, Next(port, p, a).world.ledger;
    StepSpends(port, p, a);
    WordIsValid(p.world, a, Step(port, p.world, a).1, m[|l|..]);
    StretchIsValid(l, m);
  }

  /** Every derivation a run asks for is one every provider accepts. */
  lemma EveryRequestIsValid(port: Port, p: Past)
    requires Reachable(port, p)
    ensures AllValid(p.world.ledger)
  {
    hide Next;
    var actions :| Reaches(port, FROM_NOTHING, actions, p);
    var trace: seq<Past> :| IsTrace(port, trace, actions) && trace[0] == FROM_NOTHING && trace[|actions|] == p;
    for i := 0 to |actions|
      invariant Inv(trace[i]) && AllValid(trace[i].world.ledger)
    {
      StepRequestsAreValid(port, trace[i], actions[i]);
      StepKeepsInv(port, trace[i], actions[i]);
    }
  }

  // ----- Every key was probed -----

  /** Two neighbouring gestures of the ledger: the derivation this entry was wrapped under, with a touch and verified
      as the header records, and a probe of the same credential over the salt with its last byte flipped, which
      passed. */
  ghost predicate ProbedAt(ledger: seq<Call>, h: Header, k: SealedKey, i: nat) {
    && i + 1 < |ledger| && ledger[i].DeriveCall? && ledger[i + 1].DeriveCall? && |h.salt| == SALT_LEN
    && ledger[i].request.credentialIDs == [k.credentialID] && ledger[i].request.salt == h.salt
    && ledger[i + 1].request == ledger[i].request.(salt := Probe(h.salt))
    && ledger[i].answer.Ok?
    && var derived := ledger[i].answer.value;
       && derived.userPresent && derived.userVerified == h.userVerified
       && ProbePassed(derived, ledger[i + 1].answer)
       && k.wrapped.Box? && k.wrapped.key == Hkdf(derived.secret, h.salt)
  }

  ghost predicate Probed(ledger: seq<Call>, h: Header, k: SealedKey) {
    exists i: nat :: ProbedAt(ledger, h, k, i)
  }

  ghost predicate AllProbed(ledger: seq<Call>, doc: Doc) {
    forall k :: k in doc.keys ==> Probed(ledger, doc.header, k)
  }

  ghost predicate ProbedWorld(w: World) {
    && (forall d :: 0 <= d < |w.docs| ==> AllProbed(w.ledger, w.docs[d]))
    && (forall b :: 0 <= b < |w.blobs| ==> w.blobs[b].Decoded? && AllProbed(w.ledger, w.blobs[b].doc))
  }

  lemma StillProbed(ledger: seq<Call>, longer: seq<Call>, doc: Doc)
    requires AllProbed(ledger, doc) && Extends(ledger, longer)
    ensures AllProbed(longer, doc)
  {
    forall k | k in doc.keys ensures Probed(longer, doc.header, k) {
      var i: nat :| ProbedAt(ledger, doc.header, k, i);
      assert longer[i] == longer[..|ledger|][i] && longer[i + 1] == longer[..|ledger|][i + 1];
      assert ProbedAt(longer, doc.header, k, i);
    }
  }

  lemma CreateIsProbed(port: Port, ledger: seq<Call>, opts: Op.Options, salt: Option<Salt>, draws: Op.Draws,
                       dataKey: Option<DataKey>)
    requires Op.Create(port, ledger, opts, salt, draws, dataKey).0.Ok?
    ensures var (r, l) := Op.Create(port, ledger, opts, salt, draws, dataKey);
      AllProbed(l, r.value.doc)
  {
    hide Op.Create;
    CreateFacts(port, ledger, opts, salt, draws, dataKey);
    var (r, l) := Op.Create(port, ledger, opts, salt, draws, dataKey);
    assert r.value.doc.keys == [r.value.doc.keys[0]];
    assert ProbedAt(l, r.value.doc.header, r.value.doc.keys[0], |ledger| + 1);
  }

  lemma EnrollingIsProbed(port: Port, ledger: seq<Call>, doc: Doc, key: Option<Bytes>, opts: Op.Options, slot: int,
                          keyLabel: Bytes, draws: Op.Draws)
    requires Op.Enrolling(port, ledger, doc, key, opts, slot, keyLabel, draws).0.Ok?
    ensures var (r, l) := Op.Enrolling(port, ledger, doc, key, opts, slot, keyLabel, draws);
      Probed(l, doc.header, r.value.0)
  {
    hide Op.Enrolling;
    EnrollingFacts(port, ledger, doc, key, opts, slot, keyLabel, draws);
    var (r, l) := Op.Enrolling(port, ledger, doc, key, opts, slot, keyLabel, draws);
    assert ProbedAt(l, doc.header, r.value.0, |ledger| + 1);
  }

  lemma CopyIsProbed(ledger: seq<Call>, doc: Doc)
    requires AllProbed(ledger, doc)
    ensures AllProbed(ledger, CoerceDoc(doc))
  {
    var r := CoerceDoc(doc);
    forall k | k in r.keys ensures Probed(ledger, r.header, k) {
      var n :| 0 <= n < |r.keys| && r.keys[n] == k;
      assert doc.keys[n] in doc.keys;
      var i: nat :| ProbedAt(ledger, doc.header, doc.keys[n], i);
      assert ProbedAt(ledger, r.header, k, i);
    }
  }

  /** Each document of a step was probed before, or is new or enlarged and was probed by it. */
  lemma UseKeepsProbed(port: Port, w: World, s: nat, act: Act)
    requires ProbedWorld(w) && HasSession(w, s) && Extends(w.ledger, StepUse(port, w, s, act).0.ledger)
    ensures ProbedWorld(StepUse(port, w, s, act).0)
  {
    hide ProbedAt, Probed, Op.Enrolling;
    var session := w.sessions[s];
    var doc, w' := w.docs[session.doc], StepUse(port, w, s, act).0;
    forall d | 0 <= d < |w.docs| ensures AllProbed(w'.ledger, w.docs[d]) {
      StillProbed(w.ledger, w'.ledger, w.docs[d]);
    }
    forall b | 0 <= b < |w.blobs| ensures AllProbed(w'.ledger, w.blobs[b].doc) {
      StillProbed(w.ledger, w'.ledger, w.blobs[b].doc);
    }
    match act
    case EnrollKey(slot, keyLabel, draws) =>
      if Op.Enrolling(port, w.ledger, doc, session.key, session.opts, slot, keyLabel, draws).0.Ok? {
        EnrollingIsProbed(port, w.ledger, doc, session.key, session.opts, slot, keyLabel, draws);
      }
    case RemoveKey(slot) => WithoutSlotMembers(doc.keys, slot);
    case ForceRemoveKey(slot) => WithoutSlotMembers(doc.keys, slot);
    case Seal => CopyIsProbed(w.ledger, doc);
    case _ =>
  }

  lemma StepKeepsProbed(port: Port, p: Past, a: Action)
    requires Inv(p) && ProbedWorld(p.world)
    ensures ProbedWorld(Next(port, p, a).world)
  {
    hide Inv, StepWord, ProbedAt, Probed, AllProbed, Op.Create, Op.Unlock;
    StepSpends(port, p, a);
    var w, w' := p.world, Next(port, p, a).world;
    if a.Use? && HasSession(w, a.session) {
      UseKeepsProbed(port, w, a.session, a.act);
    } else {
      forall d | 0 <= d < |w.docs| ensures AllProbed(w'.ledger, w.docs[d]) {
        StillProbed(w.ledger, w'.ledger, w.docs[d]);
      }
      forall b | 0 <= b < |w.blobs| ensures AllProbed(w'.ledger, w.blobs[b].doc) {
        StillProbed(w.ledger, w'.ledger, w.blobs[b].doc);
      }
      if a.Create? && Op.Create(port, w.ledger, a.opts, a.salt, a.draws, a.dataKey).0.Ok? {
        CreateIsProbed(port, w.ledger, a.opts, a.salt, a.draws, a.dataKey);
      }
    }
  }

  /** Whatever the authenticators are: for every key entry of every document and sealed copy of a run, the ledger
      holds the derivation it was wrapped under and, right behind it, the probe that showed this very output to
      depend on the salt. */
  lemma EveryKeyWasProbed(port: Port, p: Past)
    requires Reachable(port, p)
    ensures forall d, k :: 0 <= d < |p.world.docs| && k in p.world.docs[d].keys ==>
      Probed(p.world.ledger, p.world.docs[d].header, k)
    ensures forall b :: 0 <= b < |p.world.blobs| ==> p.world.blobs[b].Decoded?
    ensures forall b, k :: 0 <= b < |p.world.blobs| && k in p.world.blobs[b].doc.keys ==>
      Probed(p.world.ledger, p.world.blobs[b].doc.header, k)
  {
    ReachableIsProbed(port, p);
  }

  lemma FollowingKeepsProbed(port: Port, p: Past, a: Action, q: Past)
    requires Inv(p) && ProbedWorld(p.world) && Follows(port, p, a, q)
    ensures Inv(q) && ProbedWorld(q.world)
  {
    hide Inv, ProbedWorld, Next;
    StepKeepsProbed(port, p, a);
    StepKeepsInv(port, p, a);
  }

  lemma NothingProbedYet()
    ensures Inv(FROM_NOTHING) && ProbedWorld(FROM_NOTHING.world)
  {
  }

  lemma ReachableIsProbed(port: Port, p: Past)
    requires Reachable(port, p)
    ensures ProbedWorld(p.world)
  {
    hide Inv, Follows, ProbedWorld;
    var actions :| Reaches(port, FROM_NOTHING, actions, p);
    var trace: seq<Past> :| IsTrace(port, trace, actions) && trace[0] == FROM_NOTHING && trace[|actions|] == p;
    NothingProbedYet();
    for i := 0 to |actions|
      invariant Inv(trace[i]) && ProbedWorld(trace[i].world)
    {
      FollowingKeepsProbed(port, trace[i], actions[i], trace[i + 1]);
    }
  }

  // ----- Presence -----

  /** A derivation that reported a touch, verified as this document records, over this document's RP ID and salt. */
  ghost predicate ProvesPresence(c: Call, h: Header) {
    && c.DeriveCall? && c.answer.Ok?
    && c.answer.value.userPresent && c.answer.value.userVerified == h.userVerified
    && c.request.rpID == h.rpID && c.request.salt == h.salt
    && h.entropyVerified
  }

  /** Action a, from p to q, made session s out of a touch of that very step: present and verified as recorded. The
      credential that answered is enrolled in the session's document then and there exactly if it is one of those that
      were asked for, and after an unlock it always is. A document that was there before is as it was. */
  ghost predicate MadeByTouch(p: Past, a: Action, q: Past, s: nat) {
    && |p.world.sessions| == s && |q.world.sessions| == s + 1
    && var session := q.world.sessions[s];
       && |p.world.ledger| <= session.touch < |q.world.ledger| && session.doc < |q.world.docs|
       && var c, doc := q.world.ledger[session.touch], q.world.docs[session.doc];
          && ProvesPresence(c, doc.header)
          && (Enrolled(c, doc) <==> c.answer.value.credentialID in c.request.credentialIDs)
          && (a.Unlock? ==> Enrolled(c, doc))
          && (session.doc < |p.world.docs| ==> doc == p.world.docs[session.doc])
  }

  /** The credential that answered is enrolled in this document. */
  ghost predicate Enrolled(c: Call, doc: Doc)
    requires c.DeriveCall? && c.answer.Ok?
  {
    c.answer.value.credentialID in CredentialSet(doc.keys)
  }

  predicate SameOrigin(s: Sess, t: Sess) {
    t.doc == s.doc && t.touch == s.touch
  }

  lemma SessionsKeepTouches(port: Port, w: World, a: Action)
    ensures var w' := Step(port, w, a).0;
      && |w.sessions| <= |w'.sessions| <= |w.sessions| + 1
      && (forall i :: 0 <= i < |w.sessions| ==> SameOrigin(w.sessions[i], w'.sessions[i]))
      && (|w'.sessions| > |w.sessions| ==> a.Create? || a.Unlock?)
  {
  }

  lemma CreatedSessionIsTouched(port: Port, p: Past, a: Action)
    requires a.Create? && Op.Create(port, p.world.ledger, a.opts, a.salt, a.draws, a.dataKey).0.Ok?
    ensures MadeByTouch(p, a, Next(port, p, a), |p.world.sessions|)
  {
    hide Op.Create;
    CreateFacts(port, p.world.ledger, a.opts, a.salt, a.draws, a.dataKey);
    var r := Op.Create(port, p.world.ledger, a.opts, a.salt, a.draws, a.dataKey).0;
    assert r.value.doc.keys == [r.value.doc.keys[0]];
  }

  lemma UnlockedSessionIsTouched(port: Port, p: Past, a: Action)
    requires Inv(p) && a.Unlock? && a.vault < |p.world.vaults|
    requires Op.Unlock(port, p.world.ledger, p.world.docs[p.world.vaults[a.vault].doc]).0.Ok?
    ensures MadeByTouch(p, a, Next(port, p, a), |p.world.sessions|)
  {
    var w := p.world;
    var doc := w.docs[w.vaults[a.vault].doc];
    var answer := port.derive(|w.ledger|, Op.UnlockRequest(doc));
    FindKeyIsMember(doc.keys, answer.value.credentialID);
    var k := FindKey(doc.keys, answer.value.credentialID).value;
    var i :| 0 <= i < |doc.keys| && doc.keys[i] == k;
    assert CredentialIDs(doc.keys)[i] == answer.value.credentialID;
  }

  lemma NewSessionIsTouched(port: Port, p: Past, a: Action)
    requires Inv(p) && |Next(port, p, a).world.sessions| > |p.world.sessions|
    ensures MadeByTouch(p, a, Next(port, p, a), |p.world.sessions|)
  {
    SessionsKeepTouches(port, p.world, a);
    if a.Create? {
      CreatedSessionIsTouched(port, p, a);
    } else {
      UnlockedSessionIsTouched(port, p, a);
    }
  }

  /** What a step leaves alone: every session's origin, the ledger so far, and every header. */
  ghost predicate Grows(p: Past, q: Past) {
    && Extends(p.world.ledger, q.world.ledger) && SameHeaders(p.world, q.world)
    && |p.world.sessions| <= |q.world.sessions|
    && forall i :: 0 <= i < |p.world.sessions| ==> SameOrigin(p.world.sessions[i], q.world.sessions[i])
  }

  lemma StepGrows(port: Port, p: Past, a: Action)
    requires Inv(p)
    ensures Grows(p, Next(port, p, a)) && |Next(port, p, a).world.sessions| <= |p.world.sessions| + 1
  {
    hide Inv, Step, StepWord, SameHeaders;
    StepSpends(port, p, a);
    StepKeepsHeaders(port, p, a);
    SessionsKeepTouches(port, p.world, a);
  }

  lemma GrowsNowhere(p: Past)
    ensures Grows(p, p)
  {
  }

  lemma GrowsFurther(p: Past, q: Past, r: Past)
    requires Grows(p, q) && Grows(q, r)
    ensures Grows(p, r)
  {
    assert r.world.ledger[..|p.world.ledger|] == r.world.ledger[..|q.world.ledger|][..|p.world.ledger|];
    forall i | 0 <= i < |p.world.sessions| ensures SameOrigin(p.world.sessions[i], r.world.sessions[i]) {
      assert SameOrigin(p.world.sessions[i], q.world.sessions[i]) && SameOrigin(q.world.sessions[i], r.world.sessions[i]);
    }
  }

  lemma FollowingGrows(port: Port, p: Past, a: Action, q: Past)
    requires Inv(p) && Follows(port, p, a, q)
    ensures Inv(q) && Grows(p, q) && |q.world.sessions| <= |p.world.sessions| + 1
  {
    hide Inv, Next;
    StepGrows(port, p, a);
    StepKeepsInv(port, p, a);
  }

  lemma InvAlong(port: Port, trace: seq<Past>, actions: seq<Action>, i: nat)
    requires IsTrace(port, trace, actions) && trace[0] == FROM_NOTHING && i <= |actions|
    ensures Inv(trace[i])
  {
    hide Inv, Follows, Grows;
    NothingSpentYet();
    for k := 0 to i
      invariant Inv(trace[k])
    {
      FollowingGrows(port, trace[k], actions[k], trace[k + 1]);
    }
  }

  lemma TraceGrows(port: Port, trace: seq<Past>, actions: seq<Action>, i: nat, j: nat)
    requires IsTrace(port, trace, actions) && trace[0] == FROM_NOTHING && i <= j <= |actions|
    ensures Grows(trace[i], trace[j])
  {
    hide Inv, Follows, Grows;
    InvAlong(port, trace, actions, i);
    GrowsNowhere(trace[i]);
    for k := i to j
      invariant Inv(trace[k]) && Grows(trace[i], trace[k])
    {
      FollowingGrows(port, trace[k], actions[k], trace[k + 1]);
      GrowsFurther(trace[i], trace[k], trace[k + 1]);
    }
  }

  /** Whatever the authenticators are: every session of a run, unlocked or since locked, was made by a step that spent
      a touch on it, present, verified as recorded, and after an unlock by a credential enrolled in its document at that
      step. The record of that touch, and the header it was checked against, are still there at the end. */
  lemma EverySessionHasItsOwnTouch(port: Port, trace: seq<Past>, actions: seq<Action>, s: nat) returns (i: nat)
    requires IsTrace(port, trace, actions) && trace[0] == FROM_NOTHING
    requires s < |trace[|actions|].world.sessions|
    ensures i < |actions| && MadeByTouch(trace[i], actions[i], trace[i + 1], s)
    ensures var session, w := trace[i + 1].world.sessions[s], trace[|actions|].world;
      && SameOrigin(session, w.sessions[s]) && session.touch < |w.ledger| && session.doc < |w.docs|
      && w.ledger[session.touch] == trace[i + 1].world.ledger[session.touch]
      && ProvesPresence(w.ledger[session.touch], w.docs[session.doc].header)
  {
    i := StepThatMade(port, trace, actions, s);
    TraceGrows(port, trace, actions, i + 1, |actions|);
    var p, q := trace[i + 1], trace[|actions|];
    assert SameOrigin(p.world.sessions[s], q.world.sessions[s]);
    assert q.world.ledger[..|p.world.ledger|] == p.world.ledger;
  }

  lemma StepThatMade(port: Port, trace: seq<Past>, actions: seq<Action>, s: nat) returns (i: nat)
    requires IsTrace(port, trace, actions) && trace[0] == FROM_NOTHING
    requires s < |trace[|actions|].world.sessions|
    ensures i < |actions| && MadeByTouch(trace[i], actions[i], trace[i + 1], s)
  {
    hide Inv, Next, MadeByTouch;
    i := StepThatGrew(port, trace, actions, s);
    InvAlong(port, trace, actions, i);
    assert Follows(port, trace[i], actions[i], trace[i + 1]);
    NewSessionIsTouched(port, trace[i], actions[i]);
  }

  /** Sessions are made one at a time. */
  lemma StepThatGrew(port: Port, trace: seq<Past>, actions: seq<Action>, s: nat) returns (i: nat)
    requires IsTrace(port, trace, actions) && trace[0] == FROM_NOTHING
    requires s < |trace[|actions|].world.sessions|
    ensures i < |actions| && |trace[i].world.sessions| == s && |trace[i + 1].world.sessions| == s + 1
  {
    var counts := seq(|trace|, j requires 0 <= j < |trace| => |trace[j].world.sessions|);
    forall j | 0 <= j < |actions| ensures counts[j + 1] <= counts[j] + 1 {
      InvAlong(port, trace, actions, j);
      assert Follows(port, trace[j], actions[j], trace[j + 1]);
      FollowingGrows(port, trace[j], actions[j], trace[j + 1]);
    }
    i := Crossing(counts, s);
  }

  lemma Crossing(counts: seq<nat>, s: nat) returns (i: nat)
    requires |counts| > 0 && counts[0] == 0 && s < counts[|counts| - 1]
    requires forall j :: 0 <= j < |counts| - 1 ==> counts[j + 1] <= counts[j] + 1
    ensures i < |counts| - 1 && counts[i] == s && counts[i + 1] == s + 1
  {
    i := |counts| - 1;
    while counts[i] > s
      invariant i < |counts| && (counts[i] > s ==> i > 0)
      invariant i < |counts| - 1 ==> counts[i + 1] > s
      decreases i
    {
      i := i - 1;
    }
  }

  lemma TouchFallsIntoStep(port: Port, trace: seq<Past>, actions: seq<Action>, s: nat) returns (i: nat)
    requires IsTrace(port, trace, actions) && trace[0] == FROM_NOTHING
    requires s < |trace[|actions|].world.sessions|
    ensures i < |actions| && |trace[i].world.sessions| == s && |trace[i + 1].world.sessions| == s + 1
    ensures |trace[i].world.ledger| <= trace[|actions|].world.sessions[s].touch < |trace[i + 1].world.ledger|
  {
    hide IsTrace, ProvesPresence, Enrolled;
    i := EverySessionHasItsOwnTouch(port, trace, actions, s);
  }

  /** No touch makes two sessions. */
  lemma NoTouchIsShared(port: Port, trace: seq<Past>, actions: seq<Action>, s: nat, t: nat)
    requires IsTrace(port, trace, actions) && trace[0] == FROM_NOTHING
    requires s < t < |trace[|actions|].world.sessions|
    ensures trace[|actions|].world.sessions[s].touch < trace[|actions|].world.sessions[t].touch
  {
    hide Follows, SameHeaders;
    var i := TouchFallsIntoStep(port, trace, actions, s);
    var j := TouchFallsIntoStep(port, trace, actions, t);
    if j <= i {
      TraceGrows(port, trace, actions, j, i);
    }
    TraceGrows(port, trace, actions, i + 1, j);
  }

  // ----- What Create does not check -----

  /** An authenticator that creates one credential and answers as another. */
  function Impostor(): Port {
    Port((n, request) => Ok(EnrollResult([1], false, [])),
         (n, request: DeriveRequest) => Ok(DeriveResult(request.salt, [2], true, false)))
  }

  function TrustingOptions(): Op.Options {
    Op.Options([0x61], [], cred => None, [])
  }

  /** Create accepts it: nothing compares the credential that answered with the one just created. The vault is made,
      and the credential behind its session's touch is not enrolled in it. */
  lemma CreateAcceptsAnImpostor(salt: Salt, userID: UserID, nonce: Nonce, dataKey: DataKey)
    ensures var a := Create(TrustingOptions(), Some(salt), Op.Draws(Some(userID), Some(nonce)), Some(dataKey));
      var p := Next(Impostor(), FROM_NOTHING, a);
      && Reachable(Impostor(), p) && |p.world.docs| == |p.world.sessions| == 1
      && p.world.sessions[0].key == Some(dataKey) && p.world.sessions[0].touch < |p.world.ledger|
      && var c := p.world.ledger[p.world.sessions[0].touch];
         ProvesPresence(c, p.world.docs[0].header) && !Enrolled(c, p.world.docs[0])
  {
    var a := Create(TrustingOptions(), Some(salt), Op.Draws(Some(userID), Some(nonce)), Some(dataKey));
    hide Op.Create;
    ImpostorCreates(salt, userID, nonce, dataKey);
    CreateFacts(Impostor(), [], TrustingOptions(), Some(salt), a.draws, Some(dataKey));
    NothingReached(Impostor());
    OneMoreStep(Impostor(), FROM_NOTHING, a);
  }

  lemma ImpostorCreates(salt: Salt, userID: UserID, nonce: Nonce, dataKey: DataKey)
    ensures var r := Op.Create(Impostor(), [], TrustingOptions(), Some(salt), Op.Draws(Some(userID), Some(nonce)),
                               Some(dataKey)).0;
      && r.Ok? && r.value.doc.keys != [] && r.value.doc.keys[0].credentialID == [1]
      && r.value.derived.credentialID == [2]
  {
    assert Probe(salt) != salt;
  }

  lemma NothingReached(port: Port)
    ensures Reachable(port, FROM_NOTHING)
  {
    hide Follows;
    assert IsTrace(port, [FROM_NOTHING], []);
    assert Reaches(port, FROM_NOTHING, [], FROM_NOTHING);
  }
}
