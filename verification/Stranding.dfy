/** Losing the last key: final once every session is locked, and still mendable before that. */
module Stranding {
  import opened Common
  import opened Aad
  import opened Document
  import opened Authenticators
  import opened Entropy
  import opened Runs
  import opened Refinement
  import D = Decisions
  import Op = Operations

  // ----- One document -----

  /** No key is enrolled, and no session over the document holds the data key. */
  ghost predicate Stranded(w: World, d: nat) {
    && d < |w.docs| && w.docs[d].keys == []
    && (forall s :: 0 <= s < |w.sessions| && w.sessions[s].doc == d ==> w.sessions[s].key.None?)
  }

  /** Whatever is done next, by anyone, with any authenticator, the document stays stranded. */
  lemma StrandingIsPermanent(port: Port, p: Past, actions: seq<Action>, q: Past, d: nat)
    requires Stranded(p.world, d) && Reaches(port, p, actions, q)
    ensures Stranded(q.world, d)
  {
    hide Stranded, Step;
    var trace: seq<Past> :| IsTrace(port, trace, actions) && trace[0] == p && trace[|actions|] == q;
    for i := 0 to |actions|
      invariant Stranded(trace[i].world, d)
    {
      StepKeepsStranded(port, trace[i].world, actions[i], d);
    }
  }

  lemma StepKeepsStranded(port: Port, w: World, a: Action, d: nat)
    requires Stranded(w, d)
    ensures Stranded(Step(port, w, a).0, d)
  {
    if a.Use? && HasSession(w, a.session) {
      UseKeepsStranded(port, w, a.session, a.act, d);
    }
  }

  lemma UseKeepsStranded(port: Port, w: World, s: nat, act: Act, d: nat)
    requires Stranded(w, d) && HasSession(w, s)
    ensures Stranded(StepUse(port, w, s, act).0, d)
  {
  }

  // ----- Everything descended from one Create -----

  /** Documents, copies, vaults and sessions refer to each other within bounds. */
  ghost predicate Aligned(p: Past) {
    && |p.history.lines| == |p.world.docs| && |p.history.blobs| == |p.world.blobs|
    && (forall d :: 0 <= d < |p.world.docs| ==> p.history.lines[d].origin < |p.history.origins|)
    && (forall b :: 0 <= b < |p.world.blobs| ==>
          p.world.blobs[b].Decoded? && p.history.blobs[b].origin < |p.history.origins|)
    && (forall s :: 0 <= s < |p.world.sessions| ==> p.world.sessions[s].doc < |p.world.docs|)
    && (forall v :: 0 <= v < |p.world.vaults| ==> p.world.vaults[v].doc < |p.world.docs|)
  }

  /** No document and no sealed copy descended from this Create has a key, and no session over one is unlocked. */
  ghost predicate Lost(p: Past, o: nat) {
    && Aligned(p) && o < |p.history.origins|
    && (forall d :: 0 <= d < |p.world.docs| && p.history.lines[d].origin == o ==> p.world.docs[d].keys == [])
    && (forall b :: 0 <= b < |p.world.blobs| && p.history.blobs[b].origin == o ==> p.world.blobs[b].doc.keys == [])
    && (forall s :: 0 <= s < |p.world.sessions| && p.history.lines[p.world.sessions[s].doc].origin == o
          ==> p.world.sessions[s].key.None?)
  }

  lemma CreateKeepsLost(port: Port, p: Past, a: Action, o: nat)
    requires Lost(p, o) && a.Create?
    ensures Lost(Next(port, p, a), o)
  {
    hide Op.Create;
  }

  lemma OpenWithKeepsLost(port: Port, p: Past, a: Action, o: nat)
    requires Lost(p, o) && a.OpenWith?
    ensures Lost(Next(port, p, a), o)
  {
  }

  lemma UnlockKeepsLost(port: Port, p: Past, a: Action, o: nat)
    requires Lost(p, o) && a.Unlock?
    ensures Lost(Next(port, p, a), o)
  {
  }

  lemma StepKeepsLost(port: Port, p: Past, a: Action, o: nat)
    requires Lost(p, o)
    ensures Lost(Next(port, p, a), o)
  {
    hide Lost, Next;
    match a
    case Create(_, _, _, _) => CreateKeepsLost(port, p, a, o);
    case OpenWith(_, _) => OpenWithKeepsLost(port, p, a, o);
    case Unlock(_) => UnlockKeepsLost(port, p, a, o);
    case Use(s, act) =>
      if HasSession(p.world, s) {
        UseKeepsLost(port, p, s, act, o);
      } else {
        NoSessionNoStep(port, p, s, act);
      }
  }

  /** A locked session changes no document; it can still serialise, and it stays locked. */
  lemma LockedSessionChangesNothing(port: Port, w: World, s: nat, act: Act)
    requires HasSession(w, s) && w.sessions[s].key.None?
    ensures StepUse(port, w, s, act).0 == if act.Seal? then StepSeal(w, s).0 else w
  {
    var d := w.sessions[s].doc;
    assert WithDoc(w, d, w.docs[d]) == w;
    assert w.sessions[s := w.sessions[s].(key := None)] == w.sessions;
  }

  ghost predicate SameOrigins(h: History, h': History) {
    && h'.origins == h.origins && h'.blobs == h.blobs && |h'.lines| == |h.lines|
    && forall d :: 0 <= d < |h.lines| ==> h'.lines[d].origin == h.lines[d].origin
  }

  /** Changing one document that descends from another Create loses and rescues nothing here. */
  lemma ElsewhereKeepsLost(p: Past, q: Past, d: nat, doc: Doc, o: nat)
    requires Lost(p, o) && d < |p.world.docs| && p.history.lines[d].origin != o
    requires SameOrigins(p.history, q.history)
    requires q.world.docs == p.world.docs[d := doc] && q.world.blobs == p.world.blobs
    requires q.world.sessions == p.world.sessions && q.world.vaults == p.world.vaults
    ensures Lost(q, o)
  {
  }

  ghost predicate OneDocChanged(p: Past, q: Past, d: nat)
    requires d < |p.world.docs|
  {
    && SameOrigins(p.history, q.history)
    && |q.world.docs| == |p.world.docs| && q.world.docs == p.world.docs[d := q.world.docs[d]]
    && q.world.blobs == p.world.blobs
    && q.world.sessions == p.world.sessions && q.world.vaults == p.world.vaults
  }

  lemma UseChangesOneDoc(port: Port, p: Past, s: nat, act: Act)
    requires HasSession(p.world, s) && !act.Seal? && !act.Lock? && |p.history.lines| == |p.world.docs|
    ensures OneDocChanged(p, Next(port, p, Use(s, act)), p.world.sessions[s].doc)
  {
  }

  lemma SealKeepsLost(port: Port, p: Past, s: nat, o: nat)
    requires Lost(p, o) && HasSession(p.world, s)
    ensures Lost(Next(port, p, Use(s, Seal)), o)
  {
  }

  lemma LockKeepsLost(port: Port, p: Past, s: nat, o: nat)
    requires Lost(p, o) && HasSession(p.world, s)
    ensures Lost(Next(port, p, Use(s, Lock)), o)
  {
  }

  lemma UseKeepsLost(port: Port, p: Past, s: nat, act: Act, o: nat)
    requires Lost(p, o) && HasSession(p.world, s)
    ensures Lost(Next(port, p, Use(s, act)), o)
  {
    var d := p.world.sessions[s].doc;
    var q := Next(port, p, Use(s, act));
    if act.Seal? {
      SealKeepsLost(port, p, s, o);
    } else if act.Lock? {
      LockKeepsLost(port, p, s, o);
    } else {
      UseChangesOneDoc(port, p, s, act);
      if p.history.lines[d].origin == o {
        LockedSessionChangesNothing(port, p.world, s, act);
      } else {
        ElsewhereKeepsLost(p, q, d, q.world.docs[d], o);
      }
    }
  }

  /** Once every copy is keyless and locked, no continuation ever has a key or an unlocked session again. */
  lemma LossIsPermanent(port: Port, p: Past, actions: seq<Action>, q: Past, o: nat)
    requires Lost(p, o) && Reaches(port, p, actions, q)
    ensures Lost(q, o)
  {
    hide Lost, Next;
    var trace: seq<Past> :| IsTrace(port, trace, actions) && trace[0] == p && trace[|actions|] == q;
    for i := 0 to |actions|
      invariant Lost(trace[i], o)
    {
      StepKeepsLost(port, trace[i], actions[i], o);
    }
  }

  // ----- Until then an unlocked session can enrol again -----

  /** The three answers an enrollment needs: a credential found genuine that is not enrolled yet, a derivation with a
      touch verified as recorded, and a probe that differs from it. */
  ghost predicate AnswersEnrollment(doc: Doc, opts: Op.Options, a: D.Answers) {
    && a.created.Ok? && a.derived.Ok? && a.probed.Ok?
    && var (cred, derived, probed) := (a.created.value, a.derived.value, a.probed.value);
       && !cred.residentKey && cred.credentialID != [] && opts.roots(cred) == None
       && !D.CredentialInUse(doc.keys, cred.credentialID)
       && derived.userPresent && derived.userVerified == doc.header.userVerified && derived.secret != []
       && probed.userPresent && probed.userVerified == doc.header.userVerified && probed.secret != []
       && probed.secret != derived.secret
  }

  /** What an entry's own key answers to the request of an unlock when it is touched and verified as recorded. */
  function OwnAnswer(h: Header, k: SealedKey, secret: Bytes): DeriveResult {
    DeriveResult(secret, k.credentialID, true, h.userVerified)
  }

  /** An unlocked session over any document, whether it has lost every key or holds any number, enrols a new key in any
      free slot. The new key unlocks what results to the data key, and every old one gives what it gave before. */
  lemma ReenrollmentRescues(port: Port, ledger: seq<Call>, doc: Doc, dataKey: DataKey, opts: Op.Options, slot: nat,
                            keyLabel: Bytes, userID: UserID, nonce: Nonce, other: Port, later: seq<Call>, k: SealedKey,
                            secret: Bytes)
    requires |doc.header.salt| == 32 && DistinctCredentials(doc.keys) && !D.SlotInUse(doc.keys, slot)
    requires AnswersEnrollment(doc, opts, D.AnswersTo(port, |ledger|, doc.header.rpID, D.RpNameOf(opts), userID,
                                                      doc.header.salt, D.UvFor(doc.header.userVerified)))
    ensures var h := doc.header;
      var a := D.AnswersTo(port, |ledger|, h.rpID, D.RpNameOf(opts), userID, h.salt, D.UvFor(h.userVerified));
      var entry := D.EntryFor(h, dataKey, a, slot, keyLabel, nonce);
      var rescued := Doc(h, doc.keys + [entry], doc.secrets);
      var (added, l) := Op.Enrolling(port, ledger, doc, Some(dataKey), opts, slot, keyLabel,
                                     Op.Draws(Some(userID), Some(nonce)));
      && added == Ok((entry, a.derived.value)) && |l| == |ledger| + 3
      && Op.WithKey(doc, added) == (None, rescued)
      && (h.entropyVerified && k in rescued.keys
          && other.derive(|later|, D.UnlockAsks(rescued)) == Ok(OwnAnswer(h, k, secret)) ==>
            && Op.Unlock(other, later, rescued).0 == D.EntryGives(h, k, secret)
            && (k == entry && secret == a.derived.value.secret ==> Op.Unlock(other, later, rescued).0 == Ok(dataKey)))
  {
    hide Op.Enrolling, Op.Unlock, D.AnswersTo, D.UnlockAsks, D.SlotInUse;
    var h := doc.header;
    var a := D.AnswersTo(port, |ledger|, h.rpID, D.RpNameOf(opts), userID, h.salt, D.UvFor(h.userVerified));
    D.EnrollKeyIsDecided(port, ledger, doc, Some(dataKey), opts, slot, keyLabel, Op.Draws(Some(userID), Some(nonce)));
    var entry := D.EntryFor(h, dataKey, a, slot, keyLabel, nonce);
    var rescued := Doc(h, doc.keys + [entry], doc.secrets);
    AppendDistinct(doc.keys, entry);
    D.UnlockIsDecided(other, later, rescued);
    if k in rescued.keys {
      var i :| 0 <= i < |rescued.keys| && rescued.keys[i] == k;
      assert D.CredentialInUse(rescued.keys, k.credentialID);
    }
  }

  lemma AppendDistinct(keys: seq<SealedKey>, entry: SealedKey)
    requires DistinctCredentials(keys) && !D.CredentialInUse(keys, entry.credentialID)
    ensures DistinctCredentials(keys + [entry])
  {
    var r := keys + [entry];
    forall i, j | 0 <= i < j < |r| ensures r[i].credentialID != r[j].credentialID {
      assert r[i] == keys[i];
    }
  }
}
