/** A client program that holds any number of vault objects. Its methods drive the real objects, with their
    sharing and their buffers, and each is proved to do to them exactly what the machine of Runs does to values. */
module Program {
  import opened Common
  import opened Document
  import opened Authenticators
  import opened Wire
  import opened Vaults
  import Runs
  import Refinement
  import Op = Operations

  /** What a caller sees of a step: a value or an error, or nothing if there is no such object to ask. */
  function Outcome(e: Runs.Event): Option<Result<Bytes>> {
    match e
    case NoSuchHandle => None
    case Failed(error) => Some(Err(error))
    case Answered(plaintext) => Some(Ok(plaintext))
    case _ => Some(Ok([]))
  }

  function Reported(err: Option<Error>): Option<Result<Bytes>> {
    if err.Some? then Some(Err(err.value)) else Some(Ok([]))
  }

  ghost predicate NoDuplicates<T>(xs: seq<T>) {
    forall i, j :: 0 <= i < j < |xs| ==> xs[i] != xs[j]
  }

  lemma OthersDiffer<T>(xs: seq<T>, i: nat)
    requires NoDuplicates(xs) && i < |xs|
    ensures forall j :: 0 <= j < |xs| && j != i ==> xs[j] != xs[i]
  {
  }

  lemma NoDuplicatesWith<T>(xs: seq<T>, x: T)
    requires NoDuplicates(xs) && x !in xs
    ensures NoDuplicates(xs + [x])
  {
    forall i, j | 0 <= i < j < |xs| + 1 ensures (xs + [x])[i] != (xs + [x])[j] {
      assert (xs + [x])[i] == xs[i] && xs[i] in xs;
    }
  }

  /** Every unlocked session owns its key buffer alone: no other session and no document has it. */
  ghost predicate Disjoint(buffers: seq<array?<byte>>, salts: seq<array<byte>>) {
    && (forall i, j :: 0 <= i < j < |buffers| && buffers[i] != null ==> buffers[i] != buffers[j])
    && (forall i, d :: 0 <= i < |buffers| && 0 <= d < |salts| && buffers[i] != null ==> buffers[i] != salts[d])
  }

  lemma DisjointWithout(buffers: seq<array?<byte>>, salts: seq<array<byte>>, s: nat)
    requires Disjoint(buffers, salts) && s < |buffers|
    ensures Disjoint(buffers[s := null], salts)
    ensures buffers[s] != null ==> forall i :: 0 <= i < |buffers| && i != s ==> buffers[i] != buffers[s]
    ensures buffers[s] != null ==> forall d :: 0 <= d < |salts| ==> salts[d] != buffers[s]
  {
  }

  lemma DisjointWithBuffer(buffers: seq<array?<byte>>, salts: seq<array<byte>>, buffer: array?<byte>)
    requires Disjoint(buffers, salts)
    requires buffer != null ==> buffer !in buffers && buffer !in salts
    ensures Disjoint(buffers + [buffer], salts)
  {
    var r := buffers + [buffer];
    forall i, j | 0 <= i < j < |r| && r[i] != null ensures r[i] != r[j] {
      assert r[i] == buffers[i] && buffers[i] in buffers;
    }
  }

  lemma DisjointWithSalt(buffers: seq<array?<byte>>, salts: seq<array<byte>>, salt: array<byte>)
    requires Disjoint(buffers, salts) && salt !in buffers
    ensures Disjoint(buffers, salts + [salt])
  {
    var r := salts + [salt];
    forall i, d | 0 <= i < |buffers| && 0 <= d < |r| && buffers[i] != null ensures buffers[i] != r[d] {
      assert buffers[i] in buffers;
    }
  }

  ghost predicate DocsMatch(docs: seq<SealedVault>, values: seq<Doc>)
    reads docs, set d | d in docs :: d.salt
  {
    && |docs| == |values| && NoDuplicates(docs)
    && (forall i :: 0 <= i < |docs| ==> docs[i].Value() == values[i])
  }

  ghost predicate KeysMatch(sessions: seq<Session>, values: seq<Runs.Sess>)
    reads sessions, set s | s in sessions :: s.dataKey
  {
    && |sessions| == |values|
    && (forall i :: 0 <= i < |sessions| ==> sessions[i].Key() == values[i].key)
  }

  ghost predicate VaultsAgree(vaults: seq<Vault>, handles: seq<Runs.Handle>, docs: seq<SealedVault>) {
    && |vaults| == |handles|
    && (forall i :: 0 <= i < |vaults| ==> handles[i].doc < |docs| && vaults[i].doc == docs[handles[i].doc])
    && (forall i :: 0 <= i < |vaults| ==> vaults[i].opts == handles[i].opts)
  }

  /** Sessions with the same document index share the document object. */
  ghost predicate SessionsAgree(sessions: seq<Session>, values: seq<Runs.Sess>, docs: seq<SealedVault>) {
    && |sessions| == |values| && NoDuplicates(sessions)
    && (forall i :: 0 <= i < |sessions| ==> values[i].doc < |docs| && sessions[i].doc == docs[values[i].doc])
    && (forall i :: 0 <= i < |sessions| ==> sessions[i].opts == values[i].opts)
  }

  lemma StillAgree(vaults: seq<Vault>, handles: seq<Runs.Handle>, sessions: seq<Session>, values: seq<Runs.Sess>,
                   docs: seq<SealedVault>, doc: SealedVault)
    requires VaultsAgree(vaults, handles, docs) && SessionsAgree(sessions, values, docs)
    ensures VaultsAgree(vaults, handles, docs + [doc]) && SessionsAgree(sessions, values, docs + [doc])
  {
  }

  lemma AgreeWithSession(sessions: seq<Session>, values: seq<Runs.Sess>, docs: seq<SealedVault>, session: Session,
                         value: Runs.Sess)
    requires SessionsAgree(sessions, values, docs) && session !in sessions
    requires value.doc < |docs| && session.doc == docs[value.doc] && session.opts == value.opts
    ensures SessionsAgree(sessions + [session], values + [value], docs)
  {
    NoDuplicatesWith(sessions, session);
  }

  lemma AgreeWithVault(vaults: seq<Vault>, handles: seq<Runs.Handle>, docs: seq<SealedVault>, vault: Vault,
                       handle: Runs.Handle)
    requires VaultsAgree(vaults, handles, docs)
    requires handle.doc < |docs| && vault.doc == docs[handle.doc] && vault.opts == handle.opts
    ensures VaultsAgree(vaults + [vault], handles + [handle], docs)
  {
  }

  lemma AgreeWhenLocked(sessions: seq<Session>, values: seq<Runs.Sess>, docs: seq<SealedVault>, s: nat)
    requires SessionsAgree(sessions, values, docs) && s < |sessions|
    ensures SessionsAgree(sessions, values[s := values[s].(key := None)], docs)
  {
  }

  lemma Agreement(sessions: seq<Session>, values: seq<Runs.Sess>, docs: seq<SealedVault>, s: nat)
    requires SessionsAgree(sessions, values, docs) && s < |sessions|
    ensures values[s].doc < |docs| && sessions[s].doc == docs[values[s].doc] && sessions[s].opts == values[s].opts
    ensures forall i :: 0 <= i < |sessions| && i != s ==> sessions[i] != sessions[s]
  {
  }

  lemma CreateStep(port: Port, w: Runs.World, opts: Op.Options, salt: Option<Salt>, draws: Op.Draws,
                   dataKey: Option<DataKey>)
    ensures var (made, ledger) := Op.Create(port, w.ledger, opts, salt, draws, dataKey);
      var (w', e) := Runs.StepCreate(port, w, opts, salt, draws, dataKey);
      match made
      case Err(error) => w' == w.(ledger := ledger) && Outcome(e) == Some(Err(error))
      case Ok(c) =>
        && w' == w.(docs := w.docs + [c.doc], ledger := ledger,
                    sessions := w.sessions + [Runs.Sess(|w.docs|, opts, Some(c.dataKey), |w.ledger| + 1)])
        && Outcome(e) == Some(Ok([]))
  {
  }

  lemma EnrollKeyStep(port: Port, w: Runs.World, s: nat, slot: int, keyLabel: Bytes, draws: Op.Draws)
    requires Runs.HasSession(w, s)
    ensures var session := w.sessions[s];
      var (added, ledger) := Op.Enrolling(port, w.ledger, w.docs[session.doc], session.key, session.opts, slot, keyLabel,
                                          draws);
      var (err, doc) := Op.WithKey(w.docs[session.doc], added);
      var (w', e) := Runs.StepEnrollKey(port, w, s, slot, keyLabel, draws);
      w' == w.(docs := w.docs[session.doc := doc], ledger := ledger) && Outcome(e) == Reported(err)
  {
  }

  lemma PutStep(w: Runs.World, s: nat, name: Bytes, secret: Op.Reader, nonce: Option<Nonce>)
    requires Runs.HasSession(w, s)
    ensures var d := w.sessions[s].doc;
      var (err, doc) := Op.Put(w.docs[d], w.sessions[s].key, name, secret, nonce);
      var (w', e) := Runs.StepPut(w, s, name, secret, nonce);
      w' == w.(docs := w.docs[d := doc]) && Outcome(e) == Reported(err)
  {
  }

  lemma DeleteStep(w: Runs.World, s: nat, name: Bytes)
    requires Runs.HasSession(w, s)
    ensures var d := w.sessions[s].doc;
      var (err, doc) := Op.Delete(w.docs[d], w.sessions[s].key, name);
      var (w', e) := Runs.StepDelete(w, s, name);
      w' == w.(docs := w.docs[d := doc]) && Outcome(e) == Reported(err)
  {
  }

  lemma RemoveKeyStep(w: Runs.World, s: nat, slot: int)
    requires Runs.HasSession(w, s)
    ensures var d := w.sessions[s].doc;
      var (err, doc) := Op.RemoveKey(w.docs[d], w.sessions[s].key, slot);
      var (w', e) := Runs.StepRemoveKey(w, s, slot);
      w' == w.(docs := w.docs[d := doc]) && Outcome(e) == Reported(err)
  {
  }

  lemma ForceRemoveKeyStep(w: Runs.World, s: nat, slot: int)
    requires Runs.HasSession(w, s)
    ensures var d := w.sessions[s].doc;
      var (err, doc) := Op.ForceRemoveKey(w.docs[d], w.sessions[s].key, slot);
      var (w', e) := Runs.StepForceRemoveKey(w, s, slot);
      w' == w.(docs := w.docs[d := doc]) && Outcome(e) == Reported(err)
  {
  }

  class Client {
    const auth: Authenticator
    var docs: seq<SealedVault>
    var vaults: seq<Vault>
    var sessions: seq<Session>
    var blobs: seq<Sealed>
    ghost var world: Runs.World

    // ----- What the objects amount to -----

    ghost function Buffers(): (r: seq<array?<byte>>)
      reads this, sessions
      ensures |r| == |sessions| && forall i :: 0 <= i < |sessions| ==> r[i] == sessions[i].dataKey
    {
      seq(|sessions|, i requires 0 <= i < |sessions| reads this, sessions => sessions[i].dataKey)
    }

    ghost function Salts(): (r: seq<array<byte>>)
      reads this, docs
      ensures |r| == |docs| && forall i :: 0 <= i < |docs| ==> r[i] == docs[i].salt
    {
      seq(|docs|, i requires 0 <= i < |docs| reads this, docs => docs[i].salt)
    }

    ghost predicate ObjectsMatch()
      reads this, docs, sessions, set d | d in docs :: d.salt,
            set s | s in sessions :: s.dataKey
    {
      && DocsMatch(docs, world.docs) && KeysMatch(sessions, world.sessions)
      && Disjoint(Buffers(), Salts()) && world.blobs == blobs
      && VaultsAgree(vaults, world.vaults, docs) && SessionsAgree(sessions, world.sessions, docs)
    }

    ghost predicate Valid()
      reads this, auth, docs, sessions, set d | d in docs :: d.salt,
            set s | s in sessions :: s.dataKey
    {
      ObjectsMatch() && world.ledger == auth.ledger
    }

    constructor (auth: Authenticator)
      requires auth.ledger == []
      ensures Valid() && world == Runs.START && this.auth == auth
    {
      this.auth := auth;
      docs, vaults, sessions, blobs := [], [], [], [];
      world := Runs.START;
    }

    /** At most one document and one session were taken up, and they and the session's buffer are new. */
    twostate predicate TookUpOnlyFresh()
      reads this, sessions
    {
      && (docs == old(docs)
          || (|docs| == |old(docs)| + 1 && docs[..|old(docs)|] == old(docs) && fresh(docs[|old(docs)|])))
      && ((sessions == old(sessions) && Buffers() == old(Buffers()))
          || (&& |sessions| == |old(sessions)| + 1 && sessions[..|old(sessions)|] == old(sessions)
              && fresh(sessions[|old(sessions)|])
              && Buffers()[..|old(sessions)|] == old(Buffers())
              && (Buffers()[|old(sessions)|] != null ==> fresh(Buffers()[|old(sessions)|]))))
    }

    /** Whatever was not held before is new. */
    twostate predicate OnlyFreshAdded()
      reads this, sessions
    {
      && (forall d :: d in docs ==> d in old(docs) || fresh(d))
      && (forall s :: s in sessions ==> s in old(sessions) || fresh(s))
      && (forall b: array?<byte> :: b in Buffers() ==> b == null || b in old(Buffers()) || fresh(b))
    }

    twostate lemma TakingUpAddsOnlyFresh()
      requires TookUpOnlyFresh()
      ensures OnlyFreshAdded()
    {
      assert docs != old(docs) ==> docs == old(docs) + [docs[|old(docs)|]];
      assert sessions != old(sessions) ==> sessions == old(sessions) + [sessions[|old(sessions)|]];
      assert Buffers() != old(Buffers()) ==> Buffers() == old(Buffers()) + [Buffers()[|old(sessions)|]];
    }

    lemma DocValue(d: nat)
      requires Valid() && d < |docs|
      ensures d < |world.docs| && docs[d].Value() == world.docs[d]
      ensures forall i :: 0 <= i < |docs| && i != d ==> docs[i] != docs[d]
    {
      OthersDiffer(docs, d);
    }

    lemma SessionKey(s: nat)
      requires Valid() && s < |sessions|
      ensures s < |world.sessions| && sessions[s].Key() == world.sessions[s].key && sessions[s].Valid()
    {
      var d := world.sessions[s].doc;
      Agreement(sessions, world.sessions, docs, s);
      assert sessions[s].dataKey == Buffers()[s] && docs[d].salt == Salts()[d];
    }

    /** If nothing was written to but one document, and not to its salt, the client is still valid once its world
        has followed. */
    twostate lemma OneDocChanged(d: nat)
      requires old(Valid()) && d < |docs|
      requires docs == old(docs) && vaults == old(vaults) && sessions == old(sessions) && blobs == old(blobs)
      requires forall i :: 0 <= i < |docs| ==> (i != d ==> unchanged(docs[i])) && unchanged(old(docs[i].salt))
      requires forall i :: 0 <= i < |sessions| ==> unchanged(sessions[i])
      requires forall i :: 0 <= i < |sessions| && sessions[i].dataKey != null ==> unchanged(sessions[i].dataKey)
      requires docs[d].salt == old(docs[d].salt)
      requires world == old(world).(docs := old(world).docs[d := docs[d].Value()], ledger := auth.ledger)
      ensures Valid() && Buffers() == old(Buffers())
    {
      hide NoDuplicates, Disjoint, SessionsAgree, VaultsAgree;
      OthersDiffer(docs, d);
      assert Buffers() == old(Buffers()) && Salts() == old(Salts());
    }

    twostate lemma OnlyLedgerChanged()
      requires old(Valid())
      requires docs == old(docs) && vaults == old(vaults) && sessions == old(sessions) && blobs == old(blobs)
      requires forall i :: 0 <= i < |docs| ==> unchanged(docs[i]) && unchanged(docs[i].salt)
      requires forall i :: 0 <= i < |sessions| ==> unchanged(sessions[i])
      requires forall i :: 0 <= i < |sessions| && sessions[i].dataKey != null ==> unchanged(sessions[i].dataKey)
      requires world == old(world).(ledger := auth.ledger)
      ensures Valid() && Buffers() == old(Buffers())
    {
      hide NoDuplicates, Disjoint, SessionsAgree, VaultsAgree;
      assert Buffers() == old(Buffers()) && Salts() == old(Salts());
    }

    // ----- Each operation on the objects is the machine's step -----

    /** Wipes one buffer in place; every other session and every document keeps its value. */
    method Lock(s: nat)
      requires Valid() && s < |sessions|
      modifies this`world, sessions[s], sessions[s].dataKey
      ensures Valid() && world == Runs.StepLock(old(world), s).0 && Buffers() == old(Buffers())[s := null]
    {
      hide NoDuplicates, Disjoint, SessionsAgree, VaultsAgree;
      Agreement(sessions, world.sessions, docs, s);
      AgreeWhenLocked(sessions, world.sessions, docs, s);
      DisjointWithout(Buffers(), Salts(), s);
      ghost var buffer := sessions[s].dataKey;
      sessions[s].Lock();
      world := Runs.StepLock(world, s).0;
      assert Buffers() == old(Buffers())[s := null] && Salts() == old(Salts());
      forall d | 0 <= d < |docs| ensures docs[d].Value() == world.docs[d] {
        assert buffer != null ==> Salts()[d] != buffer;
      }
      forall i | 0 <= i < |sessions| ensures sessions[i].Key() == world.sessions[i].key {
        assert i != s ==> (buffer != null ==> old(Buffers())[i] != buffer);
      }
    }

    method Open(s: nat, name: Bytes) returns (r: Result<Bytes>)
      requires Valid() && s < |sessions|
      ensures Runs.StepOpen(world, s, name)
           == (world, match r case Ok(plaintext) => Runs.Answered(plaintext) case Err(e) => Runs.Failed(e))
    {
      r := ReadString(sessions[s], name);
    }

    method Put(s: nat, name: Bytes, secret: Op.Reader, nonce: Option<Nonce>) returns (err: Option<Error>)
      requires Valid() && s < |sessions|
      modifies this`world, sessions[s].doc
      ensures Valid() && Buffers() == old(Buffers())
      ensures var (w, e) := Runs.StepPut(old(world), s, name, secret, nonce);
        world == w && Reported(err) == Outcome(e)
    {
      hide DocsMatch, KeysMatch, SessionsAgree, VaultsAgree, Disjoint, NoDuplicates;
      hide Op.Put, Runs.StepPut;
      WithinBounds();
      Agreement(sessions, world.sessions, docs, s);
      PutStep(world, s, name, secret, nonce);
      DocValue(world.sessions[s].doc);
      SessionKey(s);
      ghost var d := world.sessions[s].doc;
      err := sessions[s].Put(name, secret, nonce);
      world := Runs.StepPut(world, s, name, secret, nonce).0;
      OneDocChanged(d);
    }

    method Delete(s: nat, name: Bytes) returns (err: Option<Error>)
      requires Valid() && s < |sessions|
      modifies this`world, sessions[s].doc
      ensures Valid() && Buffers() == old(Buffers())
      ensures var (w, e) := Runs.StepDelete(old(world), s, name);
        world == w && Reported(err) == Outcome(e)
    {
      hide DocsMatch, KeysMatch, SessionsAgree, VaultsAgree, Disjoint, NoDuplicates;
      hide Op.Delete, Runs.StepDelete;
      WithinBounds();
      Agreement(sessions, world.sessions, docs, s);
      DeleteStep(world, s, name);
      DocValue(world.sessions[s].doc);
      SessionKey(s);
      ghost var d := world.sessions[s].doc;
      err := sessions[s].Delete(name);
      world := Runs.StepDelete(world, s, name).0;
      OneDocChanged(d);
    }

    method EnrollKey(s: nat, slot: int, keyLabel: Bytes, draws: Op.Draws) returns (err: Option<Error>)
      requires Valid() && s < |sessions|
      modifies this`world, sessions[s].doc, auth
      ensures Valid() && Buffers() == old(Buffers())
      ensures var (w, e) := Runs.StepEnrollKey(auth.port, old(world), s, slot, keyLabel, draws);
        world == w && Reported(err) == Outcome(e)
    {
      hide DocsMatch, KeysMatch, SessionsAgree, VaultsAgree, Disjoint, NoDuplicates;
      hide Op.Enrolling, Op.WithKey, Runs.StepEnrollKey;
      WithinBounds();
      Agreement(sessions, world.sessions, docs, s);
      EnrollKeyStep(auth.port, world, s, slot, keyLabel, draws);
      DocValue(world.sessions[s].doc);
      SessionKey(s);
      ghost var d := world.sessions[s].doc;
      err := sessions[s].EnrollKey(auth, slot, keyLabel, draws);
      world := Runs.StepEnrollKey(auth.port, world, s, slot, keyLabel, draws).0;
      OneDocChanged(d);
    }

    method RemoveKey(s: nat, slot: int) returns (err: Option<Error>)
      requires Valid() && s < |sessions|
      modifies this`world, sessions[s].doc
      ensures Valid() && Buffers() == old(Buffers())
      ensures var (w, e) := Runs.StepRemoveKey(old(world), s, slot);
        world == w && Reported(err) == Outcome(e)
    {
      hide DocsMatch, KeysMatch, SessionsAgree, VaultsAgree, Disjoint, NoDuplicates;
      hide Op.RemoveKey, Runs.StepRemoveKey;
      WithinBounds();
      Agreement(sessions, world.sessions, docs, s);
      RemoveKeyStep(world, s, slot);
      DocValue(world.sessions[s].doc);
      SessionKey(s);
      ghost var d := world.sessions[s].doc;
      err := sessions[s].RemoveKey(slot);
      world := Runs.StepRemoveKey(world, s, slot).0;
      OneDocChanged(d);
    }

    method ForceRemoveKey(s: nat, slot: int) returns (err: Option<Error>)
      requires Valid() && s < |sessions|
      modifies this`world, sessions[s].doc
      ensures Valid() && Buffers() == old(Buffers())
      ensures var (w, e) := Runs.StepForceRemoveKey(old(world), s, slot);
        world == w && Reported(err) == Outcome(e)
    {
      hide DocsMatch, KeysMatch, SessionsAgree, VaultsAgree, Disjoint, NoDuplicates;
      hide Op.ForceRemoveKey, Runs.StepForceRemoveKey;
      WithinBounds();
      Agreement(sessions, world.sessions, docs, s);
      ForceRemoveKeyStep(world, s, slot);
      DocValue(world.sessions[s].doc);
      SessionKey(s);
      ghost var d := world.sessions[s].doc;
      err := sessions[s].ForceRemoveKey(slot);
      world := Runs.StepForceRemoveKey(world, s, slot).0;
      OneDocChanged(d);
    }

    // ----- Taking up new objects -----

    method AdoptDoc(doc: SealedVault)
      requires Valid() && doc !in docs
      requires doc.salt !in Buffers()
      modifies this`docs, this`world
      ensures Valid() && docs == old(docs) + [doc] && Buffers() == old(Buffers())
      ensures world == old(world).(docs := old(world).docs + [doc.Value()])
    {
      hide NoDuplicates, Disjoint, SessionsAgree, VaultsAgree;
      NoDuplicatesWith(docs, doc);
      DisjointWithSalt(Buffers(), Salts(), doc.salt);
      StillAgree(vaults, world.vaults, sessions, world.sessions, docs, doc);
      docs := docs + [doc];
      world := world.(docs := world.docs + [doc.Value()]);
      assert Buffers() == old(Buffers()) && Salts() == old(Salts()) + [doc.salt];
    }

    method AdoptSession(session: Session, ghost i: nat, ghost touch: nat)
      requires Valid() && session !in sessions && i < |docs| && session.doc == docs[i]
      requires session.dataKey != null ==> session.dataKey !in Buffers() && session.dataKey !in Salts()
      modifies this`sessions, this`world
      ensures Valid() && sessions == old(sessions) + [session]
      ensures Buffers() == old(Buffers()) + [session.dataKey]
      ensures world == old(world).(sessions := old(world).sessions + [Runs.Sess(i, session.opts, session.Key(), touch)])
    {
      hide NoDuplicates, Disjoint, SessionsAgree, VaultsAgree;
      AgreeWithSession(sessions, world.sessions, docs, session, Runs.Sess(i, session.opts, session.Key(), touch));
      DisjointWithBuffer(Buffers(), Salts(), session.dataKey);
      sessions := sessions + [session];
      world := world.(sessions := world.sessions + [Runs.Sess(i, session.opts, session.Key(), touch)]);
      assert Buffers() == old(Buffers()) + [session.dataKey] && Salts() == old(Salts());
    }

    method AdoptVault(vault: Vault, ghost i: nat)
      requires Valid() && i < |docs| && vault.doc == docs[i]
      modifies this`vaults, this`world
      ensures Valid() && vaults == old(vaults) + [vault] && Buffers() == old(Buffers())
      ensures world == old(world).(vaults := old(world).vaults + [Runs.Handle(i, vault.opts)])
    {
      hide NoDuplicates, Disjoint, SessionsAgree, VaultsAgree;
      AgreeWithVault(vaults, world.vaults, docs, vault, Runs.Handle(i, vault.opts));
      vaults := vaults + [vault];
      world := world.(vaults := world.vaults + [Runs.Handle(i, vault.opts)]);
      assert Buffers() == old(Buffers()) && Salts() == old(Salts());
    }

    /** A session together with the document that nobody else has yet. */
    method AdoptBoth(session: Session, ghost touch: nat)
      requires Valid() && session !in sessions && session.doc !in docs && session.doc.salt !in Buffers()
      requires session.dataKey != null ==>
        session.dataKey !in Buffers() && session.dataKey !in Salts() && session.dataKey != session.doc.salt
      modifies this`docs, this`sessions, this`world
      ensures Valid() && docs == old(docs) + [session.doc] && sessions == old(sessions) + [session]
      ensures Buffers() == old(Buffers()) + [session.dataKey]
      ensures world == old(world).(docs := old(world).docs + [session.doc.Value()],
                                   sessions := old(world).sessions
                                               + [Runs.Sess(|old(docs)|, session.opts, session.Key(), touch)])
    {
      hide DocsMatch, KeysMatch, SessionsAgree, VaultsAgree, Disjoint, NoDuplicates;
      ghost var i := |docs|;
      AdoptDoc(session.doc);
      assert Salts() == old(Salts()) + [session.doc.salt];
      AdoptSession(session, i, touch);
    }

    /** A new document of its own, and a session with a buffer of its own. */
    method Create(opts: Op.Options, salt: Option<Salt>, draws: Op.Draws, dataKey: Option<DataKey>)
      returns (err: Option<Error>)
      requires Valid()
      modifies this`docs, this`sessions, this`world, auth
      ensures Valid() && TookUpOnlyFresh()
      ensures var (w, e) := Runs.StepCreate(auth.port, old(world), opts, salt, draws, dataKey);
        world == w && Reported(err) == Outcome(e)
    {
      hide DocsMatch, KeysMatch, SessionsAgree, VaultsAgree, Disjoint, NoDuplicates;
      hide Op.Create, Runs.StepCreate;
      WithinBounds();
      CreateStep(auth.port, world, opts, salt, draws, dataKey);
      ghost var n := |auth.ledger|;
      var made := Vaults.Create(auth, opts, salt, draws, dataKey);
      world := world.(ledger := auth.ledger);
      OnlyLedgerChanged();
      if made.Err? {
        return Some(made.error);
      }
      AdoptBoth(made.value, n + 1);
      return None;
    }

    method OpenWith(blob: nat, opts: Op.Options) returns (err: Option<Error>)
      requires Valid() && blob < |blobs|
      modifies this`docs, this`vaults, this`world
      ensures Valid() && TookUpOnlyFresh()
      ensures var (w, e) := Runs.StepOpenWith(old(world), blob, opts);
        world == w && Reported(err) == Outcome(e)
    {
      hide DocsMatch, KeysMatch, SessionsAgree, VaultsAgree, Disjoint, NoDuplicates;
      hide Parse;
      WithinBounds();
      var reopened := Vaults.OpenWith(blobs[blob], opts);
      if reopened.Err? {
        return Some(reopened.error);
      }
      ghost var i := |docs|;
      AdoptDoc(reopened.value.doc);
      AdoptVault(reopened.value, i);
      return None;
    }

    /** Another session over the very same document object, with a fresh buffer. */
    method Unlock(v: nat) returns (err: Option<Error>)
      requires Valid() && v < |vaults|
      modifies this`sessions, this`world, auth
      ensures Valid() && TookUpOnlyFresh()
      ensures var (w, e) := Runs.StepUnlock(auth.port, old(world), v);
        world == w && Reported(err) == Outcome(e)
      ensures err == None ==> |sessions| == |old(sessions)| + 1 && sessions[|old(sessions)|].doc == vaults[v].doc
    {
      hide DocsMatch, KeysMatch, SessionsAgree, VaultsAgree, Disjoint, NoDuplicates;
      hide Op.Unlock;
      VaultsAreShared(v);
      ghost var n := |auth.ledger|;
      var unlocked := vaults[v].Unlock(auth);
      world := world.(ledger := auth.ledger);
      OnlyLedgerChanged();
      if unlocked.Err? {
        return Some(unlocked.error);
      }
      AdoptSession(unlocked.value, world.vaults[v].doc, n);
      return None;
    }

    method Sealed(s: nat)
      requires Valid() && s < |sessions|
      modifies this`world, this`blobs
      ensures Valid() && world == Runs.StepSeal(old(world), s).0 && Buffers() == old(Buffers())
    {
      hide NoDuplicates, Disjoint, SessionsAgree, VaultsAgree;
      Agreement(sessions, world.sessions, docs, s);
      var data := sessions[s].Sealed();
      blobs := blobs + [data];
      world := Runs.StepSeal(world, s).0;
      assert Buffers() == old(Buffers()) && Salts() == old(Salts());
    }

    // ----- Whole runs -----

    lemma VaultsAreShared(v: nat)
      requires Valid() && v < |vaults|
      ensures v < |world.vaults| && world.vaults[v].doc < |docs| == |world.docs|
      ensures vaults[v].doc == docs[world.vaults[v].doc] && vaults[v].opts == world.vaults[v].opts
      ensures vaults[v].doc.Value() == world.docs[world.vaults[v].doc]
    {
    }

    lemma WithinBounds()
      requires Valid()
      ensures |docs| == |world.docs| && blobs == world.blobs && |vaults| == |world.vaults| && |sessions| == |world.sessions|
      ensures forall v :: 0 <= v < |vaults| ==> world.vaults[v].doc < |world.docs|
      ensures forall s :: 0 <= s < |sessions| ==> Runs.HasSession(world, s)
      ensures forall s :: 0 <= s < |sessions| ==> sessions[s].doc in docs
    {
      forall s | 0 <= s < |sessions| ensures Runs.HasSession(world, s) && sessions[s].doc in docs {
        Agreement(sessions, world.sessions, docs, s);
      }
    }

    /** Any one action, on the objects. */
    method Perform(a: Runs.Action) returns (r: Option<Result<Bytes>>)
      requires Valid()
      modifies this, auth, set d | d in docs, set s | s in sessions, set b: array?<byte> | b in Buffers()
      ensures Valid() && OnlyFreshAdded()
      ensures var (w, e) := Runs.Step(auth.port, old(world), a);
        world == w && r == Outcome(e)
    {
      hide DocsMatch, KeysMatch, SessionsAgree, VaultsAgree, Disjoint, NoDuplicates;
      hide Runs.StepCreate, Runs.StepUse, Parse, Op.Unlock;
      WithinBounds();
      match a
      case Create(opts, salt, draws, dataKey) =>
        var err := Create(opts, salt, draws, dataKey);
        TakingUpAddsOnlyFresh();
        r := Reported(err);
      case OpenWith(blob, opts) =>
        if blob >= |blobs| {
          return None;
        }
        var err := OpenWith(blob, opts);
        TakingUpAddsOnlyFresh();
        r := Reported(err);
      case Unlock(v) =>
        if v >= |vaults| {
          return None;
        }
        var err := Unlock(v);
        TakingUpAddsOnlyFresh();
        r := Reported(err);
      case Use(s, act) =>
        if s >= |sessions| {
          return None;
        }
        r := Use(s, act);
    }

    method Use(s: nat, act: Runs.Act) returns (r: Option<Result<Bytes>>)
      requires Valid() && s < |sessions|
      modifies this, auth, set d | d in docs, set s | s in sessions, set b: array?<byte> | b in Buffers()
      ensures Valid() && docs == old(docs) && sessions == old(sessions)
      ensures Buffers() == old(Buffers()) || Buffers() == old(Buffers())[s := null]
      ensures var (w, e) := Runs.StepUse(auth.port, old(world), s, act);
        world == w && r == Outcome(e)
    {
      hide DocsMatch, KeysMatch, SessionsAgree, VaultsAgree, Disjoint, NoDuplicates;
      hide Runs.StepPut, Runs.StepDelete, Op.Open;
      WithinBounds();
      match act
      case Open(name) =>
        var plaintext := Open(s, name);
        r := Some(plaintext);
      case Put(name, secret, nonce) =>
        var err := Put(s, name, secret, nonce);
        r := Reported(err);
      case Delete(name) =>
        var err := Delete(s, name);
        r := Reported(err);
      case Lock =>
        Lock(s);
        r := Reported(None);
      case Seal =>
        Sealed(s);
        r := Reported(None);
      case _ =>
        r := UseKeys(s, act);
    }

    method UseKeys(s: nat, act: Runs.Act) returns (r: Option<Result<Bytes>>)
      requires Valid() && s < |sessions| && (act.EnrollKey? || act.RemoveKey? || act.ForceRemoveKey?)
      modifies this, auth, set d | d in docs, set s | s in sessions, set b: array?<byte> | b in Buffers()
      ensures Valid() && docs == old(docs) && sessions == old(sessions)
      ensures Buffers() == old(Buffers())
      ensures var (w, e) := Runs.StepUse(auth.port, old(world), s, act);
        world == w && r == Outcome(e)
    {
      hide DocsMatch, KeysMatch, SessionsAgree, VaultsAgree, Disjoint, NoDuplicates;
      hide Runs.StepEnrollKey, Runs.StepRemoveKey, Runs.StepForceRemoveKey;
      WithinBounds();
      var err;
      match act {
        case EnrollKey(slot, keyLabel, draws) => err := EnrollKey(s, slot, keyLabel, draws);
        case RemoveKey(slot) => err := RemoveKey(s, slot);
        case ForceRemoveKey(slot) => err := ForceRemoveKey(s, slot);
      }
      r := Reported(err);
    }

    /** Any number of actions in a row. */
    method Replay(actions: seq<Runs.Action>)
      requires Valid()
      modifies this, auth, set d | d in docs, set s | s in sessions, set b: array?<byte> | b in Buffers()
      ensures Valid()
      ensures forall h :: world == Runs.Run(auth.port, Runs.Past(old(world), h), actions).world
      decreases |actions|
    {
      if actions != [] {
        var r := Perform(actions[0]);
        Replay(actions[1..]);
      }
    }
  }

  /** The whole program, from no objects at all: build a client, perform the actions on real documents, sessions and
      buffers, and read one secret through one of the sessions. What comes out is what the plain map says. */
  method RunAndRead(port: Port, actions: seq<Runs.Action>, s: nat, name: Bytes) returns (r: Option<Result<Bytes>>)
    ensures var p := Runs.Run(port, Runs.FROM_NOTHING, actions);
      && (r.Some? <==> s < |p.world.sessions|)
      && (r.Some? ==>
            && p.world.sessions[s].doc < |p.history.lines|
            && var line := p.history.lines[p.world.sessions[s].doc];
               r.value == if s in p.history.locked then Err(Locked) else Refinement.Lookup(line.contents, name))
  {
    var auth := new Authenticator(port);
    var client := new Client(auth);
    client.Replay(actions);
    ghost var p := Runs.Run(port, Runs.FROM_NOTHING, actions);
    assert client.world == p.world;
    client.WithinBounds();
    Runs.RunsLeadToOnePlace(port, Runs.FROM_NOTHING, actions, p);
    if s >= |client.sessions| {
      return None;
    }
    Refinement.WholeRunRefinesPlainMap(port, p, s, name);
    var plaintext := client.Open(s, name);
    return Some(plaintext);
  }
}
