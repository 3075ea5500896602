/** Runs of any length over any number of documents, sealed copies, vaults and sessions, and what an
    outside observer remembers of them. */
module Runs {
  import opened Common
  import opened Aad
  import opened Aead
  import opened Document
  import opened Authenticators
  import opened Wire
  import Op = Operations

  // ----- The machine -----

  datatype Handle = Handle(doc: nat, opts: Op.Options)

  /** touch is the place in the ledger of the derivation that unlocked this session. */
  datatype Sess = Sess(doc: nat, opts: Op.Options, key: Option<Bytes>, touch: nat)

  /** Documents are named by their index, so sessions with the same index share one document. */
  datatype World = World(docs: seq<Doc>, vaults: seq<Handle>, sessions: seq<Sess>, blobs: seq<Sealed>, ledger: seq<Call>)

  const START := World([], [], [], [], [])

  datatype Action =
    | Create(opts: Op.Options, salt: Option<Salt>, draws: Op.Draws, dataKey: Option<DataKey>)
    | OpenWith(blob: nat, opts: Op.Options)
    | Unlock(vault: nat)
    | Use(session: nat, act: Act)

  /** What can be done with a session. */
  datatype Act =
    | Open(name: Bytes)
    | Put(name: Bytes, secret: Op.Reader, nonce: Option<Nonce>)
    | Delete(name: Bytes)
    | EnrollKey(slot: int, keyLabel: Bytes, draws: Op.Draws)
    | RemoveKey(slot: int)
    | ForceRemoveKey(slot: int)
    | Lock
    | Seal

  /** What one step did. */
  datatype Event =
    | Created(header: Header, dataKey: DataKey, firstEntry: SealedKey)
    | Reopened(blob: nat)
    | Unlocked(vault: nat)
    | Answered(plaintext: Bytes)
    | Stored(doc: nat, name: Bytes, value: Bytes, entry: SealedSecret)
    | Deleted(doc: nat, name: Bytes)
    | KeyAdded(doc: nat, newEntry: SealedKey)
    | KeyRemoved(doc: nat)
    | SessionLocked(session: nat)
    | Serialized(doc: nat)
    | Failed(error: Error)
    | NoSuchHandle

  function WithDoc(w: World, d: nat, doc: Doc): World
    requires d < |w.docs|
  {
    w.(docs := w.docs[d := doc])
  }

  function StepCreate(port: Port, w: World, opts: Op.Options, salt: Option<Salt>, draws: Op.Draws,
                      dataKey: Option<DataKey>): (World, Event)
  {
    var (made, ledger) := Op.Create(port, w.ledger, opts, salt, draws, dataKey);
    match made
    case Err(e) => (w.(ledger := ledger), Failed(e))
    case Ok(c) =>
      (w.(docs := w.docs + [c.doc],
          sessions := w.sessions + [Sess(|w.docs|, opts, Some(c.dataKey), |w.ledger| + 1)],
          ledger := ledger),
       Created(c.doc.header, c.dataKey, if c.doc.keys == [] then SealedKey(0, [], [], [], Junk([])) else c.doc.keys[0]))
  }

  ghost function StepOpenWith(w: World, blob: nat, opts: Op.Options): (World, Event) {
    if blob >= |w.blobs| then (w, NoSuchHandle)
    else
      match Parse(w.blobs[blob])
      case Err(e) => (w, Failed(e))
      case Ok(doc) =>
        if Op.Conflicts(opts, doc.header) then (w, Failed(RpIDConflict))
        else (w.(docs := w.docs + [doc], vaults := w.vaults + [Handle(|w.docs|, opts.(rpID := doc.header.rpID))]),
              Reopened(blob))
  }

  function StepUnlock(port: Port, w: World, vault: nat): (World, Event) {
    if vault >= |w.vaults| || w.vaults[vault].doc >= |w.docs| then (w, NoSuchHandle)
    else
      var v := w.vaults[vault];
      var (key, ledger) := Op.Unlock(port, w.ledger, w.docs[v.doc]);
      match key
      case Err(e) => (w.(ledger := ledger), Failed(e))
      case Ok(k) =>
        (w.(sessions := w.sessions + [Sess(v.doc, v.opts, if k == [] then None else Some(k), |w.ledger|)],
            ledger := ledger),
         Unlocked(vault))
  }

  predicate HasSession(w: World, s: nat) {
    s < |w.sessions| && w.sessions[s].doc < |w.docs|
  }

  function StepOpen(w: World, s: nat, name: Bytes): (World, Event)
    requires HasSession(w, s)
  {
    match Op.Open(w.docs[w.sessions[s].doc], w.sessions[s].key, name)
    case Err(e) => (w, Failed(e))
    case Ok(plaintext) => (w, Answered(plaintext))
  }

  function StepPut(w: World, s: nat, name: Bytes, secret: Op.Reader, nonce: Option<Nonce>): (World, Event)
    requires HasSession(w, s)
  {
    var d, key := w.sessions[s].doc, w.sessions[s].key;
    var (err, doc) := Op.Put(w.docs[d], key, name, secret, nonce);
    (WithDoc(w, d, doc),
     match Op.Sealing(w.docs[d], key, name, secret, nonce)
     case Err(e) => Failed(e)
     case Ok(entry) => Stored(d, name, if secret.Reads? then secret.bytes else [], entry))
  }

  /** The other administrative changes: an error, or the event that a success is. */
  function Changed(w: World, d: nat, change: (Option<Error>, Doc), success: Event): (World, Event)
    requires d < |w.docs|
  {
    (WithDoc(w, d, change.1), if change.0.Some? then Failed(change.0.value) else success)
  }

  function StepDelete(w: World, s: nat, name: Bytes): (World, Event)
    requires HasSession(w, s)
  {
    var d, key := w.sessions[s].doc, w.sessions[s].key;
    Changed(w, d, Op.Delete(w.docs[d], key, name), Deleted(d, name))
  }

  function StepRemoveKey(w: World, s: nat, slot: int): (World, Event)
    requires HasSession(w, s)
  {
    var d, key := w.sessions[s].doc, w.sessions[s].key;
    Changed(w, d, Op.RemoveKey(w.docs[d], key, slot), KeyRemoved(d))
  }

  function StepForceRemoveKey(w: World, s: nat, slot: int): (World, Event)
    requires HasSession(w, s)
  {
    var d, key := w.sessions[s].doc, w.sessions[s].key;
    Changed(w, d, Op.ForceRemoveKey(w.docs[d], key, slot), KeyRemoved(d))
  }

  function StepEnrollKey(port: Port, w: World, s: nat, slot: int, keyLabel: Bytes, draws: Op.Draws): (World, Event)
    requires HasSession(w, s)
  {
    var session := w.sessions[s];
    var d := session.doc;
    var (added, ledger) := Op.Enrolling(port, w.ledger, w.docs[d], session.key, session.opts, slot, keyLabel, draws);
    (WithDoc(w, d, Op.WithKey(w.docs[d], added).1).(ledger := ledger),
     match added
     case Err(e) => Failed(e)
     case Ok((entry, _)) => KeyAdded(d, entry))
  }

  function StepLock(w: World, s: nat): (World, Event)
    requires HasSession(w, s)
  {
    (w.(sessions := w.sessions[s := w.sessions[s].(key := None)]), SessionLocked(s))
  }

  function StepSeal(w: World, s: nat): (World, Event)
    requires HasSession(w, s)
  {
    (w.(blobs := w.blobs + [Marshal(w.docs[w.sessions[s].doc])]), Serialized(w.sessions[s].doc))
  }

  function StepUse(port: Port, w: World, s: nat, act: Act): (World, Event)
    requires HasSession(w, s)
  {
    match act
    case Open(name) => StepOpen(w, s, name)
    case Put(name, secret, nonce) => StepPut(w, s, name, secret, nonce)
    case Delete(name) => StepDelete(w, s, name)
    case EnrollKey(slot, keyLabel, draws) => StepEnrollKey(port, w, s, slot, keyLabel, draws)
    case RemoveKey(slot) => StepRemoveKey(w, s, slot)
    case ForceRemoveKey(slot) => StepForceRemoveKey(w, s, slot)
    case Lock => StepLock(w, s)
    case Seal => StepSeal(w, s)
  }

  ghost function Step(port: Port, w: World, a: Action): (World, Event) {
    match a
    case Create(opts, salt, draws, dataKey) => StepCreate(port, w, opts, salt, draws, dataKey)
    case OpenWith(blob, opts) => StepOpenWith(w, blob, opts)
    case Unlock(vault) => StepUnlock(port, w, vault)
    case Use(s, act) => if HasSession(w, s) then StepUse(port, w, s, act) else (w, NoSuchHandle)
  }

  // ----- What the observer remembers -----

  /** One Create: the header and the data key that everything descended from it shares. */
  datatype Origin = Origin(header: Header, dataKey: Bytes)

  /** What the observer expects under a name: a value, or a seal that no longer matches its name. */
  datatype Cell = Kept(value: Bytes) | Spoilt

  /** One document or sealed copy: which Create it descends from, and a plain map of what was put in it. */
  datatype Line = Line(origin: nat, contents: map<Bytes, Cell>)

  /** One seal, as it was made; a key entry is kept without its label. */
  datatype Made =
    | MadeKey(origin: nat, key: SealedKey)
    | MadeSecret(origin: nat, secret: SealedSecret, plaintext: Bytes)

  /** locked is the sessions that were ever locked. */
  datatype History = History(origins: seq<Origin>, lines: seq<Line>, blobs: seq<Line>, locked: set<nat>, made: set<Made>)

  const BLANK := History([], [], [], {}, {})

  function CopiedNames(contents: map<Bytes, Cell>): set<Bytes> {
    set n | n in contents :: Coerce(n)
  }

  /** What a sealed copy makes of the map: a UTF-8 name stays, any other becomes UTF-8 and spoils its seal. */
  function Copied(contents: map<Bytes, Cell>): map<Bytes, Cell> {
    map n | n in CopiedNames(contents) :: if n in contents then contents[n] else Spoilt
  }

  function CopyOf(line: Line): Line {
    line.(contents := Copied(line.contents))
  }

  /** No cryptography here: a Put writes the map, a Delete erases from it, sealing copies it. */
  function Remember(h: History, e: Event): History {
    match e
    case Created(header, dataKey, entry) =>
      h.(origins := h.origins + [Origin(header, dataKey)],
         lines := h.lines + [Line(|h.origins|, map[])],
         made := h.made + {MadeKey(|h.origins|, Unlabelled(entry))})
    case Reopened(b) =>
      if b < |h.blobs| then h.(lines := h.lines + [h.blobs[b]]) else h
    case Stored(d, name, value, entry) =>
      if d < |h.lines| then
        var line := h.lines[d];
        h.(lines := h.lines[d := line.(contents := line.contents[name := Kept(value)])],
           made := h.made + {MadeSecret(line.origin, entry, value)})
      else h
    case Deleted(d, name) =>
      if d < |h.lines| then h.(lines := h.lines[d := h.lines[d].(contents := h.lines[d].contents - {name})]) else h
    case KeyAdded(d, entry) =>
      if d < |h.lines| then h.(made := h.made + {MadeKey(h.lines[d].origin, Unlabelled(entry))}) else h
    case Serialized(d) =>
      if d < |h.lines| then h.(blobs := h.blobs + [CopyOf(h.lines[d])]) else h
    case SessionLocked(s) => h.(locked := h.locked + {s})
    case _ => h
  }

  datatype Past = Past(world: World, history: History)

  ghost function Next(port: Port, p: Past, a: Action): Past {
    var (w, e) := Step(port, p.world, a);
    Past(w, Remember(p.history, e))
  }

  ghost predicate Follows(port: Port, p: Past, a: Action, q: Past) {
    q == Next(port, p, a)
  }

  /** The pasts of a run, one more than there are actions. */
  ghost predicate IsTrace(port: Port, trace: seq<Past>, actions: seq<Action>) {
    && |trace| == |actions| + 1
    && forall i {:trigger actions[i]} :: 0 <= i < |actions| ==> Follows(port, trace[i], actions[i], trace[i + 1])
  }

  /** These actions lead from p to q. */
  ghost predicate Reaches(port: Port, p: Past, actions: seq<Action>, q: Past) {
    exists trace :: IsTrace(port, trace, actions) && trace[0] == p && trace[|actions|] == q
  }

  const FROM_NOTHING := Past(START, BLANK)

  /** Some run that starts with nothing gets here. */
  ghost predicate Reachable(port: Port, p: Past) {
    exists actions :: Reaches(port, FROM_NOTHING, actions, p)
  }

  ghost function Run(port: Port, p: Past, actions: seq<Action>): Past
    decreases |actions|
  {
    if actions == [] then p else Run(port, Next(port, p, actions[0]), actions[1..])
  }

  /** Every sequence of actions leads somewhere, and to one place only. */
  lemma {:induction false} RunsLeadToOnePlace(port: Port, p: Past, actions: seq<Action>, q: Past)
    ensures Reaches(port, p, actions, q) <==> q == Run(port, p, actions)
    decreases |actions|
  {
    hide Next, Reaches;
    if actions == [] {
      NoActions(port, p, actions, q);
    } else {
      FirstAction(port, p, actions, q);
      RunsLeadToOnePlace(port, Next(port, p, actions[0]), actions[1..], q);
    }
  }

  lemma NoActions(port: Port, p: Past, actions: seq<Action>, q: Past)
    requires actions == []
    ensures Reaches(port, p, actions, q) <==> q == p
  {
    assert IsTrace(port, [p], actions);
  }

  lemma FirstAction(port: Port, p: Past, actions: seq<Action>, q: Past)
    requires actions != []
    ensures Reaches(port, p, actions, q) <==> Reaches(port, Next(port, p, actions[0]), actions[1..], q)
  {
    hide Next;
    var a, rest := actions[0], actions[1..];
    if Reaches(port, p, actions, q) {
      var trace: seq<Past> :| IsTrace(port, trace, actions) && trace[0] == p && trace[|actions|] == q;
      forall i | 0 <= i < |rest| ensures Follows(port, trace[1..][i], rest[i], trace[1..][i + 1]) {
        assert rest[i] == actions[i + 1];
      }
      assert IsTrace(port, trace[1..], rest);
      assert trace[1..][0] == Next(port, p, a);
    }
    if Reaches(port, Next(port, p, a), rest, q) {
      var trace: seq<Past> :| IsTrace(port, trace, rest) && trace[0] == Next(port, p, a) && trace[|rest|] == q;
      var whole := [p] + trace;
      forall i | 0 <= i < |actions| ensures Follows(port, whole[i], actions[i], whole[i + 1]) {
        if i > 0 {
          assert actions[i] == rest[i - 1];
        }
      }
      assert IsTrace(port, whole, actions);
    }
  }

  // ----- The invariant -----

  /** k wraps exactly this origin's data key, under this origin's header, for its own slot and credential. */
  ghost predicate KeyHolds(o: Origin, k: SealedKey) {
    && |k.nonce| == NONCE_LEN
    && k.wrapped.Box? && k.wrapped.key.Hkdf?
    && k.wrapped.key.prf != [] && k.wrapped.key.salt == o.header.salt
    && k.wrapped == Box(k.wrapped.key, k.nonce, o.dataKey, KeyAad(o.header, k.slot, k.credentialID))
  }

  /** s seals this plaintext under this origin's data key and header, for its own name. */
  ghost predicate SecretHolds(o: Origin, s: SealedSecret, plaintext: Bytes) {
    |s.nonce| == NONCE_LEN && s.ciphertext == Box(Raw(o.dataKey), s.nonce, plaintext, SecretAad(o.header, s.name))
  }

  ghost predicate KeysHold(o: Origin, keys: seq<SealedKey>) {
    KeysWellFormed(keys) && forall k :: k in keys ==> KeyHolds(o, k)
  }

  /** A kept value is sealed here for exactly this name; a spoilt seal was made for another. */
  ghost predicate CellHolds(o: Origin, s: SealedSecret, cell: Cell) {
    match cell
    case Kept(value) => SecretHolds(o, s, value)
    case Spoilt =>
      |s.nonce| == NONCE_LEN && ValidUtf8(s.name)
      && s.ciphertext.Box? && s.ciphertext.aad != SecretAad(o.header, s.name)
  }

  /** The sealed secrets are the plain map, name for name and cell for cell. */
  ghost predicate SecretsHold(o: Origin, secrets: seq<SealedSecret>, contents: map<Bytes, Cell>) {
    && SecretsWellFormed(secrets)
    && NameSet(secrets) == contents.Keys
    && (forall s :: s in secrets ==> s.name in contents && CellHolds(o, s, contents[s.name]))
  }

  ghost predicate OriginHolds(o: Origin) {
    HeaderWellFormed(o.header) && o.header.entropyVerified && |o.dataKey| == DATA_KEY_LEN
  }

  /** A document's header is the one it was created with, or what JSON made of that one's RP ID. */
  ghost predicate HeaderHolds(h: Header, h': Header) {
    h' == h || h' == CoerceHeader(h)
  }

  /** The names are always the map's. Under another header nothing can be opened; under the original one the secrets
      are the map too, unless two names of a sealed copy read the same. */
  ghost predicate InStep(o: Origin, line: Line, doc: Doc) {
    && HeaderHolds(o.header, doc.header)
    && KeysHold(o, doc.keys)
    && NameSet(doc.secrets) == line.contents.Keys
    && (doc.header == o.header && SecretsWellFormed(doc.secrets) ==> SecretsHold(o, doc.secrets, line.contents))
  }

  ghost predicate DocHolds(origins: seq<Origin>, line: Line, doc: Doc) {
    line.origin < |origins| && InStep(origins[line.origin], line, doc) && SecretsWellFormed(doc.secrets)
  }

  /** A sealed copy need not be parseable: two of its names may read the same. */
  ghost predicate CopyHolds(origins: seq<Origin>, line: Line, doc: Doc) {
    line.origin < |origins| && InStep(origins[line.origin], line, doc)
  }

  ghost predicate DocsHold(origins: seq<Origin>, lines: seq<Line>, docs: seq<Doc>) {
    |lines| == |docs| && forall d :: 0 <= d < |docs| ==> DocHolds(origins, lines[d], docs[d])
  }

  ghost predicate CopiesHold(origins: seq<Origin>, lines: seq<Line>, blobs: seq<Sealed>) {
    |lines| == |blobs| && forall b :: 0 <= b < |blobs| ==> blobs[b].Decoded? && CopyHolds(origins, lines[b], blobs[b].doc)
  }

  /** Until it is locked, a session holds the data key of its document's origin, and only a document with the
      original header ever gave one away. */
  ghost predicate SessionHolds(h: History, docs: seq<Doc>, s: Sess, wasLocked: bool) {
    && s.doc < |h.lines| == |docs| && h.lines[s.doc].origin < |h.origins|
    && var o := h.origins[h.lines[s.doc].origin];
       docs[s.doc].header == o.header && s.key == if wasLocked then None else Some(o.dataKey)
  }

  ghost predicate SessionsHold(h: History, docs: seq<Doc>, sessions: seq<Sess>) {
    && (forall s :: 0 <= s < |sessions| ==> SessionHolds(h, docs, sessions[s], s in h.locked))
    && (forall s :: s in h.locked ==> s < |sessions|)
  }

  ghost predicate Inv(p: Past) {
    && (forall i :: 0 <= i < |p.history.origins| ==> OriginHolds(p.history.origins[i]))
    && DocsHold(p.history.origins, p.history.lines, p.world.docs)
    && CopiesHold(p.history.origins, p.history.blobs, p.world.blobs)
    && SessionsHold(p.history, p.world.docs, p.world.sessions)
    && (forall v :: 0 <= v < |p.world.vaults| ==> p.world.vaults[v].doc < |p.world.docs|)
  }

  /** All the text a run puts into its documents is UTF-8. */
  predicate Readable(a: Action) {
    && (a.Create? ==> ValidUtf8(a.opts.rpID))
    && (a.Use? && a.act.Put? ==> ValidUtf8(a.act.name))
  }

  predicate AllReadable(actions: seq<Action>) {
    forall i :: 0 <= i < |actions| ==> Readable(actions[i])
  }
}
