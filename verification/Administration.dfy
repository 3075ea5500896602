/** What one administrative call changes, what it leaves alone, and what undoes it. */
module Administration {
  import opened Common
  import opened Document
  import opened Authenticators
  import opened Listings
  import opened Runs
  import opened Refinement
  import Op = Operations

  // ----- All or nothing, and only the thing that was named -----

  /** Put fails and changes nothing, or the one name reads back as the value and every other name is as it was. */
  lemma PutIsAtomic(doc: Doc, key: Option<Bytes>, name: Bytes, secret: Op.Reader, nonce: Option<Nonce>, other: Bytes)
    requires DistinctNames(doc.secrets)
    ensures var (err, changed) := Op.Put(doc, key, name, secret, nonce);
      && (err.Some? ==> changed == doc)
      && (err.None? ==>
            && key.Some? && secret.Reads? && changed.header == doc.header && changed.keys == doc.keys
            && Op.Open(changed, key, name) == Ok(secret.bytes)
            && (other != name ==> FindSecret(changed.secrets, other) == FindSecret(doc.secrets, other)))
  {
    var sealing := Op.Sealing(doc, key, name, secret, nonce);
    if sealing.Ok? {
      FindAfterUpsert(doc.secrets, sealing.value, name);
      FindAfterUpsert(doc.secrets, sealing.value, other);
    }
  }

  lemma {:induction false} FindAfterUpsert(secrets: seq<SealedSecret>, entry: SealedSecret, name: Bytes)
    ensures FindSecret(Upsert(secrets, entry), name)
         == if name == entry.name then Some(entry) else FindSecret(secrets, name)
  {
    if secrets == [] {
    } else if secrets[0].name != entry.name {
      FindAfterUpsert(secrets[1..], entry, name);
      var r := Upsert(secrets, entry);
      assert r[0] == secrets[0] && r[1..] == Upsert(secrets[1..], entry);
    } else {
      var r := Upsert(secrets, entry);
      assert r[0] == entry && r[1..] == secrets[1..];
    }
  }

  /** Delete fails and changes nothing, or exactly the one name is gone. */
  lemma DeleteIsAtomic(doc: Doc, key: Option<Bytes>, name: Bytes, other: Bytes)
    requires DistinctNames(doc.secrets)
    ensures var (err, changed) := Op.Delete(doc, key, name);
      && (err.Some? ==> changed == doc)
      && (err.None? ==>
            && changed.header == doc.header && changed.keys == doc.keys
            && |changed.secrets| == |doc.secrets| - 1
            && Op.Open(changed, key, name) == Err(NoSuchSecret)
            && (other != name ==> FindSecret(changed.secrets, other) == FindSecret(doc.secrets, other)))
  {
    if Op.Delete(doc, key, name).0.None? {
      FindAfterErase(doc.secrets, name, name);
      FindAfterErase(doc.secrets, name, other);
    }
  }

  lemma {:induction false} FindAfterErase(secrets: seq<SealedSecret>, name: Bytes, other: Bytes)
    requires DistinctNames(secrets)
    ensures FindSecret(WithoutName(secrets, name), other) == if other == name then None else FindSecret(secrets, other)
    ensures name in NameSet(secrets) ==> |WithoutName(secrets, name)| == |secrets| - 1
  {
    if secrets == [] {
    } else {
      var rest := secrets[1..];
      assert secrets == [secrets[0]] + rest;
      if secrets[0].name == name {
        assert forall s :: s in rest ==> s.name != name;
        FindSecretIsMember(rest, name);
      } else {
        FindAfterErase(rest, name, other);
        var r := WithoutName(secrets, name);
        assert r[0] == secrets[0] && r[1..] == WithoutName(rest, name);
      }
    }
  }

  /** EnrollKey fails and changes nothing, or appends one entry and answers as before for every other credential. */
  lemma EnrollKeyIsAtomic(port: Port, ledger: seq<Call>, doc: Doc, key: Option<Bytes>, opts: Op.Options, slot: int,
                          keyLabel: Bytes, draws: Op.Draws, other: Bytes)
    ensures var added := Op.Enrolling(port, ledger, doc, key, opts, slot, keyLabel, draws).0;
      var (err, changed) := Op.WithKey(doc, added);
      && (err.Some? ==> changed == doc)
      && (err.None? ==>
            && changed.header == doc.header && changed.secrets == doc.secrets
            && slot !in SlotSet(doc.keys) && SlotSet(changed.keys) == SlotSet(doc.keys) + {slot}
            && (other != added.value.0.credentialID ==> FindKey(changed.keys, other) == FindKey(doc.keys, other))
            && FindKey(changed.keys, added.value.0.credentialID) == Some(added.value.0))
  {
    var added := Op.Enrolling(port, ledger, doc, key, opts, slot, keyLabel, draws).0;
    if added.Ok? {
      EnrollingFacts(port, ledger, doc, key, opts, slot, keyLabel, draws);
      var entry := added.value.0;
      FindAfterAppend(doc.keys, entry, other);
      FindAfterAppend(doc.keys, entry, entry.credentialID);
      FindKeyIsMember(doc.keys, entry.credentialID);
      var r := doc.keys + [entry];
      assert forall k :: k in r <==> k in doc.keys || k == entry;
    }
  }

  lemma {:induction false} FindAfterAppend(keys: seq<SealedKey>, entry: SealedKey, credentialID: Bytes)
    ensures FindKey(keys + [entry], credentialID)
         == if FindKey(keys, credentialID).Some? then FindKey(keys, credentialID)
            else if credentialID == entry.credentialID then Some(entry) else None
  {
    var r := keys + [entry];
    if keys == [] {
      assert r[0] == entry && r[1..] == [];
    } else {
      FindAfterAppend(keys[1..], entry, credentialID);
      assert r[0] == keys[0] && r[1..] == keys[1..] + [entry];
    }
  }

  /** Both removals fail and change nothing, or clear exactly the one slot. */
  lemma RemovalIsAtomic(doc: Doc, key: Option<Bytes>, slot: int, forced: bool)
    requires DistinctSlots(doc.keys)
    ensures var (err, changed) := if forced then Op.ForceRemoveKey(doc, key, slot) else Op.RemoveKey(doc, key, slot);
      && (err.Some? ==> changed == doc)
      && (err.None? ==>
            && changed.header == doc.header && changed.secrets == doc.secrets
            && |changed.keys| == |doc.keys| - 1
            && (forall k :: k in changed.keys <==> k in doc.keys && k.slot != slot))
      && (err == Some(LastKey) <==> !forced && key.Some? && |doc.keys| == 1 && slot in SlotSet(doc.keys))
  {
    WithoutSlotMembers(doc.keys, slot);
    if slot in SlotSet(doc.keys) {
      WithoutSlotLength(doc.keys, slot);
    }
  }

  // ----- What undoes what -----

  /** Deleting a name that was just put for the first time restores the document exactly. */
  lemma DeleteUndoesPut(doc: Doc, key: Option<Bytes>, name: Bytes, secret: Op.Reader, nonce: Option<Nonce>)
    requires name !in NameSet(doc.secrets) && Op.Put(doc, key, name, secret, nonce).0.None?
    ensures Op.Delete(Op.Put(doc, key, name, secret, nonce).1, key, name) == (None, doc)
  {
    var entry := Op.Sealing(doc, key, name, secret, nonce).value;
    EraseAfterUpsert(doc.secrets, entry);
  }

  lemma {:induction false} EraseAfterUpsert(secrets: seq<SealedSecret>, entry: SealedSecret)
    requires entry.name !in NameSet(secrets)
    ensures entry in Upsert(secrets, entry) && WithoutName(Upsert(secrets, entry), entry.name) == secrets
  {
    if secrets == [] {
    } else {
      assert secrets[0] in secrets;
      EraseAfterUpsert(secrets[1..], entry);
      var r := Upsert(secrets, entry);
      assert r[0] == secrets[0] && r[1..] == Upsert(secrets[1..], entry);
    }
  }

  /** Removing the slot that was just enrolled restores the document exactly, and RemoveKey does it unless it was
      the only key. */
  lemma RemoveUndoesEnroll(port: Port, ledger: seq<Call>, doc: Doc, key: Option<Bytes>, opts: Op.Options, slot: int,
                           keyLabel: Bytes, draws: Op.Draws)
    requires Op.Enrolling(port, ledger, doc, key, opts, slot, keyLabel, draws).0.Ok?
    ensures var enrolled := Op.WithKey(doc, Op.Enrolling(port, ledger, doc, key, opts, slot, keyLabel, draws).0).1;
      && Op.ForceRemoveKey(enrolled, key, slot) == (None, doc)
      && Op.RemoveKey(enrolled, key, slot) == if doc.keys == [] then (Some(LastKey), enrolled) else (None, doc)
  {
    EnrollingFacts(port, ledger, doc, key, opts, slot, keyLabel, draws);
    var entry := Op.Enrolling(port, ledger, doc, key, opts, slot, keyLabel, draws).0.value.0;
    assert entry in doc.keys + [entry];
    RemoveAfterAppend(doc.keys, entry);
  }

  lemma {:induction false} RemoveAfterAppend(keys: seq<SealedKey>, entry: SealedKey)
    requires entry.slot !in SlotSet(keys)
    ensures WithoutSlot(keys + [entry], entry.slot) == keys
  {
    var r := keys + [entry];
    if keys == [] {
      assert r[0] == entry && r[1..] == [];
    } else {
      assert keys[0] in keys;
      RemoveAfterAppend(keys[1..], entry);
      assert r[0] == keys[0] && r[1..] == keys[1..] + [entry];
    }
  }

  // ----- Enrolling where the listing says there is room -----

  /** The lowest free slot of the document's own listing is never refused as occupied by the library: should that very
      error come back, then from the authenticator or the trust decision, after a gesture. */
  lemma FreeSlotIsNeverRefused(port: Port, ledger: seq<Call>, doc: Doc, key: Option<Bytes>, opts: Op.Options, slot: int,
                               keyLabel: Bytes, draws: Op.Draws)
    requires DistinctSlots(doc.keys) && IsFreeSlot(SlotsOf(doc.keys), slot)
    ensures var (added, l) := Op.Enrolling(port, ledger, doc, key, opts, slot, keyLabel, draws);
      added == Err(SlotOccupied) ==> |l| > |ledger|
  {
    FreeSlotIsUnoccupied(doc.keys, slot);
  }

  // ----- Listings of reachable documents -----

  /** After any run, the listing of names is the one strictly increasing sequence of the names stored, which are
      the plain map's; two documents with the same names list the same, however they came about. */
  lemma ReachableNamesAreCanonical(port: Port, p: Past, d: nat, port': Port, p': Past, d': nat)
    requires Reachable(port, p) && d < |p.world.docs| && Reachable(port', p') && d' < |p'.world.docs|
    requires NameSet(p.world.docs[d].secrets) == NameSet(p'.world.docs[d'].secrets)
    ensures d < |p.history.lines|
    ensures var names := NamesOf(p.world.docs[d].secrets);
      && names == NamesOf(p'.world.docs[d'].secrets)
      && StrictlySorted(Lex, names)
      && (forall n :: n in names <==> n in NameSet(p.world.docs[d].secrets))
      && (forall n :: n in names <==> n in p.history.lines[d].contents)
  {
    ReachableHolds(port, p);
    ReachableHolds(port', p');
    assert DocHolds(p.history.origins, p.history.lines[d], p.world.docs[d]);
    assert DocHolds(p'.history.origins, p'.history.lines[d'], p'.world.docs[d']);
    NamesAreSorted(p.world.docs[d].secrets);
    NamesAreCanonical(p.world.docs[d].secrets, p'.world.docs[d'].secrets);
  }

  /** After any run, slots are listed in strictly increasing order, each enrolled key exactly once. */
  lemma ReachableSlotsAreSorted(port: Port, p: Past, d: nat)
    requires Reachable(port, p) && d < |p.world.docs|
    ensures var keys := p.world.docs[d].keys;
      && StrictlySorted(BySlot(), SlotsOf(keys)) && |SlotsOf(keys)| == |keys|
      && forall info :: info in SlotsOf(keys) <==> exists k :: k in keys && info == InfoOf(k)
  {
    ReachableHolds(port, p);
    assert DocHolds(p.history.origins, p.history.lines[d], p.world.docs[d]);
    SlotsAreSorted(p.world.docs[d].keys);
  }
}
