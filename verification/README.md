# touchvault, verified

A Dafny model of the core of touchvault: a vault whose secrets are sealed under one random data key, of which each
enrolled FIDO2 security key wraps a copy of its own. The model follows `vault.go`, `sealed.go`, `crypto.go`,
`entropy.go`, `slots.go` and `authenticator.go` branch by branch and error by error.

`dafny verify dfyconfig.toml` checks everything.

## How it is built

- **Values.** `Encoding`, `Aad`, `Aead` and `Document` are the byte encodings, the sealing and the document. Strings
  are byte sequences, as in Go. AES-GCM and HKDF are ideal, in the sense of section 2 of RFC 5116 and section 2 of
  RFC 5869: a box is a term that remembers its key, nonce, plaintext and associated data and opens exactly for the
  same four; a key-encryption key is the pair of secret and salt it was derived from.
- **Operations.** `Operations` says what each call computes: its error, the document it leaves and the gestures it
  spends. Random draws, the trust decision behind the attestation roots and the authenticator's answers are
  parameters; a draw may fail. An authenticator is any function of the call's number and its request, so it may lie,
  fail or change between calls. Only the theorems that need an honest one say so, by `Faithful` (hmac-secret,
  section 12.5 of CTAP 2.1: the answer comes from the allow-list, and the output is a function of credential,
  verification and salt); presence, gestures, the probe, and the whole-run refinement need none.
- **Objects.** `Vaults` has the library's own shape: a mutable document, sessions that share it by reference and own
  their key buffers, loops that search, replace, shift and wipe in place. Every method is proved against
  `Operations`, whose properties are then proved as lemmas.
- **Runs.** `Runs` is a machine over any number of documents, sealed copies, vaults and sessions, with an observer
  that remembers, per document, only a plain map of what was put and deleted. `Refinement`, `Keys`, `Integrity`,
  `Sessions` and `Stranding` prove what holds after every run, `Tampering` what still holds when the storage is in
  someone else's hands throughout; `Administration` what one call changes and what
  undoes it; `Interleaving` every schedule of readers and `Lock` on any sessions over one document, `Progress` that each
  of their calls can finish.
- **Outcomes.** `Decisions` writes out, for each call and every input, which refusal it reports or what success leaves
  behind, with requests and constants as literals and none of the operations' own helpers; `Liveness` carries that into
  runs: what must succeed does. `Utf8` defines the encoding that JSON text has to have on its own, from scalar values.
- **Both together.** `Program` drives the real objects through any sequence of actions and proves that they stay in
  step with the machine; `RunAndRead` is the refinement from objects to plain map in one contract.

## Where the code and its documentation differ

The model follows the code. These are stated and proved, not assumed away:

- `sealed.go:69` calls a key's label authenticated, but no AAD contains it (`sealed.go:129-160`).
  `WrappedKeyOpensExactly` leaves the label free.
- Slots are bound modulo 2^32 only, since `keyAAD` truncates them (`sealed.go:149`): `SlotWraps`. Decoding is unique
  exactly for fields below 2^32 bytes: `UniqueExactlyBelowTwo32`. The integrity theorems therefore ask for those.
- `sealed.go:52-56` describes the collision the kind tag prevents by a name whose first four bytes equal a slot's
  encoding. In fact the slot must equal the name's length, and the name must be the length-prefixed credential:
  `UntaggedCollision` states it both ways.
- `Put` accepts any non-empty name (`vault.go:445`), but a name, a label or an RP ID that is not UTF-8 (section 4 of
  RFC 3629) is rewritten when the vault is serialised. That a sealed vault reopens and reads the same is thus false
  in general. `TwoNamesCanCollide` and `AnyRunCanBecomeUnreadable` are counterexamples; `RoundTripExactly`,
  `ReopensExactly`, `CopyReadsTheSameExactly`, `ReopenedKeyOpensExactly` and `ReopenedSecretOpensExactly` say exactly
  when it holds. The whole-run theorems need no condition on the text: each sealed copy respells, in the observer's
  map, exactly the names that are not UTF-8 and marks them *spoilt*, which a later Put or Delete repairs; no session
  can exist over a copy whose RP ID was respelt. `ReadableRunsSpoilNothing` says when nothing is spoilt.
- `vault.go:106-108` says that a read that loses a race with `Lock` returns ErrLocked. What decides is who gets the
  mutex first, not who returns first: `InterleavingIsSafe` states it both ways, and `ReturnsMayOvertake` shows a
  plaintext that reaches its caller after `Lock` has returned.
- There is no freshness: `EverySealStillOpens` shows that replaced seals of a name still open.
- `enrollAndDerive` does not compare the credential that answered with the one it just created
  (`vault.go:636-652`), while `unlock` does look it up (`vault.go:362-365`). `CreateAcceptsAnImpostor` is the failing
  input; `EverySessionHasItsOwnTouch` says for every authenticator exactly when the credential behind a session's touch
  is enrolled.

## Model

| member | source | states |
|---|---|---|
| `Program.RunAndRead` | vault.go:214-698 | From no objects at all, any sequence of actions on real documents, sessions and key buffers, then one read: for every name, what a plain map of the successful Puts and Deletes answers, and ErrLocked from a session that was ever locked |
| `Refinement.WholeRunRefinesPlainMap` | vault.go:214-600 | After any run of Create, OpenWith, Unlock, Open, Put, Delete, EnrollKey, RemoveKey, ForceRemoveKey, Lock and Sealed, with any authenticator answers, every session reads, for every name, the value last Put and not since deleted, else ErrNoSuchSecret, until its own Lock; the map lives through sealed copies reopened with another key, each of which respells and spoils exactly the names that are not UTF-8 |
| `Refinement.RunKeepsInv` | vault.go:214-600 | Every reachable document has the names of its plain map and entries that wrap its Create's one data key under its final header; if it kept that header its secrets are the plain map, and every unlocked session, all of them over such documents, holds exactly that key |
| `Program.Client.Replay` | vault.go:214-600 | Any number of actions on the real objects, with their sharing, amounts to the value-level run |
| `Program.Client.Perform` | vault.go:214-600 | One action on the real objects is the machine's step, with the outcome the caller sees; whatever is taken up is newly allocated |
| `Refinement.EveryReachableDocumentReopens` | sealed.go:252-317 | Every reachable document is well formed; its sealed copy is accepted exactly when no two names read the same after JSON, is recovered unchanged exactly when all its text is UTF-8, and loses at most key labels when RP ID and names are UTF-8 |
| `Refinement.CopyReadsNameByName` | sealed.go:252-317 | Under its data key a sealed copy that kept its RP ID and parses answers, name by name: a UTF-8 name as before, the new spelling of any other name with a failed decryption, everything else with ErrNoSuchSecret |
| `Refinement.CopyReadsTheSameExactly` | sealed.go:252-258 | Under its data key a sealed copy of an unspoilt document reads as the map it was made from exactly when the map is empty, or the RP ID and every name are UTF-8 |
| `Refinement.ReadableRunsSpoilNothing` | vault.go:437-474 | A run that puts only UTF-8 names into vaults with a UTF-8 RP ID spoils nothing in any document or copy |
| `Refinement.TwoNamesCanCollide` | vault.go:445-447 | From any well-formed document Put of the name FF and then of FE both succeed, and what is sealed after that is refused |
| `Refinement.AnyRunCanBecomeUnreadable` | vault.go:437-474 | Any run that left a session unlocked goes on in those two steps to a reachable document whose sealed copy is refused |
| `Refinement.UnlockYieldsTheDataKey` | vault.go:338-372 | Whatever the authenticator answers, a data key that comes out of an unlock is the vault's own, and only under the header it was wrapped under |
| `Refinement.ReadingIsLookup` | vault.go:418-435 | Open under the right data key is lookup in the plain map, error included |
| `Keys.NoTruncatingKeyIsEverEnrolled` | entropy.go:58-93 | No run leaves an entry, in memory or sealed, for a credential whose device reads fewer than 32 salt bytes |
| `Sessions.EveryKeyWasProbed` | entropy.go:58-93 | Whatever the authenticators do: for every key entry of every document and copy of a run, the ledger holds the derivation it was wrapped under, with touch and the recorded verification, and right behind it a probe over the flipped salt that was present, consistently verified, non-empty and different |
| `Keys.UnlockIsDecided` | vault.go:323-373 | What Unlock itself returns on a reachable document for any answer of an honest device, and the one request it spends: no keys first, then the device's own error, presence, the recorded verification, an unknown credential, an empty secret, else the one data key; a failed decryption is possible only for an RP ID that did not survive JSON |
| `Keys.AnyEnrolledKeySuffices` | vault.go:323-373 | Whichever enrolled key of a reachable document answers the unlock request, spelled out with every credential, the salt and the recorded verification, touched and verified as recorded: Unlock yields the one data key exactly when the document kept its header, and under it the document reads as the plain map |
| `Keys.OnlyForceRemovesTheLastKey` | vault.go:551-578 | Without ForceRemoveKey no document and no sealed copy is ever without an enrolled key |
| `Keys.RemoveKeyLeavesOne` | vault.go:551-565 | RemoveKey never empties a vault that has a key, whatever slot it is given |
| `Integrity.IntegrityUnderEditing` | sealed.go:123-160 | In every reachable state, for any document rebuilt at will from junk, foreign boxes and boxes of that run: if it unlocks, its header is an original one and the answering entry kept its credential and its slot modulo 2^32; what it then reads under a name was Put under that name in a vault with that same header and data key |
| `Integrity.EditedDocumentUnlocksAsSealed` | vault.go:323-373 | The unlocking half, with the vault it belongs to as a witness |
| `Integrity.EditedDocumentReadsAsSealed` | vault.go:418-435 | The reading half, with the original seal as a witness, whether or not two vaults ever drew the same data key |
| `Integrity.ReachableDocumentsAreEdits` | vault.go:437-600 | Every document and sealed copy of a run is itself built from seals of that run, respelt names included |
| `Tampering.WhatIsReadWasPut` | vault.go:418-435 | Over whole runs in which documents of any making are planted among the sealed copies between any two steps, and opened, unlocked, read and changed like the run's own: what a session reads under a name was put under that name in some step, by a session with the same data key, into a document with the same header, which are those of a vault some step created |
| `Tampering.WhatUnlocksWasWrapped` | vault.go:323-373 | In such a run, an honest answer that unlocks any document goes through an entry some step wrapped for a vault with that very header, at its own credential and slot modulo 2^32, and yields that vault's data key |
| `Tampering.EverySceneHolds` | crypto.go:118-166 | In such a run every session over any document, planted or not, only ever has the data key of a vault the library created under that document's header, and no step makes a box around it a forgery |
| `Integrity.EverySealStillOpens` | sealed.go:123-135 | Every seal a run ever made, replaced or not, opens in a document of the same vault exactly when that document kept its RP ID: nothing was sealed before the header was final, and nothing marks an old seal as stale |
| `Integrity.HeadersNeverChange` | vault.go:224-249 | No operation changes the format, RP ID, salt or either flag of a document that exists |
| `Sessions.LedgerIsExplained` | vault.go:9-22 | The gesture ledger of a whole run is one word per action: exactly one valid Derive per attempted unlock of a usable document and none otherwise; a beginning of create, derive, probe per enrollment, all three with a probe that passed when it succeeds, and no derivation from a credential that is resident, nameless or untrusted; nothing for anything else |
| `Sessions.EveryRequestIsValid` | authenticator.go:203-216 | Every Derive a run asks for satisfies Validate |
| `Sessions.AcceptedDocumentAsksValidly` | authenticator.go:203-216 | A document that parsed asks for a valid unlock exactly when it has a key, and every derivation and probe for a named credential it can lead to is valid |
| `Sessions.EnrollingSpends` | vault.go:492-549 | EnrollKey spends nothing when locked or when the slot is negative or occupied, and no probe when the credential is already enrolled or was verified differently |
| `Sessions.CreateSpends` | vault.go:214-260 | Create spends a beginning of create, derive, probe; all three with a probe that passed on success, and nothing without an RP ID or when the salt cannot be drawn |
| `Sessions.EverySessionHasItsOwnTouch` | vault.go:323-373 | Whatever the authenticators are, every session was made by a step that asked for a Derive in that very step, answered with presence and the recorded verification over the document's RP ID and salt, on an entropy-verified document; the credential that answered is enrolled in that document at that step exactly if it is one that was asked for, and after an unlock it always is; record and header are still there at the end of the run |
| `Sessions.NoTouchIsShared` | vault.go:323-373 | With no assumption on the authenticators, a later session owes its key to a later touch |
| `Sessions.CreateAcceptsAnImpostor` | vault.go:636-652 | An authenticator that answers as another credential than the one it created gets its vault: Create succeeds, and the credential behind the session's touch is not enrolled |
| `Stranding.StrandingIsPermanent` | vault.go:567-590 | A document with no keys whose sessions are all locked stays that way under every continuation |
| `Stranding.LossIsPermanent` | vault.go:567-590 | Once every document and copy of one vault is keyless and locked, no continuation has a key or an unlocked session for that vault again |
| `Stranding.ReenrollmentRescues` | vault.go:492-549 | On any document, with no key left or with any number, an unlocked session enrols a genuine new credential into any free slot: the entry is appended with its slot, credential and label, it unlocks to the same data key, and every old key gives what it gave before |
| `Liveness.AnyKeyOpensASession` | vault.go:323-373 | On any vault of any run, any of its keys, touched and verified as recorded, makes Unlock add exactly one session, which holds the data key and reads the plain map, if the document kept its header |
| `Liveness.EnrollKeySucceeds` | vault.go:492-549 | In any run an unlocked session enrols a new key into any free slot whenever the credential is genuine and new, the derivation touched and verified as recorded, and the probe different; afterwards every key, old or new, unlocks the vault to the one data key on any port |
| `Liveness.CreateSucceeds` | vault.go:214-260 | In any state, on any port whose three answers pass, Create adds one document with one entry in slot 0 and one session with the drawn data key, and spends three gestures |
| `Liveness.PutSucceedsExactly` | vault.go:437-474 | In any run Put stores the value, sealed under the vault's data key for that name, unless the session is locked, the name empty, the reader nil or broken, or the draw fails, reported in that order |
| `Liveness.DeleteSucceedsExactly` | vault.go:476-490 | In any run Delete succeeds exactly when the session was never locked and the plain map has the name, wherever the entry stands |
| `Liveness.RemovalSucceedsExactly` | vault.go:551-590 | In any run ForceRemoveKey succeeds exactly on a taken slot of an unlocked session, and RemoveKey too unless it holds the only key |
| `Liveness.OpenWithSucceedsExactly` | vault.go:288-301 | OpenWith opens exactly what is well formed, with no RP ID given or with the document's own, and says which of the two was wrong |
| `Liveness.SealedVaultReopens` | vault.go:276-373 | The whole way round: what any session of any run seals, if its RP ID is UTF-8 and no two names read alike after JSON, is reopened without options, unlocked by any of its keys, and read: each UTF-8 name as before, the new spelling of another as a failed decryption |
| `Decisions.CreateIsDecided` | vault.go:214-260 | For every port, option and draw: which refusal Create reports, in the documented order, or the document it makes, every request, flag and field spelled out; and how many gestures |
| `Decisions.EnrollKeyIsDecided` | vault.go:492-549 | The same for EnrollKey on any document: an enrolled key, or any number of them, is never itself a reason to refuse |
| `Decisions.EnrollAndDeriveIsDecided` | vault.go:608-653 | The first refusal of a new credential: the device's error, resident, nameless, untrusted, the derivation's error, not present, no secret |
| `Decisions.GateIsDecided` | entropy.go:58-93 | The verdict on a probe over the salt with only its last byte complemented, refusal by refusal |
| `Decisions.UnlockIsDecided` | vault.go:323-373 | Unlock on any document with distinct credentials: the first check that fails, or what the entry of the credential that answered gives, first or not |
| `Decisions.OpenIsDecided` | vault.go:418-435 | Open on any document with distinct names: Locked, NoSuchSecret, or what the entry of that name gives |
| `Decisions.PutIsDecided` | vault.go:437-474 | Put on any document: its refusals in order, or the entry it seals over the drawn nonce, in the place of the first of that name, else at the end |
| `Decisions.DeleteIsDecided` | vault.go:476-490 | Delete on any document: exactly when each error and success, and which one entry goes |
| `Decisions.RemovalIsDecided` | vault.go:551-590 | Both removals on any document: exactly when each error and success, and which one entry goes |
| `Decisions.ConflictIsDecided` | vault.go:293-300 | A given RP ID is refused exactly if it is non-empty and not the document's |
| `Decisions.ParseIsDecided` | sealed.go:267-317 | What parsing accepts, field by field and pair by pair |
| `Decisions.KnownAads` | sealed.go:118-160 | One key AAD and one secret AAD, byte for byte |
| `Administration.PutIsAtomic` | vault.go:437-474 | Put fails and changes nothing, or the name reads back as the value, every other name finds its old entry, and header and keys are untouched |
| `Administration.DeleteIsAtomic` | vault.go:476-490 | Delete fails and changes nothing, or the name is gone, one entry fewer, every other name finds its old entry |
| `Administration.EnrollKeyIsAtomic` | vault.go:492-549 | EnrollKey fails and changes nothing, or occupies exactly the named slot and answers as before for every other credential |
| `Administration.RemovalIsAtomic` | vault.go:551-590 | Both removals fail and change nothing, or clear exactly the one slot; ErrLastKey exactly for an unforced removal of the only key |
| `Administration.DeleteUndoesPut` | vault.go:437-490 | Deleting a name just put for the first time restores the document exactly |
| `Administration.RemoveUndoesEnroll` | vault.go:492-590 | Removing the slot just enrolled restores the document exactly; RemoveKey refuses only if it was the only key |
| `Administration.FreeSlotIsNeverRefused` | vault.go:503-505 | Enrolling into the lowest free slot of the document's own listing is never refused as occupied by the library: that error can only come back after a gesture, from the authenticator or the trust decision |
| `Administration.ReachableNamesAreCanonical` | sealed.go:222-229 | On reachable documents the name listing is strictly increasing, holds exactly the stored names, and depends on nothing else |
| `Administration.ReachableSlotsAreSorted` | sealed.go:233-244 | On reachable documents the slot listing is strictly increasing and lists each enrolled key once |
| `Interleaving.InterleavingIsSafe` | vault.go:403-435 | Any number of threads in Open and Lock of any number of sessions over one document, each with a mutex and a buffer of its own, step by step, in any order: every decryption uses its session's data key itself, and every Open returns exactly what the order of acquisitions says, ErrLocked if a Lock of its session had the mutex before it and otherwise what it returns alone; so an Open that starts or acquires after a Lock of its session has returned is told ErrLocked |
| `Interleaving.ReachableSessionsAreSafe` | vault.go:106-108 | Over any unlocked sessions that share a document after a run, every such Open returns the plain map's answer, or ErrLocked exactly if a Lock of its session had the mutex before it |
| `Interleaving.ReturnsMayOvertake` | vault.go:418-420 | The mutex is given back before the caller resumes, so an Open that acquired first can hand over its plaintext after a Lock has returned |
| `Interleaving.MutexIsNecessary` | vault.go:375-389 | Without the mutex, for every data key that is not all zero, some schedule turns a stored secret into a failed decryption |
| `Progress.EveryCallCanFinish` | vault.go:403-435 | No schedule of any threads over any sessions is a dead end: with more steps and no new calls, every Open that was started and every Lock that got its mutex returns |
| `Progress.LockLeavesNothing` | vault.go:403-408 | In every schedule, once a Lock has returned its session has no key and every byte of the buffer is zero, and stays so |
| `Aad.KeyAadInjective` | sealed.go:147-151 | Key AADs agree exactly when headers, slots modulo 2^32 and credentials agree |
| `Aad.SecretAadInjective` | sealed.go:157-160 | Secret AADs agree exactly when headers and names agree |
| `Aad.KindsDisjoint` | sealed.go:58-61 | No key AAD is a secret AAD, even across two headers |
| `Aad.KeyAadRoundTrip` | sealed.go:147-151 | A reader of the format recovers header, slot modulo 2^32 and credential from a key AAD |
| `Aad.SecretAadRoundTrip` | sealed.go:157-160 | A reader of the format recovers header and name from a secret AAD |
| `Aad.GrownFieldsShow` | sealed.go:118-135 | A longer RP ID or last field changes the AAD, with no bound on the lengths |
| `Aad.UntaggedCollision` | sealed.go:49-57 | Without the tag a key and a secret collide exactly when the slot is the name's length and the name is the length-prefixed credential |
| `Aad.TagIsNecessary` | sealed.go:49-61 | Every credential has a slot and a name that would collide without the tag |
| `Aad.SlotWraps` | sealed.go:149 | Slots that differ by 2^32 carry the same AAD |
| `Aad.UniqueExactlyBelowTwo32` | sealed.go:118-121 | Key and secret AADs over fields of at most some length are unambiguous, across all headers, exactly when that length is below 2^32 |
| `Encoding.U32Injective` | sealed.go:119 | Big-endian uint32 identifies numbers exactly modulo 2^32 |
| `Encoding.ReadPrefixedOf` | sealed.go:118-121 | A length-prefixed field is read back whole, with exactly what follows left over |
| `Document.WrappedKeyOpensExactly` | crypto.go:118-148 | A wrapped data key, moved to any document and place and met with any prf, opens exactly when prf, header, slot modulo 2^32 and credential are the original ones; the label may be anything |
| `Document.SealedSecretOpensExactly` | crypto.go:151-166 | A sealed secret opens exactly under its own data key, header and name, and then to its own plaintext |
| `Aead.Zero` | crypto.go:174-178 | Overwrites every byte of the buffer |
| `Entropy.VerifyDerivationDependsOnSalt` | entropy.go:58-93 | Computes the verdict and spends the one probe over the salt with its last byte flipped |
| `Entropy.GatePassedMeansDependence` | entropy.go:58-93 | Passing proves that the output used for wrapping differs over salt and probe |
| `Entropy.GateRefusesTruncation` | entropy.go:31-37 | No salt and no ledger let a device that reads fewer than 32 bytes pass; ErrDerivationIgnoresSalt when its probe answer is present, non-empty and consistently verified |
| `Entropy.GateAdmitsHonestDevice` | entropy.go:58-93 | A salt-injective device that is present and consistently verified passes |
| `Entropy.OnlyTheTailCatchesTruncation` | entropy.go:39-43 | Flipping byte i exposes every truncating device exactly when i is the last byte |
| `Listings.FreeSlot` | slots.go:61-71 | For any slot list, duplicates and gaps included, the unbounded loop stops at a free slot with every smaller one occupied, at most the list's length |
| `Listings.FreeSlotIsUnoccupied` | slots.go:61-71 | On a document's own listing that slot is free in the document and every smaller one is taken |
| `Listings.NamesAreSorted` | sealed.go:222-229 | The name listing is a permutation of the stored names in which each comes before the next, at the first byte that differs or as a proper prefix |
| `Listings.NamesAreCanonical` | sealed.go:222-229 | Two documents with the same names list the same |
| `Listings.SlotsAreSorted` | sealed.go:233-244 | The slot listing is a strictly increasing permutation of the enrolled entries |
| `Listings.SlotsAreCanonical` | sealed.go:233-244 | Two documents with the same entries in any order list the same |
| `Listings.LexComesBefore` | sealed.go:222-229 | The order of names is the first differing byte, or the proper prefix |
| `Listings.SlotLinesAreRight` | sealed.go:233-244 | Slots rise from line to line; every key has a line with its slot, its label and the first eight bytes of its credential, and every line is some key's |
| `Wire.ParseSealed` | sealed.go:267-317 | Accepts exactly the well-formed documents, unchanged, and reports everything else as ErrWrongFormat |
| `Wire.CheckKeys` | sealed.go:283-303 | The seen-set loop accepts exactly keys with distinct non-negative slots and distinct non-empty credentials |
| `Wire.CheckSecrets` | sealed.go:305-314 | The seen-set loop accepts exactly secrets with distinct non-empty names |
| `Wire.RoundTripExactly` | sealed.go:252-317 | A well-formed document is recovered unchanged exactly when all its text is UTF-8 |
| `Wire.ReopensExactly` | sealed.go:252-317 | It is accepted at all exactly when no two names read the same after JSON |
| `Wire.ReopenedKeyOpensExactly` | sealed.go:252-258 | A wrapped key opens in the reopened document exactly when the RP ID is UTF-8 |
| `Wire.ReopenedSecretOpensExactly` | sealed.go:252-258 | A sealed secret opens in the reopened document exactly when RP ID and name are UTF-8 |
| `Wire.CoerceFixesExactlyUtf8` | sealed.go:252-258 | Text survives the encoder exactly when it is UTF-8 |
| `Utf8.ValidExactlyEncodings` | sealed.go:252-258 | Valid text is exactly a concatenation of encoded Unicode scalar values, by an encoding defined on its own after section 3 of RFC 3629 |
| `Utf8.WidthIsExact` | sealed.go:252-258 | A rune is recognised exactly where the text begins with the encoding of some scalar, at that encoding's length |
| `Utf8.CoerceKeepsScalars` | sealed.go:252-258 | The encoder keeps each encoded scalar as it is |
| `Utf8.CoerceReplacesTheRest` | sealed.go:252-258 | It turns each byte in front of which no scalar's encoding begins into EF BF BD |
| `Authenticators.Validate` | authenticator.go:203-216 | No error exactly for a non-empty allow-list of non-empty IDs and a 32-byte salt; the allow-list is judged first |
| `Authenticators.Authenticator.Enroll` | authenticator.go:74-80 | One gesture, entered in the ledger with request and answer |
| `Authenticators.Authenticator.Derive` | authenticator.go:74-80 | One gesture, entered in the ledger with request and answer |
| `Vaults.SealedVault.FindKey` | sealed.go:174-181 | The first entry with that credential, or none |
| `Vaults.SealedVault.FindSecret` | sealed.go:192-199 | The first entry with that name, or none |
| `Vaults.SealedVault.SlotOccupied` | sealed.go:183-190 | True exactly when an entry holds that slot |
| `Vaults.SealedVault.CredentialIDs` | sealed.go:203-209 | The credentials of all entries, in order |
| `Vaults.SealedVault.Names` | sealed.go:222-229 | The listing whose order and contents Listings proves |
| `Vaults.SealedVault.Slots` | sealed.go:233-244 | The listing whose order and contents Listings proves |
| `Vaults.EnrollAndDerive` | vault.go:608-653 | The order of checks, errors and gestures of an enrollment, on the objects |
| `Vaults.Create` | vault.go:214-260 | The new session's document, key and ledger, all freshly allocated; on failure nothing but the ledger changes |
| `Vaults.OpenWith` | vault.go:288-301 | A fresh document equal to what was parsed, an RP ID conflict as an error, and the RP ID of the document in the options; spends no gesture |
| `Vaults.Vault.Unlock` | vault.go:323-373 | The error in order or a session over the very same document object with a key buffer of its own |
| `Vaults.Session.Lock` | vault.go:403-408 | The session's buffer is all zero, the session holds no key, the document's value is unchanged |
| `Vaults.Session.Open` | vault.go:418-435 | The plaintext in a buffer of its own, or the error; nothing changes |
| `Vaults.Session.Put` | vault.go:437-474 | The whole new document and the error; the first entry of that name is replaced where it stands, else appended |
| `Vaults.Session.Delete` | vault.go:476-490 | The whole new document and the error; the gap is closed in place |
| `Vaults.Session.EnrollKey` | vault.go:492-549 | The whole new document, the error and the gestures spent |
| `Vaults.Session.RemoveKey` | vault.go:551-565 | The whole new document and the error, the last key refused |
| `Vaults.Session.ForceRemoveKey` | vault.go:567-578 | The whole new document and the error |
| `Vaults.Session.RemoveSlot` | vault.go:581-590 | The kept entries, in order |
| `Vaults.Session.Sealed` | vault.go:592-600 | The encoded document, locked or not |
| `Vaults.SecretReader.ReadAll` | vault.go:657-661 | The unread rest of the plaintext, once |
| `Vaults.SecretReader.Close` | vault.go:665-671 | The plaintext buffer is all zero and nothing is left to read; closing twice does nothing |
| `Vaults.ReadString` | vault.go:679-698 | What Open decides, as a value |
| `Program.Client.Lock` | vault.go:367-408 | Among any number of sessions sharing documents, locking one zeroes its own buffer only; every other session's key and every document keep their value |
| `Program.Client.Unlock` | vault.go:367-373 | Another session over the same document object, with a buffer no session or document shares |
| `Program.Client.Create` | vault.go:214-260 | A new document and session beside all the others, which keep their values |
| `Program.Client.OpenWith` | vault.go:288-301 | A new document beside all the others, equal to the sealed value |
| `Program.Client.Put` | vault.go:437-474 | Changes the one shared document for every session over it, and no other |
| `Program.Client.Delete` | vault.go:476-490 | Changes the one shared document for every session over it, and no other |
| `Program.Client.EnrollKey` | vault.go:492-549 | Changes the one shared document for every session over it, and no other |
| `Program.Client.RemoveKey` | vault.go:551-565 | Changes the one shared document for every session over it, and no other |
| `Program.Client.ForceRemoveKey` | vault.go:567-578 | Changes the one shared document for every session over it, and no other |
| `Program.Client.Sealed` | vault.go:592-600 | A value copy of the document as it is now; later changes do not reach it |

## Left out

- JSON and base64 as text: the model starts at the decoded document value, and an unreadable text is one value of its own.
- Attestation: certificate chains, signatures and statement formats are one decision per created credential, made by the options.
- AES-GCM, HKDF and SHA-256 internals, nonce uniqueness and every probabilistic claim; that nobody guesses a data key before it is drawn is a named assumption (`NotGuessed`) of the runs with planted documents.
- The `fido/` providers and everything platform-specific.
- Error texts, `String` methods, timeouts, and the hexadecimal rendering of the credential prefix in listings.
- `Open` of a sealed vault without options, which is `OpenWith` with empty ones; `Names` and `Slots` of vault and session, which only forward.
- The library's sort: an insertion sort stands in for it, and its result is proved to be the only sorted one.
- The backing arrays of the document's key and secret lists: these fields are sequences that methods reassign, so append sharing is not captured. The salt, the key buffers and the plaintext buffers are arrays.
- Wiping of the temporary plaintext inside `Put` and of the value inside `ReadString`, and any copies a garbage collector makes.
- Concurrent administration, which the library documents as unsupported; the interleaving results are about readers and `Lock`, on any number of sessions.
- Failures of a reader beyond "reading failed".
