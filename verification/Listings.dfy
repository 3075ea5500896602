/** Metadata listings: sorted names, sorted slots, and the lowest free slot. */
module Listings {
  import opened Common
  import opened Document

  // ----- Sorting by a strict order -----

  ghost predicate StrictOrder<T(!new)>(lt: (T, T) -> bool) {
    && (forall x, y :: lt(x, y) ==> !lt(y, x))
    && (forall x, y, z :: lt(x, y) && lt(y, z) ==> lt(x, z))
  }

  ghost predicate StrictlySorted<T>(lt: (T, T) -> bool, xs: seq<T>) {
    forall i, j :: 0 <= i < j < |xs| ==> lt(xs[i], xs[j])
  }

  /** Any two entries at different places compare one way or the other. */
  ghost predicate Comparable<T>(lt: (T, T) -> bool, xs: seq<T>) {
    forall i, j :: 0 <= i < j < |xs| ==> lt(xs[i], xs[j]) || lt(xs[j], xs[i])
  }

  function Insert<T>(lt: (T, T) -> bool, x: T, xs: seq<T>): seq<T> {
    if xs == [] || lt(x, xs[0]) then [x] + xs else [xs[0]] + Insert(lt, x, xs[1..])
  }

  /** What the library sort returns on entries that all compare. */
  function Sort<T>(lt: (T, T) -> bool, xs: seq<T>): seq<T> {
    if xs == [] then [] else Insert(lt, xs[0], Sort(lt, xs[1..]))
  }

  lemma PrependSorted<T(!new)>(lt: (T, T) -> bool, x: T, xs: seq<T>)
    requires StrictlySorted(lt, xs) && forall y :: y in xs ==> lt(x, y)
    ensures StrictlySorted(lt, [x] + xs)
  {
  }

  lemma {:induction false} InsertMembers<T(!new)>(lt: (T, T) -> bool, x: T, xs: seq<T>)
    ensures multiset(Insert(lt, x, xs)) == multiset([x]) + multiset(xs)
    ensures forall y :: y in Insert(lt, x, xs) <==> y == x || y in xs
  {
    if xs == [] || lt(x, xs[0]) {
    } else {
      InsertMembers(lt, x, xs[1..]);
      assert xs == [xs[0]] + xs[1..];
    }
  }

  lemma {:induction false} InsertSorted<T(!new)>(lt: (T, T) -> bool, x: T, xs: seq<T>)
    requires StrictOrder(lt) && StrictlySorted(lt, xs)
    requires forall y :: y in xs ==> lt(x, y) || lt(y, x)
    ensures StrictlySorted(lt, Insert(lt, x, xs))
    ensures multiset(Insert(lt, x, xs)) == multiset([x]) + multiset(xs)
  {
    InsertMembers(lt, x, xs);
    if xs == [] {
    } else if lt(x, xs[0]) {
      PrependSorted(lt, x, xs);
    } else {
      InsertSorted(lt, x, xs[1..]);
      InsertMembers(lt, x, xs[1..]);
      PrependSorted(lt, xs[0], Insert(lt, x, xs[1..]));
    }
  }

  lemma {:induction false} SortSorts<T(!new)>(lt: (T, T) -> bool, xs: seq<T>)
    requires StrictOrder(lt) && Comparable(lt, xs)
    ensures StrictlySorted(lt, Sort(lt, xs))
    ensures multiset(Sort(lt, xs)) == multiset(xs)
  {
    if xs == [] {
    } else {
      var rest := xs[1..];
      SortSorts(lt, rest);
      assert xs == [xs[0]] + rest;
      forall y | y in Sort(lt, rest) ensures lt(xs[0], y) || lt(y, xs[0]) {
        assert y in multiset(Sort(lt, rest));
        assert y in rest;
      }
      InsertSorted(lt, xs[0], Sort(lt, rest));
    }
  }

  /** A strictly sorted listing is determined by its elements. */
  lemma {:induction false} SortedIsUnique<T(!new)>(lt: (T, T) -> bool, a: seq<T>, b: seq<T>)
    requires StrictOrder(lt) && StrictlySorted(lt, a) && StrictlySorted(lt, b)
    requires forall x :: x in a <==> x in b
    ensures a == b
  {
    if b == [] {
      assert forall i :: 0 <= i < |a| ==> a[i] in a;
    } else {
      assert b[0] in b;
      assert a[0] in b;
      assert b[0] in a;
      assert a[0] == b[0];
      assert a == [a[0]] + a[1..] && b == [b[0]] + b[1..];
      assert !lt(a[0], a[0]);
      forall x ensures x in a[1..] <==> x in b[1..] {
        assert x in a[1..] ==> lt(a[0], x) && x in a;
        assert x in b[1..] ==> lt(b[0], x) && x in b;
      }
      SortedIsUnique(lt, a[1..], b[1..]);
    }
  }

  // ----- Names -----

  /** Byte-wise lexicographic order of Go strings. */
  predicate Lex(a: Bytes, b: Bytes) {
    b != [] && (a == [] || a[0] < b[0] || (a[0] == b[0] && Lex(a[1..], b[1..])))
  }

  lemma {:induction false} LexAsymmetric(a: Bytes, b: Bytes)
    requires Lex(a, b)
    ensures !Lex(b, a)
  {
    if a == [] {
    } else if a[0] == b[0] {
      LexAsymmetric(a[1..], b[1..]);
    }
  }

  lemma {:induction false} LexTransitive(a: Bytes, b: Bytes, c: Bytes)
    requires Lex(a, b) && Lex(b, c)
    ensures Lex(a, c)
  {
    if a == [] {
    } else if a[0] == b[0] == c[0] {
      LexTransitive(a[1..], b[1..], c[1..]);
    }
  }

  lemma {:induction false} LexTotal(a: Bytes, b: Bytes)
    requires a != b
    ensures Lex(a, b) || Lex(b, a)
  {
    if a == [] || b == [] {
    } else if a[0] == b[0] {
      assert a == [a[0]] + a[1..] && b == [b[0]] + b[1..];
      LexTotal(a[1..], b[1..]);
    }
  }

  lemma LexIsStrictOrder()
    ensures StrictOrder(Lex)
  {
    forall a, b | Lex(a, b) ensures !Lex(b, a) {
      LexAsymmetric(a, b);
    }
    forall a, b, c | Lex(a, b) && Lex(b, c) ensures Lex(a, c) {
      LexTransitive(a, b, c);
    }
  }

  /** Before, at the first byte that differs or as a proper prefix. */
  ghost predicate ComesBefore(a: Bytes, b: Bytes) {
    exists n: nat :: n <= |a| && n < |b| && DiffersAt(a, b, n)
  }

  ghost predicate DiffersAt(a: Bytes, b: Bytes, n: nat)
    requires n <= |a| && n < |b|
  {
    a[..n] == b[..n] && (n == |a| || a[n] < b[n])
  }

  lemma SameStart(a: Bytes, b: Bytes, n: nat)
    requires n <= |a| && n < |b| && DiffersAt(a, b, n)
    ensures n == 0 || a[0] == b[0]
  {
    if n > 0 {
      assert a[..n][0] == b[..n][0];
    }
  }

  lemma {:induction false} LexComesBefore(a: Bytes, b: Bytes)
    ensures Lex(a, b) <==> ComesBefore(a, b)
  {
    if a == [] || b == [] || a[0] != b[0] {
      forall n: nat | n <= |a| && n < |b| && DiffersAt(a, b, n) ensures n == 0 {
        SameStart(a, b, n);
      }
      if b != [] {
        assert DiffersAt(a, b, 0) <==> Lex(a, b);
      }
    } else {
      LexComesBefore(a[1..], b[1..]);
      if n: nat :| n <= |a[1..]| && n < |b[1..]| && DiffersAt(a[1..], b[1..], n) {
        assert a[..n + 1] == [a[0]] + a[1..][..n] && b[..n + 1] == [b[0]] + b[1..][..n];
        assert DiffersAt(a, b, n + 1);
      }
      if n: nat :| n <= |a| && n < |b| && DiffersAt(a, b, n) {
        assert n > 0;
        assert a[1..][..n - 1] == a[..n][1..] && b[1..][..n - 1] == b[..n][1..];
        assert DiffersAt(a[1..], b[1..], n - 1);
      }
    }
  }

  function NameSeq(secrets: seq<SealedSecret>): (r: seq<Bytes>)
    ensures |r| == |secrets|
    ensures forall i :: 0 <= i < |secrets| ==> r[i] == secrets[i].name
  {
    seq(|secrets|, i requires 0 <= i < |secrets| => secrets[i].name)
  }

  function NamesOf(secrets: seq<SealedSecret>): seq<Bytes> {
    Sort(Lex, NameSeq(secrets))
  }

  lemma NamesAreSorted(secrets: seq<SealedSecret>)
    requires DistinctNames(secrets)
    ensures StrictlySorted(Lex, NamesOf(secrets))
    ensures forall i, j :: 0 <= i < j < |NamesOf(secrets)| ==> ComesBefore(NamesOf(secrets)[i], NamesOf(secrets)[j])
    ensures multiset(NamesOf(secrets)) == multiset(NameSeq(secrets))
    ensures forall n :: n in NamesOf(secrets) <==> n in NameSet(secrets)
  {
    var names := NameSeq(secrets);
    LexIsStrictOrder();
    forall i, j | 0 <= i < j < |names| ensures Lex(names[i], names[j]) || Lex(names[j], names[i]) {
      LexTotal(names[i], names[j]);
    }
    SortSorts(Lex, names);
    forall i, j | 0 <= i < j < |NamesOf(secrets)| ensures ComesBefore(NamesOf(secrets)[i], NamesOf(secrets)[j]) {
      LexComesBefore(NamesOf(secrets)[i], NamesOf(secrets)[j]);
    }
    forall n ensures n in NamesOf(secrets) <==> n in NameSet(secrets) {
      assert n in NamesOf(secrets) <==> n in multiset(names);
      if n in names {
        var i :| 0 <= i < |names| && names[i] == n;
        assert secrets[i].name == n;
      }
      if n in NameSet(secrets) {
        var s :| s in secrets && s.name == n;
        var i :| 0 <= i < |secrets| && secrets[i] == s;
        assert names[i] == n;
      }
    }
  }

  /** The listing depends on which names are stored, not on how or in what order they got there. */
  lemma NamesAreCanonical(a: seq<SealedSecret>, b: seq<SealedSecret>)
    requires DistinctNames(a) && DistinctNames(b) && NameSet(a) == NameSet(b)
    ensures NamesOf(a) == NamesOf(b)
  {
    NamesAreSorted(a);
    NamesAreSorted(b);
    LexIsStrictOrder();
    SortedIsUnique(Lex, NamesOf(a), NamesOf(b));
  }

  // ----- Slots -----

  const CREDENTIAL_PREFIX_LEN := 8

  /** credentialPrefix is what the listing shows in hexadecimal. */
  datatype SlotInfo = SlotInfo(slot: int, keyLabel: Bytes, credentialPrefix: Bytes)

  function InfoOf(k: SealedKey): SlotInfo {
    var n := if |k.credentialID| < CREDENTIAL_PREFIX_LEN then |k.credentialID| else CREDENTIAL_PREFIX_LEN;
    SlotInfo(k.slot, k.keyLabel, k.credentialID[..n])
  }

  function BySlot(): (SlotInfo, SlotInfo) -> bool {
    (a: SlotInfo, b: SlotInfo) => a.slot < b.slot
  }

  function InfoSeq(keys: seq<SealedKey>): (r: seq<SlotInfo>)
    ensures |r| == |keys|
    ensures forall i :: 0 <= i < |keys| ==> r[i] == InfoOf(keys[i])
  {
    seq(|keys|, i requires 0 <= i < |keys| => InfoOf(keys[i]))
  }

  function SlotsOf(keys: seq<SealedKey>): seq<SlotInfo> {
    Sort(BySlot(), InfoSeq(keys))
  }

  lemma SlotsAreSorted(keys: seq<SealedKey>)
    requires DistinctSlots(keys)
    ensures StrictlySorted(BySlot(), SlotsOf(keys))
    ensures multiset(SlotsOf(keys)) == multiset(InfoSeq(keys))
    ensures |SlotsOf(keys)| == |keys|
    ensures forall info :: info in SlotsOf(keys) <==> exists k :: k in keys && info == InfoOf(k)
  {
    var infos := InfoSeq(keys);
    forall i, j | 0 <= i < j < |infos| ensures BySlot()(infos[i], infos[j]) || BySlot()(infos[j], infos[i]) {
      assert keys[i].slot != keys[j].slot;
    }
    SortSorts(BySlot(), infos);
    assert |multiset(SlotsOf(keys))| == |multiset(infos)|;
    forall info ensures info in SlotsOf(keys) <==> exists k :: k in keys && info == InfoOf(k) {
      assert info in SlotsOf(keys) <==> info in multiset(infos);
      if info in infos {
        var i :| 0 <= i < |infos| && infos[i] == info;
        assert keys[i] in keys && info == InfoOf(keys[i]);
      }
      if k :| k in keys && info == InfoOf(k) {
        var i :| 0 <= i < |keys| && keys[i] == k;
        assert infos[i] == info;
      }
    }
  }

  /** Line by line, without the functions it is computed by: slots rise, every key has a line with its slot, its label and
      the first eight bytes of its credential, or all of a shorter one, and every line is some key's. */
  lemma SlotLinesAreRight(keys: seq<SealedKey>)
    requires DistinctSlots(keys)
    ensures var infos := SlotsOf(keys);
      && |infos| == |keys|
      && (forall i, j :: 0 <= i < j < |infos| ==> infos[i].slot < infos[j].slot)
      && (forall k :: k in keys ==> exists i :: 0 <= i < |infos| && Shows(infos[i], k))
      && (forall i :: 0 <= i < |infos| ==> ShowsAKey(infos[i], keys))
  {
    SlotsAreSorted(keys);
    var infos := SlotsOf(keys);
    forall k | k in keys ensures exists i :: 0 <= i < |infos| && Shows(infos[i], k) {
      assert InfoOf(k) in infos;
      var i :| 0 <= i < |infos| && infos[i] == InfoOf(k);
      assert Shows(infos[i], k);
    }
    forall i | 0 <= i < |infos| ensures ShowsAKey(infos[i], keys) {
      assert infos[i] in infos;
      var k :| k in keys && infos[i] == InfoOf(k);
      assert Shows(infos[i], k);
    }
  }

  ghost predicate ShowsAKey(info: SlotInfo, keys: seq<SealedKey>) {
    exists k :: k in keys && Shows(info, k)
  }

  ghost predicate Shows(info: SlotInfo, k: SealedKey) {
    && info.slot == k.slot && info.keyLabel == k.keyLabel
    && info.credentialPrefix <= k.credentialID
    && (|info.credentialPrefix| == 8 || (|info.credentialPrefix| < 8 && info.credentialPrefix == k.credentialID))
  }

  /** The listing depends on which keys are enrolled, not on their order in the document. */
  lemma SlotsAreCanonical(a: seq<SealedKey>, b: seq<SealedKey>)
    requires DistinctSlots(a) && DistinctSlots(b)
    requires forall k :: k in a <==> k in b
    ensures SlotsOf(a) == SlotsOf(b)
  {
    SlotsAreSorted(a);
    SlotsAreSorted(b);
    SortedIsUnique(BySlot(), SlotsOf(a), SlotsOf(b));
  }

  // ----- The lowest free slot -----

  predicate Occupied(slots: seq<SlotInfo>, n: int) {
    exists i :: 0 <= i < |slots| && slots[i].slot == n
  }

  ghost predicate IsFreeSlot(slots: seq<SlotInfo>, n: int) {
    n >= 0 && !Occupied(slots, n) && forall m :: 0 <= m < n ==> Occupied(slots, m)
  }

  /** Pigeonhole: if 0..n-1 are all occupied, there are at least n occupied slots. */
  lemma {:induction false} Pigeonhole(occupied: set<int>, n: nat)
    requires forall m :: 0 <= m < n ==> m in occupied
    ensures n <= |occupied|
  {
    if n == 0 {
    } else {
      Pigeonhole(occupied - {n - 1}, n - 1);
    }
  }

  /** The counter loop has no bound in its guard; it stops because the slots run out. */
  method FreeSlot(slots: seq<SlotInfo>) returns (n: nat)
    ensures IsFreeSlot(slots, n)
    ensures n <= |slots|
  {
    var occupied: set<int> := {};
    for i := 0 to |slots|
      invariant forall j :: 0 <= j < i ==> slots[j].slot in occupied
      invariant forall m :: m in occupied ==> Occupied(slots, m)
      invariant |occupied| <= i
    {
      occupied := occupied + {slots[i].slot};
    }
    n := 0;
    while n in occupied
      invariant forall m :: 0 <= m < n ==> m in occupied
      invariant n <= |occupied|
      decreases |occupied| - n
    {
      n := n + 1;
      Pigeonhole(occupied, n);
    }
  }

  /** Enrolling into the free slot of a document's own listing never hits an occupied one. */
  lemma FreeSlotIsUnoccupied(keys: seq<SealedKey>, n: int)
    requires DistinctSlots(keys) && IsFreeSlot(SlotsOf(keys), n)
    ensures n >= 0 && n !in SlotSet(keys)
    ensures forall m :: 0 <= m < n ==> m in SlotSet(keys)
  {
    SlotsAreSorted(keys);
    forall k | k in keys ensures k.slot != n {
      assert InfoOf(k) in SlotsOf(keys);
      var i :| 0 <= i < |SlotsOf(keys)| && SlotsOf(keys)[i] == InfoOf(k);
      assert !Occupied(SlotsOf(keys), n);
    }
    forall m | 0 <= m < n ensures m in SlotSet(keys) {
      assert Occupied(SlotsOf(keys), m);
      var i :| 0 <= i < |SlotsOf(keys)| && SlotsOf(keys)[i].slot == m;
      assert SlotsOf(keys)[i] in SlotsOf(keys);
    }
  }
}
