/** Any number of threads opening secrets through, and locking, any number of sessions over one document, one small
    step at a time, in any order. Each session has a mutex and a key buffer of its own. */
module Interleaving {
  import opened Common
  import opened Aead
  import opened Document
  import opened Authenticators
  import opened Runs
  import opened Refinement
  import Op = Operations

  /** One call of Open: through which session, where in the log it started, and where it got the mutex. */
  datatype Ticket = Ticket(session: nat, name: Bytes, start: nat, at: nat)

  /** Where a thread stands in its call of Open or Lock. */
  datatype Pc =
    | Idle
    | Opening(s: nat, name: Bytes, start: nat)          // wants the mutex
    | Holding(ticket: Ticket)                           // has it, about to call key()
    | HasKey(ticket: Ticket)                            // its slice aliases the session's buffer
    | Found(ticket: Ticket, entry: SealedSecret)        // about to decrypt with whatever the buffer holds now
    | Returning(ticket: Ticket, result: Result<Bytes>)  // about to give the mutex back
    | Leaving(ticket: Ticket, result: Result<Bytes>)    // has given it back; the caller has not resumed yet
    | Locking(s: nat)                                   // wants the mutex
    | Zeroing(s: nat, at: nat, next: nat)               // overwriting the buffer byte by byte
    | Nilling(s: nat, at: nat)                          // about to set the slice to nil
    | Unlocking(s: nat, at: nat)                        // about to give the mutex back
    | LockLeaving(s: nat, at: nat)                      // has given it back; the caller has not resumed yet

  /** What happened, in order. A call has returned only once its caller resumes. */
  datatype Observation =
    | OpenStarted(session: nat, name: Bytes)
    | OpenAcquired(session: nat, start: nat)
    | Decrypted(session: nat, keyUsed: Bytes)
    | OpenReturned(ticket: Ticket, result: Result<Bytes>)
    | LockAcquired(session: nat)
    | LockReturned(session: nat, at: nat)

  /** hasKey is "dataKey != nil"; buffer is the array behind it, which outlives the slice. */
  datatype SessionState = SessionState(mutex: Option<nat>, hasKey: bool, buffer: Bytes)

  datatype State = State(sessions: seq<SessionState>, threads: seq<Pc>, log: seq<Observation>)

  datatype Choice =
    | StartOpen(thread: nat, session: nat, name: Bytes)
    | StartLock(thread: nat, session: nat)
    | Advance(thread: nat)

  function SessionOf(pc: Pc): Option<nat> {
    match pc
    case Idle => None
    case Opening(s, _, _) => Some(s)
    case Holding(t) => Some(t.session)
    case HasKey(t) => Some(t.session)
    case Found(t, _) => Some(t.session)
    case Returning(t, _) => Some(t.session)
    case Leaving(t, _) => Some(t.session)
    case Locking(s) => Some(s)
    case Zeroing(s, _, _) => Some(s)
    case Nilling(s, _) => Some(s)
    case Unlocking(s, _) => Some(s)
    case LockLeaving(s, _) => Some(s)
  }

  /** What one step of a thread makes of its session, of itself, and of the log. */
  datatype Move = Move(my: SessionState, pc: Pc, events: seq<Observation>)

  /** One step of thread t. guarded is whether the mutex is respected; the library always respects it. */
  function MoveOf(guarded: bool, doc: Doc, my: SessionState, now: nat, t: nat, pc: Pc): (r: Move)
    ensures |r.events| <= 1
  {
    match pc
    case Idle => Move(my, pc, [])
    case Opening(s, name, start) =>
      if guarded && my.mutex.Some? then Move(my, pc, [])
      else Move(my.(mutex := Some(t)), Holding(Ticket(s, name, start, now)), [OpenAcquired(s, start)])
    case Holding(ticket) => Move(my, if my.hasKey then HasKey(ticket) else Returning(ticket, Err(Locked)), [])
    case HasKey(ticket) =>
      var entry := FindSecret(doc.secrets, ticket.name);
      Move(my, if entry.Some? then Found(ticket, entry.value) else Returning(ticket, Err(NoSuchSecret)), [])
    case Found(ticket, entry) =>
      Move(my, Returning(ticket, OpenSecret(doc.header, my.buffer, entry)), [Decrypted(ticket.session, my.buffer)])
    case Returning(ticket, result) => Move(my.(mutex := None), Leaving(ticket, result), [])
    case Leaving(ticket, result) => Move(my, Idle, [OpenReturned(ticket, result)])
    case Locking(s) =>
      if guarded && my.mutex.Some? then Move(my, pc, [])
      else Move(my.(mutex := Some(t)), Zeroing(s, now, 0), [LockAcquired(s)])
    case Zeroing(s, at, i) =>
      if my.hasKey && i < |my.buffer| then Move(my.(buffer := my.buffer[i := 0]), Zeroing(s, at, i + 1), [])
      else Move(my, Nilling(s, at), [])
    case Nilling(s, at) => Move(my.(hasKey := false), Unlocking(s, at), [])
    case Unlocking(s, at) => Move(my.(mutex := None), LockLeaving(s, at), [])
    case LockLeaving(s, at) => Move(my, Idle, [LockReturned(s, at)])
  }

  /** Thread t and its session move; every other thread and session stays as it is. */
  function Moved(st: State, t: nat, s: nat, m: Move): State
    requires t < |st.threads| && s < |st.sessions|
  {
    State(st.sessions[s := m.my], st.threads[t := m.pc], st.log + m.events)
  }

  function StepOf(guarded: bool, doc: Doc, st: State, c: Choice): State {
    if c.thread >= |st.threads| then st
    else
      var t := c.thread;
      var pc := st.threads[t];
      match c
      case StartOpen(_, s, name) =>
        if s < |st.sessions| && pc.Idle?
        then Moved(st, t, s, Move(st.sessions[s], Opening(s, name, |st.log|), [OpenStarted(s, name)]))
        else st
      case StartLock(_, s) =>
        if s < |st.sessions| && pc.Idle? then Moved(st, t, s, Move(st.sessions[s], Locking(s), [])) else st
      case Advance(_) =>
        if SessionOf(pc).Some? && SessionOf(pc).value < |st.sessions|
        then var s := SessionOf(pc).value; Moved(st, t, s, MoveOf(guarded, doc, st.sessions[s], |st.log|, t, pc))
        else st
  }

  function Schedule(guarded: bool, doc: Doc, st: State, choices: seq<Choice>): State {
    if choices == [] then st
    else StepOf(guarded, doc, Schedule(guarded, doc, st, choices[..|choices| - 1]), choices[|choices| - 1])
  }

  /** Unlocked sessions, one per key, with all threads idle. */
  function Fresh(keys: seq<Bytes>, threads: nat): State {
    State(seq(|keys|, i requires 0 <= i < |keys| => SessionState(None, true, keys[i])), seq(threads, _ => Idle), [])
  }

  // ----- What one thread relies on -----

  predicate Inside(pc: Pc) {
    !pc.Idle? && !pc.Opening? && !pc.Leaving? && !pc.Locking? && !pc.LockLeaving?
  }

  predicate TicketHolds(log: seq<Observation>, t: Ticket) {
    t.start < t.at < |log| && log[t.start] == OpenStarted(t.session, t.name) && log[t.at] == OpenAcquired(t.session, t.start)
  }

  /** What a call must return that got the mutex at this place in the log. */
  function Expected(key: Bytes, doc: Doc, log: seq<Observation>, t: Ticket): Result<Bytes>
    requires t.at <= |log|
  {
    if LockAcquired(t.session) in log[..t.at] then Err(Locked) else Op.Open(doc, Some(key), t.name)
  }

  predicate ReturnHolds(key: Bytes, doc: Doc, log: seq<Observation>, t: Ticket, result: Result<Bytes>) {
    TicketHolds(log, t) && result == Expected(key, doc, log, t)
  }

  predicate LockHolds(log: seq<Observation>, s: nat, at: nat) {
    at < |log| && log[at] == LockAcquired(s)
  }

  /** What a thread relies on, inside or outside; key is its session's. */
  predicate ThreadHolds(key: Bytes, doc: Doc, log: seq<Observation>, pc: Pc) {
    match pc
    case Opening(s, name, start) => start < |log| && log[start] == OpenStarted(s, name)
    case Holding(t) => TicketHolds(log, t)
    case HasKey(t) => TicketHolds(log, t)
    case Found(t, entry) => TicketHolds(log, t) && FindSecret(doc.secrets, t.name) == Some(entry)
    case Returning(t, result) => ReturnHolds(key, doc, log, t, result)
    case Leaving(t, result) => ReturnHolds(key, doc, log, t, result)
    case Zeroing(s, at, _) => LockHolds(log, s, at)
    case Nilling(s, at) => LockHolds(log, s, at)
    case Unlocking(s, at) => LockHolds(log, s, at)
    case LockLeaving(s, at) => LockHolds(log, s, at)
    case _ => true
  }

  /** No Lock is under way: the key is there, untouched, exactly if none ever got the mutex. */
  predicate Settled(key: Bytes, s: nat, my: SessionState, log: seq<Observation>) {
    (my.hasKey <==> LockAcquired(s) !in log) && (my.hasKey ==> my.buffer == key)
  }

  /** What the thread with the mutex relies on besides; Idle stands for nobody. */
  predicate InsideHolds(key: Bytes, s: nat, my: SessionState, log: seq<Observation>, pc: Pc) {
    match pc
    case Holding(t) => Settled(key, s, my, log) && t.at < |log| && LockAcquired(s) !in log[t.at..]
    case HasKey(_) => Settled(key, s, my, log) && my.hasKey
    case Found(_, _) => Settled(key, s, my, log) && my.hasKey
    case Zeroing(_, _, _) => LockAcquired(s) in log
    case Nilling(_, _) => LockAcquired(s) in log
    case Unlocking(_, _) => Settled(key, s, my, log) && !my.hasKey
    case _ => Settled(key, s, my, log)
  }

  /** Whom the mutex shuts in, as far as this thread can tell. */
  function Seen(my: SessionState, t: nat, pc: Pc, other: Pc): Pc {
    if my.mutex == Some(t) then pc else if my.mutex.None? then Idle else other
  }

  predicate EventHolds(key: Bytes, doc: Doc, log: seq<Observation>, e: Observation) {
    match e
    case Decrypted(_, keyUsed) => keyUsed == key
    case OpenReturned(t, result) => ReturnHolds(key, doc, log, t, result)
    case LockReturned(s, at) => LockHolds(log, s, at)
    case _ => true
  }

  function SessionOfEvent(e: Observation): nat {
    match e
    case OpenStarted(s, _) => s
    case OpenAcquired(s, _) => s
    case Decrypted(s, _) => s
    case OpenReturned(t, _) => t.session
    case LockAcquired(s) => s
    case LockReturned(s, _) => s
  }

  /** A longer log changes nothing that a thread relies on. */
  lemma ThreadHoldsOn(key: Bytes, doc: Doc, log: seq<Observation>, longer: seq<Observation>, pc: Pc)
    requires ThreadHolds(key, doc, log, pc) && log <= longer
    ensures ThreadHolds(key, doc, longer, pc)
  {
    assert forall n :: 0 <= n <= |log| ==> longer[..n] == log[..n];
  }

  /** An event that is not this session's Lock changes nothing that the thread with its mutex relies on. */
  lemma InsideHoldsOn(key: Bytes, s: nat, my: SessionState, log: seq<Observation>, events: seq<Observation>, pc: Pc)
    requires InsideHolds(key, s, my, log, pc) && LockAcquired(s) !in events
    ensures InsideHolds(key, s, my, log + events, pc)
  {
    if pc.Holding? {
      assert (log + events)[pc.ticket.at..] == log[pc.ticket.at..] + events;
    }
  }

  /** A reader that has the mutex and a key knows that no Lock was before it. */
  lemma NoLockBefore(key: Bytes, doc: Doc, my: SessionState, log: seq<Observation>, pc: Pc, t: Ticket)
    requires pc == Holding(t) || pc == HasKey(t) || (pc.Found? && pc.ticket == t)
    requires ThreadHolds(key, doc, log, pc) && InsideHolds(key, t.session, my, log, pc)
    ensures LockAcquired(t.session) in log[..t.at] <==> !my.hasKey
  {
    assert log == log[..t.at] + log[t.at..];
  }

  /** A thread's own step keeps what it relies on, by where it stands. */
  lemma ReaderMovesOn(key: Bytes, doc: Doc, my: SessionState, log: seq<Observation>, t: nat, pc: Pc)
    requires pc.Holding? || pc.HasKey? || pc.Found?
    requires ThreadHolds(key, doc, log, pc) && InsideHolds(key, pc.ticket.session, my, log, pc)
    ensures var m := MoveOf(true, doc, my, |log|, t, pc);
      ThreadHolds(key, doc, log + m.events, m.pc)
  {
    hide OpenSecret, FindSecret;
    NoLockBefore(key, doc, my, log, pc, pc.ticket);
    var m := MoveOf(true, doc, my, |log|, t, pc);
    assert (log + m.events)[..pc.ticket.at] == log[..pc.ticket.at];
  }

  lemma ThreadMovesOn(key: Bytes, doc: Doc, my: SessionState, log: seq<Observation>, t: nat, pc: Pc)
    requires ThreadHolds(key, doc, log, pc) && SessionOf(pc).Some?
    requires Inside(pc) ==> InsideHolds(key, SessionOf(pc).value, my, log, pc)
    ensures var m := MoveOf(true, doc, my, |log|, t, pc);
      ThreadHolds(key, doc, log + m.events, m.pc)
  {
    hide Op.Open, OpenSecret, FindSecret, Expected;
    if pc.Holding? || pc.HasKey? || pc.Found? {
      ReaderMovesOn(key, doc, my, log, t, pc);
    } else {
      assert log + [] == log;
    }
  }

  lemma MoveIsLogged(key: Bytes, doc: Doc, my: SessionState, log: seq<Observation>, t: nat, pc: Pc)
    requires ThreadHolds(key, doc, log, pc) && SessionOf(pc).Some?
    requires Inside(pc) ==> InsideHolds(key, SessionOf(pc).value, my, log, pc)
    ensures var events := MoveOf(true, doc, my, |log|, t, pc).events;
      forall e :: e in events ==> EventHolds(key, doc, log, e) && SessionOfEvent(e) == SessionOf(pc).value
  {
    hide OpenSecret, FindSecret, Expected;
  }

  /** The mutex admits one thread at a time: this one enters only where nobody is, and leaves only its own place. */
  lemma MoveExcludes(doc: Doc, my: SessionState, now: nat, t: nat, pc: Pc)
    requires SessionOf(pc).Some? && (Inside(pc) <==> my.mutex == Some(t))
    ensures var m := MoveOf(true, doc, my, now, t, pc);
      && (Inside(m.pc) <==> m.my.mutex == Some(t))
      && (m.my.mutex != my.mutex ==> my.mutex == None || my.mutex == Some(t))
      && (m.my.mutex != my.mutex ==> m.my.mutex == None || m.my.mutex == Some(t))
      && (m.pc.Idle? || SessionOf(m.pc) == SessionOf(pc))
  {
    hide OpenSecret, FindSecret;
  }

  /** What whoever has the mutex relies on, once this thread has moved. */
  lemma MoveInside(key: Bytes, doc: Doc, my: SessionState, log: seq<Observation>, t: nat, pc: Pc, other: Pc)
    requires SessionOf(pc).Some? && (Inside(pc) <==> my.mutex == Some(t))
    requires InsideHolds(key, SessionOf(pc).value, my, log, Seen(my, t, pc, other))
    ensures var m := MoveOf(true, doc, my, |log|, t, pc);
      InsideHolds(key, SessionOf(pc).value, m.my, log + m.events, Seen(m.my, t, m.pc, other))
  {
    hide OpenSecret, FindSecret;
    if pc.Leaving? || pc.LockLeaving? || pc.Found? {
      MoveOutside(key, doc, my, log, t, pc, other);
    } else {
      assert log + [] == log;
    }
  }

  lemma MoveOutside(key: Bytes, doc: Doc, my: SessionState, log: seq<Observation>, t: nat, pc: Pc, other: Pc)
    requires pc.Leaving? || pc.LockLeaving? || pc.Found?
    requires Inside(pc) <==> my.mutex == Some(t)
    requires InsideHolds(key, SessionOf(pc).value, my, log, Seen(my, t, pc, other))
    ensures var m := MoveOf(true, doc, my, |log|, t, pc);
      InsideHolds(key, SessionOf(pc).value, m.my, log + m.events, Seen(m.my, t, m.pc, other))
  {
    hide OpenSecret, FindSecret;
    InsideHoldsOn(key, SessionOf(pc).value, my, log, MoveOf(true, doc, my, |log|, t, pc).events, Seen(my, t, pc, other));
  }

  // ----- All threads and all sessions -----

  predicate ThreadsHold(keys: seq<Bytes>, doc: Doc, st: State) {
    forall t :: 0 <= t < |st.threads| && SessionOf(st.threads[t]).Some? ==>
      && SessionOf(st.threads[t]).value < |keys|
      && ThreadHolds(keys[SessionOf(st.threads[t]).value], doc, st.log, st.threads[t])
  }

  /** A session's mutex is held by the one thread that is inside it, or by nobody. */
  predicate Exclusive(st: State) {
    && (forall t, s :: 0 <= t < |st.threads| && 0 <= s < |st.sessions| && SessionOf(st.threads[t]) == Some(s) ==>
          (Inside(st.threads[t]) <==> st.sessions[s].mutex == Some(t)))
    && (forall s :: 0 <= s < |st.sessions| && st.sessions[s].mutex.Some? ==>
          && st.sessions[s].mutex.value < |st.threads|
          && SessionOf(st.threads[st.sessions[s].mutex.value]) == Some(s))
  }

  function Holder(st: State, s: nat): Pc
    requires s < |st.sessions|
  {
    var mutex := st.sessions[s].mutex;
    if mutex.Some? && mutex.value < |st.threads| then st.threads[mutex.value] else Idle
  }

  predicate SessionsHold(keys: seq<Bytes>, st: State) {
    && |keys| == |st.sessions|
    && forall s :: 0 <= s < |keys| ==> InsideHolds(keys[s], s, st.sessions[s], st.log, Holder(st, s))
  }

  /** Every event was right when it was logged. */
  predicate LogHolds(keys: seq<Bytes>, doc: Doc, log: seq<Observation>) {
    forall k :: 0 <= k < |log| ==>
      SessionOfEvent(log[k]) < |keys| && EventHolds(keys[SessionOfEvent(log[k])], doc, log[..k], log[k])
  }

  predicate StateHolds(keys: seq<Bytes>, doc: Doc, st: State) {
    LogHolds(keys, doc, st.log) && ThreadsHold(keys, doc, st) && Exclusive(st) && SessionsHold(keys, st)
  }

  lemma LogGrows(keys: seq<Bytes>, doc: Doc, log: seq<Observation>, events: seq<Observation>)
    requires LogHolds(keys, doc, log) && |events| <= 1
    requires forall e :: e in events ==>
      SessionOfEvent(e) < |keys| && EventHolds(keys[SessionOfEvent(e)], doc, log, e)
    ensures LogHolds(keys, doc, log + events)
  {
    hide EventHolds;
    var longer := log + events;
    forall k | 0 <= k < |longer|
      ensures SessionOfEvent(longer[k]) < |keys| && EventHolds(keys[SessionOfEvent(longer[k])], doc, longer[..k], longer[k])
    {
      if k < |log| {
        assert longer[..k] == log[..k];
      } else {
        assert longer[..k] == log && longer[k] == events[0];
      }
    }
  }

  lemma ThreadsHoldOn(keys: seq<Bytes>, doc: Doc, st: State, t: nat, s: nat, m: Move)
    requires ThreadsHold(keys, doc, st) && t < |st.threads| && s < |st.sessions| == |keys|
    requires m.pc.Idle? || (SessionOf(m.pc) == Some(s) && ThreadHolds(keys[s], doc, st.log + m.events, m.pc))
    ensures ThreadsHold(keys, doc, Moved(st, t, s, m))
  {
    hide ThreadHolds;
    forall u | 0 <= u < |st.threads| && u != t && SessionOf(st.threads[u]).Some?
      ensures ThreadHolds(keys[SessionOf(st.threads[u]).value], doc, st.log + m.events, st.threads[u])
    {
      ThreadHoldsOn(keys[SessionOf(st.threads[u]).value], doc, st.log, st.log + m.events, st.threads[u]);
    }
  }

  lemma ExclusiveOn(st: State, t: nat, s: nat, m: Move)
    requires Exclusive(st) && t < |st.threads| && s < |st.sessions|
    requires SessionOf(st.threads[t]) == Some(s) || st.threads[t].Idle?
    requires m.pc.Idle? || SessionOf(m.pc) == Some(s)
    requires Inside(m.pc) <==> m.my.mutex == Some(t)
    requires m.my.mutex != st.sessions[s].mutex ==>
      && (st.sessions[s].mutex == None || st.sessions[s].mutex == Some(t)) && (m.my.mutex == None || m.my.mutex == Some(t))
    ensures Exclusive(Moved(st, t, s, m))
  {
  }

  lemma SessionsHoldOn(keys: seq<Bytes>, st: State, t: nat, s: nat, m: Move)
    requires SessionsHold(keys, st) && Exclusive(st) && t < |st.threads| && s < |st.sessions|
    requires SessionOf(st.threads[t]) == Some(s) || st.threads[t].Idle?
    requires forall e :: e in m.events ==> SessionOfEvent(e) == s
    requires InsideHolds(keys[s], s, m.my, st.log + m.events, Seen(m.my, t, m.pc, Holder(st, s)))
    requires m.my.mutex == st.sessions[s].mutex || m.my.mutex == None || m.my.mutex == Some(t)
    ensures SessionsHold(keys, Moved(st, t, s, m))
  {
    hide InsideHolds;
    var next := Moved(st, t, s, m);
    forall r | 0 <= r < |keys| ensures InsideHolds(keys[r], r, next.sessions[r], next.log, Holder(next, r)) {
      if r != s {
        assert Holder(next, r) == Holder(st, r);
        InsideHoldsOn(keys[r], r, st.sessions[r], st.log, m.events, Holder(st, r));
      } else {
        assert Holder(next, s) == Seen(m.my, t, m.pc, Holder(st, s));
      }
    }
  }

  /** Anything a thread does that is right for its own session keeps everything. */
  lemma MovedKeeps(keys: seq<Bytes>, doc: Doc, st: State, t: nat, s: nat, m: Move)
    requires StateHolds(keys, doc, st) && t < |st.threads| && s < |st.sessions| && |m.events| <= 1
    requires SessionOf(st.threads[t]) == Some(s) || st.threads[t].Idle?
    requires m.pc.Idle? || (SessionOf(m.pc) == Some(s) && ThreadHolds(keys[s], doc, st.log + m.events, m.pc))
    requires Inside(m.pc) <==> m.my.mutex == Some(t)
    requires m.my.mutex != st.sessions[s].mutex ==>
      && (st.sessions[s].mutex == None || st.sessions[s].mutex == Some(t)) && (m.my.mutex == None || m.my.mutex == Some(t))
    requires forall e :: e in m.events ==> SessionOfEvent(e) == s && EventHolds(keys[s], doc, st.log, e)
    requires InsideHolds(keys[s], s, m.my, st.log + m.events, Seen(m.my, t, m.pc, Holder(st, s)))
    ensures StateHolds(keys, doc, Moved(st, t, s, m))
  {
    hide ThreadsHold, Exclusive, LogHolds, InsideHolds, EventHolds, ThreadHolds;
    LogGrows(keys, doc, st.log, m.events);
    ThreadsHoldOn(keys, doc, st, t, s, m);
    ExclusiveOn(st, t, s, m);
    SessionsHoldOn(keys, st, t, s, m);
  }

  lemma AdvanceKeeps(keys: seq<Bytes>, doc: Doc, st: State, t: nat, s: nat)
    requires StateHolds(keys, doc, st) && t < |st.threads| && s < |st.sessions| && SessionOf(st.threads[t]) == Some(s)
    ensures StateHolds(keys, doc, Moved(st, t, s, MoveOf(true, doc, st.sessions[s], |st.log|, t, st.threads[t])))
  {
    hide LogHolds, InsideHolds, EventHolds, ThreadHolds, MoveOf;
    var my, pc := st.sessions[s], st.threads[t];
    assert InsideHolds(keys[s], s, my, st.log, Holder(st, s));
    MoveExcludes(doc, my, |st.log|, t, pc);
    ThreadMovesOn(keys[s], doc, my, st.log, t, pc);
    MoveIsLogged(keys[s], doc, my, st.log, t, pc);
    assert Holder(st, s) == Seen(my, t, pc, Holder(st, s));
    MoveInside(keys[s], doc, my, st.log, t, pc, Holder(st, s));
    MovedKeeps(keys, doc, st, t, s, MoveOf(true, doc, my, |st.log|, t, pc));
  }

  lemma StartKeeps(keys: seq<Bytes>, doc: Doc, st: State, t: nat, s: nat, pc: Pc, events: seq<Observation>)
    requires StateHolds(keys, doc, st) && t < |st.threads| && s < |st.sessions| && st.threads[t].Idle?
    requires (exists name :: pc == Opening(s, name, |st.log|) && events == [OpenStarted(s, name)])
          || (pc == Locking(s) && events == [])
    ensures StateHolds(keys, doc, Moved(st, t, s, Move(st.sessions[s], pc, events)))
  {
    hide LogHolds, ThreadsHold, InsideHolds;
    assert InsideHolds(keys[s], s, st.sessions[s], st.log, Holder(st, s));
    assert st.sessions[s].mutex != Some(t);
    InsideHoldsOn(keys[s], s, st.sessions[s], st.log, events, Holder(st, s));
    MovedKeeps(keys, doc, st, t, s, Move(st.sessions[s], pc, events));
  }

  lemma StepKeeps(keys: seq<Bytes>, doc: Doc, st: State, c: Choice)
    requires StateHolds(keys, doc, st)
    ensures StateHolds(keys, doc, StepOf(true, doc, st, c))
  {
    hide StateHolds, MoveOf, Moved;
    var t := c.thread;
    if t < |st.threads| {
      match c
      case StartOpen(_, s, name) =>
        if s < |st.sessions| && st.threads[t].Idle? {
          StartKeeps(keys, doc, st, t, s, Opening(s, name, |st.log|), [OpenStarted(s, name)]);
        }
      case StartLock(_, s) =>
        if s < |st.sessions| && st.threads[t].Idle? {
          StartKeeps(keys, doc, st, t, s, Locking(s), []);
        }
      case Advance(_) =>
        var s := SessionOf(st.threads[t]);
        if s.Some? && s.value < |st.sessions| {
          AdvanceKeeps(keys, doc, st, t, s.value);
        }
    }
  }

  lemma {:induction false} ScheduleKeeps(keys: seq<Bytes>, doc: Doc, st: State, choices: seq<Choice>)
    requires StateHolds(keys, doc, st)
    ensures StateHolds(keys, doc, Schedule(true, doc, st, choices))
  {
    hide StateHolds, StepOf;
    if choices == [] {
    } else {
      ScheduleKeeps(keys, doc, st, choices[..|choices| - 1]);
      StepKeeps(keys, doc, Schedule(true, doc, st, choices[..|choices| - 1]), choices[|choices| - 1]);
    }
  }

  // ----- Safety -----

  lemma ScheduleLogHolds(keys: seq<Bytes>, doc: Doc, threads: nat, choices: seq<Choice>)
    ensures LogHolds(keys, doc, Schedule(true, doc, Fresh(keys, threads), choices).log)
  {
    hide Schedule;
    ScheduleKeeps(keys, doc, Fresh(keys, threads), choices);
  }

  /** Every schedule of every number of threads over every number of sessions. Each decryption uses its session's data
      key itself. Each Open returns exactly what the order of acquisitions says: ErrLocked if some Lock of its session
      had the mutex before it, and otherwise what it would return alone. So an Open that starts, or gets the mutex,
      after a Lock of its session has returned is told ErrLocked, and a Lock of another session does not matter. */
  lemma InterleavingIsSafe(keys: seq<Bytes>, doc: Doc, threads: nat, choices: seq<Choice>)
    ensures var log := Schedule(true, doc, Fresh(keys, threads), choices).log;
      && (forall k :: 0 <= k < |log| && log[k].Decrypted? ==>
            log[k].session < |keys| && log[k].keyUsed == keys[log[k].session])
      && (forall k :: 0 <= k < |log| && log[k].OpenReturned? ==>
            var t := log[k].ticket;
            && t.session < |keys| && t.start < t.at < k
            && log[t.start] == OpenStarted(t.session, t.name) && log[t.at] == OpenAcquired(t.session, t.start)
            && log[k].result == if LockAcquired(t.session) in log[..t.at] then Err(Locked)
                                else Op.Open(doc, Some(keys[t.session]), t.name))
      && (forall k :: 0 <= k < |log| && log[k].LockReturned? ==>
            log[k].at < k && log[log[k].at] == LockAcquired(log[k].session))
      && (forall i, k :: 0 <= i < k < |log| && log[i].LockReturned? && log[k].OpenReturned?
            && log[i].session == log[k].ticket.session && i < log[k].ticket.at
            ==> log[k].result == Err(Locked))
  {
    hide Schedule, Op.Open;
    ScheduleLogHolds(keys, doc, threads, choices);
    var log := Schedule(true, doc, Fresh(keys, threads), choices).log;
    forall k | 0 <= k < |log| && log[k].OpenReturned?
      ensures SessionOfEvent(log[k]) < |keys|
      ensures ReturnHolds(keys[SessionOfEvent(log[k])], doc, log[..k], log[k].ticket, log[k].result)
           && log[..k][..log[k].ticket.at] == log[..log[k].ticket.at]
    {
      assert EventHolds(keys[SessionOfEvent(log[k])], doc, log[..k], log[k]);
    }
    forall k | 0 <= k < |log| && log[k].LockReturned?
      ensures log[k].at < k && log[log[k].at] == LockAcquired(log[k].session)
    {
      assert EventHolds(keys[SessionOfEvent(log[k])], doc, log[..k], log[k]);
    }
    forall i, k | 0 <= i < k < |log| && log[i].LockReturned? && log[k].OpenReturned?
      && log[i].session == log[k].ticket.session && i < log[k].ticket.at
      ensures LockAcquired(log[k].ticket.session) in log[..log[k].ticket.at]
    {
      assert log[..log[k].ticket.at][log[i].at] == LockAcquired(log[i].session);
    }
  }

  /** Sessions of a run, all of them unlocked and over the same document. */
  ghost predicate UnlockedOver(p: Past, d: nat, ids: seq<nat>) {
    && (forall i, j :: 0 <= i < j < |ids| ==> ids[i] != ids[j])
    && (forall i :: 0 <= i < |ids| ==>
          ids[i] < |p.world.sessions| && ids[i] !in p.history.locked && p.world.sessions[ids[i]].doc == d)
  }

  function KeysOf(w: World, ids: seq<nat>): (r: seq<Bytes>)
    requires forall i :: 0 <= i < |ids| ==> ids[i] < |w.sessions| && w.sessions[ids[i]].key.Some?
    ensures |r| == |ids| && forall i :: 0 <= i < |ids| ==> r[i] == w.sessions[ids[i]].key.value
  {
    seq(|ids|, i requires 0 <= i < |ids| => w.sessions[ids[i]].key.value)
  }

  /** In particular, threads over any unlocked sessions that share a document after a run read the plain map or are told
      that their session is locked. */
  lemma ReachableSessionsAreSafe(port: Port, p: Past, d: nat, ids: seq<nat>, threads: nat, choices: seq<Choice>)
    requires Reachable(port, p) && d < |p.world.docs| && UnlockedOver(p, d, ids)
    ensures d < |p.history.lines| && forall i :: 0 <= i < |ids| ==> p.world.sessions[ids[i]].key.Some?
    ensures var log := Schedule(true, p.world.docs[d], Fresh(KeysOf(p.world, ids), threads), choices).log;
      forall k :: 0 <= k < |log| && log[k].OpenReturned? ==>
        && log[k].ticket.at < k
        && log[k].result == if LockAcquired(log[k].ticket.session) in log[..log[k].ticket.at] then Err(Locked)
                            else Lookup(p.history.lines[d].contents, log[k].ticket.name)
  {
    hide Reachable, Schedule, Op.Open, Lookup;
    ReachableDocHasLine(port, p, d);
    forall i | 0 <= i < |ids| ensures p.world.sessions[ids[i]].key.Some? {
      UnlockedSessionHasKey(port, p, ids[i]);
    }
    var keys, doc := KeysOf(p.world, ids), p.world.docs[d];
    InterleavingIsSafe(keys, doc, threads, choices);
    forall i, name | 0 <= i < |ids| ensures Op.Open(doc, Some(keys[i]), name) == Lookup(p.history.lines[d].contents, name) {
      WholeRunRefinesPlainMap(port, p, ids[i], name);
    }
  }

  lemma ReachableDocHasLine(port: Port, p: Past, d: nat)
    requires Reachable(port, p) && d < |p.world.docs|
    ensures d < |p.history.lines|
  {
    ReachableHolds(port, p);
  }

  lemma UnlockedSessionHasKey(port: Port, p: Past, s: nat)
    requires Reachable(port, p) && s < |p.world.sessions| && s !in p.history.locked
    ensures p.world.sessions[s].doc < |p.world.docs| == |p.history.lines| && p.world.sessions[s].key.Some?
  {
    ReachableHolds(port, p);
    assert Runs.SessionHolds(p.history, p.world.docs, p.world.sessions[s], s in p.history.locked);
  }

  // ----- Building schedules of two threads over one session -----

  lemma NoChoices(guarded: bool, doc: Doc, start: State)
    ensures Schedule(guarded, doc, start, []) == start
  {
  }

  /** One more choice at the end of a schedule. */
  lemma OneMore(guarded: bool, doc: Doc, start: State, choices: seq<Choice>, c: Choice)
    ensures Schedule(guarded, doc, start, choices + [c]) == StepOf(guarded, doc, Schedule(guarded, doc, start, choices), c)
  {
    assert (choices + [c])[..|choices|] == choices;
  }

  /** Two threads, one session. */
  function Duo(my: SessionState, a: Pc, b: Pc, log: seq<Observation>): State {
    State([my], [a, b], log)
  }

  lemma FirstMoves(my: SessionState, a: Pc, b: Pc, log: seq<Observation>, m: Move)
    ensures Moved(Duo(my, a, b, log), 0, 0, m) == Duo(m.my, m.pc, b, log + m.events)
  {
  }

  lemma SecondMoves(my: SessionState, a: Pc, b: Pc, log: seq<Observation>, m: Move)
    ensures Moved(Duo(my, a, b, log), 1, 0, m) == Duo(m.my, a, m.pc, log + m.events)
  {
  }

  /** What is left of a key when its first n bytes have been overwritten. */
  function Wiped(key: Bytes, n: nat): (r: Bytes)
    requires n <= |key|
    ensures |r| == |key|
  {
    seq(n, _ => 0) + key[n..]
  }

  lemma OneMoreWiped(key: Bytes, n: nat)
    requires n < |key|
    ensures Wiped(key, n)[n := 0] == Wiped(key, n + 1)
  {
  }

  /** Thread 1 has the mutex for a Lock and has overwritten n bytes. */
  function Wiping(my: SessionState, a: Pc, log: seq<Observation>, n: nat): State
    requires n <= |my.buffer|
  {
    Duo(my.(mutex := Some(1), buffer := Wiped(my.buffer, n)), a, Zeroing(0, |log|, n), log + [LockAcquired(0)])
  }

  lemma LockBegins(guarded: bool, doc: Doc, my: SessionState, a: Pc, log: seq<Observation>)
    requires guarded ==> my.mutex == None
    ensures StepOf(guarded, doc, StepOf(guarded, doc, Duo(my, a, Idle, log), StartLock(1, 0)), Advance(1))
         == Wiping(my, a, log, 0)
  {
    SecondMoves(my, a, Idle, log, Move(my, Locking(0), []));
    assert log + [] == log;
    SecondMoves(my, a, Locking(0), log, MoveOf(guarded, doc, my, |log|, 1, Locking(0)));
    assert Wiped(my.buffer, 0) == my.buffer;
  }

  lemma LockWipesOne(guarded: bool, doc: Doc, my: SessionState, a: Pc, log: seq<Observation>, n: nat)
    requires my.hasKey && n < |my.buffer|
    ensures StepOf(guarded, doc, Wiping(my, a, log, n), Advance(1)) == Wiping(my, a, log, n + 1)
  {
    OneMoreWiped(my.buffer, n);
    var now, held := my.(mutex := Some(1), buffer := Wiped(my.buffer, n)), log + [LockAcquired(0)];
    SecondMoves(now, a, Zeroing(0, |log|, n), held, MoveOf(guarded, doc, now, |held|, 1, Zeroing(0, |log|, n)));
    assert held + [] == held;
  }

  /** Thread 1 takes the mutex for a Lock and overwrites the first n bytes. */
  lemma LockWipes(guarded: bool, doc: Doc, start: State, choices: seq<Choice>, my: SessionState, a: Pc,
                  log: seq<Observation>, n: nat) returns (more: seq<Choice>)
    requires Schedule(guarded, doc, start, choices) == Duo(my, a, Idle, log)
    requires my.hasKey && n <= |my.buffer| && (guarded ==> my.mutex == None)
    ensures Schedule(guarded, doc, start, more) == Wiping(my, a, log, n)
  {
    hide Schedule, StepOf, Wiping, Duo;
    LockBegins(guarded, doc, my, a, log);
    OneMore(guarded, doc, start, choices, StartLock(1, 0));
    OneMore(guarded, doc, start, choices + [StartLock(1, 0)], Advance(1));
    more := choices + [StartLock(1, 0)] + [Advance(1)];
    for i := 0 to n
      invariant Schedule(guarded, doc, start, more) == Wiping(my, a, log, i)
    {
      LockWipesOne(guarded, doc, my, a, log, i);
      OneMore(guarded, doc, start, more, Advance(1));
      more := more + [Advance(1)];
    }
  }

  function FirstTicket(entry: SealedSecret): Ticket {
    Ticket(0, entry.name, 0, 1)
  }

  /** Where thread 0 stands after i steps of opening a stored secret. */
  function Reading(dataKey: Bytes, entry: SealedSecret, i: nat): State {
    var log := [OpenStarted(0, entry.name)];
    if i == 0 then Duo(SessionState(None, true, dataKey), Opening(0, entry.name, 0), Idle, log)
    else
      Duo(SessionState(Some(0), true, dataKey),
          if i == 1 then Holding(FirstTicket(entry)) else if i == 2 then HasKey(FirstTicket(entry))
          else Found(FirstTicket(entry), entry),
          Idle, log + [OpenAcquired(0, 0)])
  }

  lemma ReaderStarts(guarded: bool, doc: Doc, dataKey: Bytes, entry: SealedSecret)
    ensures StepOf(guarded, doc, Fresh([dataKey], 2), StartOpen(0, 0, entry.name)) == Reading(dataKey, entry, 0)
  {
    var my := SessionState(None, true, dataKey);
    assert Fresh([dataKey], 2) == Duo(my, Idle, Idle, []);
    FirstMoves(my, Idle, Idle, [], Move(my, Opening(0, entry.name, 0), [OpenStarted(0, entry.name)]));
  }

  lemma ReaderGoesOn(guarded: bool, doc: Doc, dataKey: Bytes, entry: SealedSecret, i: nat)
    requires FindSecret(doc.secrets, entry.name) == Some(entry) && i < 3
    ensures StepOf(guarded, doc, Reading(dataKey, entry, i), Advance(0)) == Reading(dataKey, entry, i + 1)
  {
    var st := Reading(dataKey, entry, i);
    FirstMoves(st.sessions[0], st.threads[0], Idle, st.log,
               MoveOf(guarded, doc, st.sessions[0], |st.log|, 0, st.threads[0]));
    assert st.log + [] == st.log;
  }

  /** Thread 0 opens a stored secret as far as the lookup. */
  lemma ReaderFinds(guarded: bool, doc: Doc, dataKey: Bytes, entry: SealedSecret) returns (choices: seq<Choice>)
    requires FindSecret(doc.secrets, entry.name) == Some(entry)
    ensures Schedule(guarded, doc, Fresh([dataKey], 2), choices) == Reading(dataKey, entry, 3)
  {
    hide Schedule, StepOf, Reading;
    var start := Fresh([dataKey], 2);
    NoChoices(guarded, doc, start);
    ReaderStarts(guarded, doc, dataKey, entry);
    OneMore(guarded, doc, start, [], StartOpen(0, 0, entry.name));
    choices := [] + [StartOpen(0, 0, entry.name)];
    for i := 0 to 3
      invariant Schedule(guarded, doc, start, choices) == Reading(dataKey, entry, i)
    {
      ReaderGoesOn(guarded, doc, dataKey, entry, i);
      OneMore(guarded, doc, start, choices, Advance(0));
      choices := choices + [Advance(0)];
    }
  }

  // ----- Returning late -----

  function AfterReading(dataKey: Bytes, entry: SealedSecret): seq<Observation> {
    [OpenStarted(0, entry.name), OpenAcquired(0, 0), Decrypted(0, dataKey)]
  }

  /** The reader decrypts and gives the mutex back, but its caller has not resumed. */
  lemma ReaderLeaves(doc: Doc, dataKey: Bytes, entry: SealedSecret)
    requires FindSecret(doc.secrets, entry.name) == Some(entry)
    ensures StepOf(true, doc, StepOf(true, doc, Reading(dataKey, entry, 3), Advance(0)), Advance(0))
         == Duo(SessionState(None, true, dataKey), Leaving(FirstTicket(entry), Op.Open(doc, Some(dataKey), entry.name)),
                Idle, AfterReading(dataKey, entry))
  {
    hide OpenSecret;
    var my, log := SessionState(Some(0), true, dataKey), [OpenStarted(0, entry.name), OpenAcquired(0, 0)];
    var found := Found(FirstTicket(entry), entry);
    assert Reading(dataKey, entry, 3) == Duo(my, found, Idle, log);
    FirstMoves(my, found, Idle, log, MoveOf(true, doc, my, |log|, 0, found));
    assert log + [Decrypted(0, dataKey)] == AfterReading(dataKey, entry);
    var returning := Returning(FirstTicket(entry), OpenSecret(doc.header, dataKey, entry));
    FirstMoves(my, returning, Idle, AfterReading(dataKey, entry), MoveOf(true, doc, my, 3, 0, returning));
    assert AfterReading(dataKey, entry) + [] == AfterReading(dataKey, entry);
  }

  /** Four steps finish a Lock that has overwritten everything. */
  lemma LockFinishes(doc: Doc, my: SessionState, a: Pc, log: seq<Observation>)
    ensures var b := Advance(1);
      var two := StepOf(true, doc, StepOf(true, doc, Wiping(my, a, log, |my.buffer|), b), b);
      exists end :: StepOf(true, doc, StepOf(true, doc, two, b), b)
        == Duo(end, a, Idle, log + [LockAcquired(0)] + [LockReturned(0, |log|)])
  {
    var at, held := |log|, log + [LockAcquired(0)];
    var now := my.(mutex := Some(1), buffer := Wiped(my.buffer, |my.buffer|));
    assert held + [] == held;
    SecondMoves(now, a, Zeroing(0, at, |my.buffer|), held, MoveOf(true, doc, now, |held|, 1, Zeroing(0, at, |my.buffer|)));
    SecondMoves(now, a, Nilling(0, at), held, MoveOf(true, doc, now, |held|, 1, Nilling(0, at)));
    var off := now.(hasKey := false);
    SecondMoves(off, a, Unlocking(0, at), held, MoveOf(true, doc, off, |held|, 1, Unlocking(0, at)));
    var free := off.(mutex := None);
    SecondMoves(free, a, LockLeaving(0, at), held, MoveOf(true, doc, free, |held|, 1, LockLeaving(0, at)));
  }

  lemma LeavingReturns(doc: Doc, my: SessionState, t: Ticket, result: Result<Bytes>, log: seq<Observation>)
    requires t.session == 0
    ensures StepOf(true, doc, Duo(my, Leaving(t, result), Idle, log), Advance(0)).log == log + [OpenReturned(t, result)]
  {
  }

  /** An Open that got the mutex first may still hand its plaintext to the caller after a Lock has returned: the
      mutex is given back before the caller resumes. */
  lemma ReturnsMayOvertake(dataKey: Bytes, doc: Doc, entry: SealedSecret) returns (choices: seq<Choice>, i: nat, k: nat)
    requires FindSecret(doc.secrets, entry.name) == Some(entry)
    ensures var log := Schedule(true, doc, Fresh([dataKey], 2), choices).log;
      && i < k < |log| && log[i].LockReturned? && log[i].session == 0
      && log[k] == OpenReturned(Ticket(0, entry.name, 0, 1), Op.Open(doc, Some(dataKey), entry.name))
  {
    hide Schedule, StepOf, Wiping, Reading, Duo, Op.Open, Fresh;
    var start, a, b := Fresh([dataKey], 2), Advance(0), Advance(1);
    var my, log := SessionState(None, true, dataKey), AfterReading(dataKey, entry);
    var ticket, result := FirstTicket(entry), Op.Open(doc, Some(dataKey), entry.name);
    choices := ReaderFinds(true, doc, dataKey, entry);
    ReaderLeaves(doc, dataKey, entry);
    OneMore(true, doc, start, choices, a);
    OneMore(true, doc, start, choices + [a], a);
    choices := LockWipes(true, doc, start, choices + [a] + [a], my, Leaving(ticket, result), log, |dataKey|);
    LockFinishes(doc, my, Leaving(ticket, result), log);
    OneMore(true, doc, start, choices, b);
    OneMore(true, doc, start, choices + [b], b);
    OneMore(true, doc, start, choices + [b] + [b], b);
    OneMore(true, doc, start, choices + [b] + [b] + [b], b);
    choices := choices + [b] + [b] + [b] + [b];
    var locked := log + [LockAcquired(0)] + [LockReturned(0, |log|)];
    var end :| Schedule(true, doc, start, choices) == Duo(end, Leaving(ticket, result), Idle, locked);
    LeavingReturns(doc, end, ticket, result, locked);
    OneMore(true, doc, start, choices, a);
    choices := choices + [a];
    i, k := |log| + 1, |log| + 2;
  }

  // ----- Why the mutex is there -----

  /** The document really stores this secret under this key. */
  ghost predicate Stores(dataKey: Bytes, doc: Doc, entry: SealedSecret) {
    && |dataKey| == DATA_KEY_LEN && |entry.nonce| == NONCE_LEN
    && FindSecret(doc.secrets, entry.name) == Some(entry)
    && entry.ciphertext.Box? && entry.ciphertext.key == Raw(dataKey)
  }

  /** Without the mutex, a stored secret can come back as a decryption failure instead of ErrLocked: a reader fetches
      the key slice, a Lock wipes it as far as a byte that was not zero, and then the reader decrypts. */
  lemma MutexIsNecessary(dataKey: Bytes, doc: Doc, entry: SealedSecret) returns (choices: seq<Choice>)
    requires Stores(dataKey, doc, entry) && exists i :: 0 <= i < |dataKey| && dataKey[i] != 0
    ensures OpenReturned(Ticket(0, entry.name, 0, 1), Err(AuthenticationFailed))
         in Schedule(false, doc, Fresh([dataKey], 2), choices).log
  {
    hide Schedule, StepOf, Wiping, Fresh, OpenSecret;
    var start, a := Fresh([dataKey], 2), Advance(0);
    var my, log := SessionState(Some(0), true, dataKey), [OpenStarted(0, entry.name), OpenAcquired(0, 0)];
    var i :| 0 <= i < |dataKey| && dataKey[i] != 0;
    choices := ReaderFinds(false, doc, dataKey, entry);
    choices := LockWipes(false, doc, start, choices, my, Found(FirstTicket(entry), entry), log, i + 1);
    assert Wiped(dataKey, i + 1)[i] != dataKey[i];
    ReaderFails(doc, my, entry, log, i + 1);
    OneMore(false, doc, start, choices, a);
    OneMore(false, doc, start, choices + [a], a);
    OneMore(false, doc, start, choices + [a] + [a], a);
    choices := choices + [a] + [a] + [a];
  }

  lemma ReaderFails(doc: Doc, my: SessionState, entry: SealedSecret, log: seq<Observation>, n: nat)
    requires |my.buffer| == DATA_KEY_LEN && |entry.nonce| == NONCE_LEN && n <= |my.buffer|
    requires entry.ciphertext.Box? && entry.ciphertext.key != Raw(Wiped(my.buffer, n))
    ensures var a := Advance(0);
      OpenReturned(Ticket(0, entry.name, 0, 1), Err(AuthenticationFailed))
        in StepOf(false, doc, StepOf(false, doc, StepOf(false, doc, Wiping(my, Found(FirstTicket(entry), entry), log, n),
                                                        a), a), a).log
  {
    var now, held, t := my.(mutex := Some(1), buffer := Wiped(my.buffer, n)), log + [LockAcquired(0)], FirstTicket(entry);
    var b, failed := Zeroing(0, |log|, n), Err(AuthenticationFailed);
    assert OpenSecret(doc.header, now.buffer, entry) == failed;
    FirstMoves(now, Found(t, entry), b, held, MoveOf(false, doc, now, |held|, 0, Found(t, entry)));
    var l := held + [Decrypted(0, now.buffer)];
    FirstMoves(now, Returning(t, failed), b, l, MoveOf(false, doc, now, |l|, 0, Returning(t, failed)));
    assert l + [] == l;
    var free := now.(mutex := None);
    FirstMoves(free, Leaving(t, failed), b, l, MoveOf(false, doc, free, |l|, 0, Leaving(t, failed)));
  }
}
