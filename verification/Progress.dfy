/** The other half of Interleaving: no schedule gets stuck, every call that has begun can be brought to its end, and a
    Lock that has ended has left nothing of the key. */
module Progress {
  import opened Common
  import opened Document
  import opened Interleaving

  // ----- How far a call still has to go -----

  /** Steps a thread still takes, given how long its session's buffer is. */
  function Rank(length: nat, pc: Pc): nat {
    match pc
    case Idle => 0
    case Leaving(_, _) => 1
    case Returning(_, _) => 2
    case Found(_, _) => 3
    case HasKey(_) => 4
    case Holding(_) => 5
    case Opening(_, _, _) => 6
    case LockLeaving(_, _) => 1
    case Unlocking(_, _) => 2
    case Nilling(_, _) => 3
    case Zeroing(_, _, i) => if i < length then 4 + length - i else 4
    case Locking(_) => 5 + length
  }

  predicate Blocked(my: SessionState, pc: Pc) {
    (pc.Opening? || pc.Locking?) && my.mutex.Some?
  }

  lemma MoveDescends(doc: Doc, my: SessionState, now: nat, t: nat, pc: Pc)
    requires !pc.Idle? && !Blocked(my, pc)
    ensures var m := MoveOf(true, doc, my, now, t, pc);
      Rank(|m.my.buffer|, m.pc) < Rank(|my.buffer|, pc) && |m.my.buffer| == |my.buffer|
      && (m.pc.Idle? || SessionOf(m.pc) == SessionOf(pc))
  {
  }

  function RankOf(st: State, t: nat): nat
    requires t < |st.threads|
  {
    var s := SessionOf(st.threads[t]);
    if s.Some? && s.value < |st.sessions| then Rank(|st.sessions[s.value].buffer|, st.threads[t]) else 0
  }

  function Total(st: State, n: nat): nat
    requires n <= |st.threads|
  {
    if n == 0 then 0 else Total(st, n - 1) + RankOf(st, n - 1)
  }

  lemma {:induction false} TotalFalls(st: State, st': State, n: nat, t: nat)
    requires n <= |st.threads| == |st'.threads| && t < |st.threads|
    requires forall u :: 0 <= u < |st.threads| && u != t ==> RankOf(st', u) == RankOf(st, u)
    requires RankOf(st', t) < RankOf(st, t)
    ensures if t < n then Total(st', n) < Total(st, n) else Total(st', n) == Total(st, n)
  {
    if n == 0 {
    } else {
      TotalFalls(st, st', n - 1, t);
    }
  }

  /** Whoever waits, waits for a thread that does not. */
  lemma SomeoneMoves(keys: seq<Bytes>, doc: Doc, st: State, t: nat) returns (u: nat, s: nat)
    requires StateHolds(keys, doc, st) && t < |st.threads| && !st.threads[t].Idle?
    ensures u < |st.threads| && s < |st.sessions| && SessionOf(st.threads[u]) == Some(s)
    ensures !Blocked(st.sessions[s], st.threads[u])
  {
    hide LogHolds, ThreadHolds, InsideHolds;
    s := SessionOf(st.threads[t]).value;
    u := if Blocked(st.sessions[s], st.threads[t]) then st.sessions[s].mutex.value else t;
  }

  lemma AdvanceDescends(doc: Doc, st: State, u: nat, s: nat)
    requires u < |st.threads| && s < |st.sessions| && SessionOf(st.threads[u]) == Some(s)
    requires !Blocked(st.sessions[s], st.threads[u])
    ensures var next := StepOf(true, doc, st, Advance(u));
      |next.threads| == |st.threads| && Total(next, |next.threads|) < Total(st, |st.threads|)
  {
    hide MoveOf, Rank;
    MoveDescends(doc, st.sessions[s], |st.log|, u, st.threads[u]);
    var next := StepOf(true, doc, st, Advance(u));
    NothingToDo(|st.sessions[s].buffer|);
    TotalFalls(st, next, |st.threads|, u);
  }

  lemma NothingToDo(length: nat)
    ensures Rank(length, Idle) == 0
  {
  }

  predicate AllIdle(st: State) {
    forall t :: 0 <= t < |st.threads| ==> st.threads[t].Idle?
  }

  lemma {:induction false} Finish(keys: seq<Bytes>, doc: Doc, start: State, choices: seq<Choice>)
    returns (more: seq<Choice>)
    requires StateHolds(keys, doc, start)
    ensures forall i :: 0 <= i < |more| ==> more[i].Advance?
    ensures AllIdle(Schedule(true, doc, start, choices + more))
    decreases var st := Schedule(true, doc, start, choices); Total(st, |st.threads|)
  {
    hide StateHolds, Schedule, StepOf, MoveOf;
    var st := Schedule(true, doc, start, choices);
    ScheduleKeeps(keys, doc, start, choices);
    if AllIdle(st) {
      more := [];
      assert choices + [] == choices;
    } else {
      var t :| 0 <= t < |st.threads| && !st.threads[t].Idle?;
      var u, s := SomeoneMoves(keys, doc, st, t);
      AdvanceDescends(doc, st, u, s);
      OneMore(true, doc, start, choices, Advance(u));
      var rest := Finish(keys, doc, start, choices + [Advance(u)]);
      more := [Advance(u)] + rest;
      assert choices + more == choices + [Advance(u)] + rest;
    }
  }

  // ----- No call is lost -----

  /** The place in the log a thread has yet to answer for. */
  function CallOf(pc: Pc): Option<nat> {
    match pc
    case Opening(_, _, start) => Some(start)
    case Holding(t) => Some(t.start)
    case HasKey(t) => Some(t.start)
    case Found(t, _) => Some(t.start)
    case Returning(t, _) => Some(t.start)
    case Leaving(t, _) => Some(t.start)
    case Zeroing(_, at, _) => Some(at)
    case Nilling(_, at) => Some(at)
    case Unlocking(_, at) => Some(at)
    case LockLeaving(_, at) => Some(at)
    case _ => None
  }

  predicate Begins(e: Observation) {
    e.OpenStarted? || e.LockAcquired?
  }

  predicate Ends(e: Observation, i: nat) {
    (e.OpenReturned? && e.ticket.start == i) || (e.LockReturned? && e.at == i)
  }

  ghost predicate OpenReturns(log: seq<Observation>, i: nat) {
    exists j :: i < j < |log| && log[j].OpenReturned? && log[j].ticket.start == i
  }

  ghost predicate LockReturns(log: seq<Observation>, i: nat) {
    exists j :: i < j < |log| && log[j].LockReturned? && log[j].at == i
  }

  predicate Ended(log: seq<Observation>, i: nat) {
    exists j :: i < j < |log| && Ends(log[j], i)
  }

  predicate UnderWay(threads: seq<Pc>, i: nat) {
    exists t :: 0 <= t < |threads| && CallOf(threads[t]) == Some(i)
  }

  ghost predicate Accounted(st: State) {
    forall i :: 0 <= i < |st.log| && Begins(st.log[i]) ==> UnderWay(st.threads, i) || Ended(st.log, i)
  }

  lemma MoveAccounts(doc: Doc, my: SessionState, now: nat, t: nat, pc: Pc)
    ensures var m := MoveOf(true, doc, my, now, t, pc);
      && (CallOf(pc).Some? ==> CallOf(m.pc) == CallOf(pc) || (|m.events| == 1 && Ends(m.events[0], CallOf(pc).value)))
      && (|m.events| == 1 && Begins(m.events[0]) ==> CallOf(m.pc) == Some(now))
  {
  }

  lemma MovedAccounts(st: State, t: nat, s: nat, m: Move)
    requires Accounted(st) && t < |st.threads| && s < |st.sessions| && |m.events| <= 1
    requires CallOf(st.threads[t]).Some? ==>
      CallOf(m.pc) == CallOf(st.threads[t]) || (|m.events| == 1 && Ends(m.events[0], CallOf(st.threads[t]).value))
    requires |m.events| == 1 && Begins(m.events[0]) ==> CallOf(m.pc) == Some(|st.log|)
    ensures Accounted(Moved(st, t, s, m))
  {
    hide Begins, Ends, CallOf;
    var next := Moved(st, t, s, m);
    forall i | 0 <= i < |next.log| && Begins(next.log[i]) ensures UnderWay(next.threads, i) || Ended(next.log, i) {
      if i == |st.log| {
        assert CallOf(next.threads[t]) == Some(i);
      } else if Ended(st.log, i) {
        var j :| i < j < |st.log| && Ends(st.log[j], i);
        assert Ends(next.log[j], i);
      } else {
        assert next.log[i] == st.log[i];
        var u :| 0 <= u < |st.threads| && CallOf(st.threads[u]) == Some(i);
        if u != t {
          assert CallOf(next.threads[u]) == Some(i);
        } else if CallOf(m.pc) == Some(i) {
          assert CallOf(next.threads[t]) == Some(i);
        } else {
          assert Ends(next.log[|st.log|], i);
        }
      }
    }
  }

  lemma StepAccounts(doc: Doc, st: State, c: Choice)
    requires Accounted(st)
    ensures Accounted(StepOf(true, doc, st, c))
  {
    hide Accounted, MoveOf;
    var t := c.thread;
    if t < |st.threads| {
      var pc := st.threads[t];
      match c
      case StartOpen(_, s, name) =>
        if s < |st.sessions| && pc.Idle? {
          MovedAccounts(st, t, s, Move(st.sessions[s], Opening(s, name, |st.log|), [OpenStarted(s, name)]));
        }
      case StartLock(_, s) =>
        if s < |st.sessions| && pc.Idle? {
          MovedAccounts(st, t, s, Move(st.sessions[s], Locking(s), []));
        }
      case Advance(_) =>
        if SessionOf(pc).Some? && SessionOf(pc).value < |st.sessions| {
          var s := SessionOf(pc).value;
          MoveAccounts(doc, st.sessions[s], |st.log|, t, pc);
          MovedAccounts(st, t, s, MoveOf(true, doc, st.sessions[s], |st.log|, t, pc));
        }
    }
  }

  lemma {:induction false} ScheduleAccounts(doc: Doc, st: State, choices: seq<Choice>)
    requires Accounted(st)
    ensures Accounted(Schedule(true, doc, st, choices))
  {
    hide Accounted, StepOf;
    if choices == [] {
    } else {
      ScheduleAccounts(doc, st, choices[..|choices| - 1]);
      StepAccounts(doc, Schedule(true, doc, st, choices[..|choices| - 1]), choices[|choices| - 1]);
    }
  }

  /** No schedule is a dead end: by giving the threads more steps, and starting nothing new, every Open that was started
      returns and every Lock that got the mutex returns. What they return is InterleavingIsSafe. */
  lemma EveryCallCanFinish(keys: seq<Bytes>, doc: Doc, threads: nat, choices: seq<Choice>) returns (more: seq<Choice>)
    ensures forall i :: 0 <= i < |more| ==> more[i].Advance?
    ensures var st := Schedule(true, doc, Fresh(keys, threads), choices + more);
      && AllIdle(st)
      && (forall i :: 0 <= i < |st.log| && st.log[i].OpenStarted? ==> OpenReturns(st.log, i))
      && (forall i :: 0 <= i < |st.log| && st.log[i].LockAcquired? ==> LockReturns(st.log, i))
  {
    hide Schedule;
    more := Finish(keys, doc, Fresh(keys, threads), choices);
    ScheduleAccounts(doc, Fresh(keys, threads), choices + more);
    InterleavingIsSafe(keys, doc, threads, choices + more);
    var st := Schedule(true, doc, Fresh(keys, threads), choices + more);
    forall i | 0 <= i < |st.log| && Begins(st.log[i]) ensures Ended(st.log, i) {
      assert !UnderWay(st.threads, i);
    }
  }

  // ----- What a Lock leaves behind -----

  predicate Blank(buffer: Bytes) {
    forall j :: 0 <= j < |buffer| ==> buffer[j] == 0
  }

  /** What a thread has already wiped of its session's buffer. */
  predicate Swept(my: SessionState, pc: Pc) {
    match pc
    case Zeroing(_, _, i) => my.hasKey ==> i <= |my.buffer| && Blank(my.buffer[..i])
    case Nilling(_, _) => Blank(my.buffer)
    case Unlocking(_, _) => !my.hasKey
    case LockLeaving(_, _) => !my.hasKey
    case _ => true
  }

  /** Nothing but wiping ever happens to a key. */
  predicate Emptier(my: SessionState, my': SessionState) {
    && |my'.buffer| == |my.buffer| && (my'.hasKey ==> my.hasKey)
    && forall j :: 0 <= j < |my.buffer| && my.buffer[j] == 0 ==> my'.buffer[j] == 0
  }

  ghost predicate AllSwept(st: State) {
    && (forall s :: 0 <= s < |st.sessions| ==> st.sessions[s].hasKey || Blank(st.sessions[s].buffer))
    && (forall t :: 0 <= t < |st.threads| && SessionOf(st.threads[t]).Some? ==>
          && SessionOf(st.threads[t]).value < |st.sessions|
          && Swept(st.sessions[SessionOf(st.threads[t]).value], st.threads[t]))
    && (forall k :: 0 <= k < |st.log| && st.log[k].LockReturned? ==>
          st.log[k].session < |st.sessions| && !st.sessions[st.log[k].session].hasKey)
  }

  lemma MoveSweeps(doc: Doc, my: SessionState, now: nat, t: nat, pc: Pc)
    requires Swept(my, pc) && SessionOf(pc).Some? && (my.hasKey || Blank(my.buffer))
    ensures var m := MoveOf(true, doc, my, now, t, pc);
      && Emptier(my, m.my) && (m.my.hasKey || Blank(m.my.buffer)) && Swept(m.my, m.pc)
      && (m.pc.Idle? || SessionOf(m.pc) == SessionOf(pc))
      && (|m.events| == 1 && m.events[0].LockReturned? ==>
            SessionOf(pc) == Some(m.events[0].session) && !m.my.hasKey)
  {
    if pc.Zeroing? && my.hasKey && pc.next < |my.buffer| {
      assert my.buffer[pc.next := 0][..pc.next + 1] == my.buffer[..pc.next] + [0];
    } else if pc.Zeroing? && my.hasKey {
      assert my.buffer[..pc.next] == my.buffer;
    }
  }

  lemma StaysSwept(my: SessionState, my': SessionState, pc: Pc)
    requires Swept(my, pc) && Emptier(my, my')
    ensures Swept(my', pc)
  {
    if pc.Zeroing? && my'.hasKey {
      forall j | 0 <= j < pc.next ensures my'.buffer[j] == 0 {
        assert my.buffer[..pc.next][j] == 0;
      }
    }
  }

  lemma MovedSweeps(st: State, t: nat, s: nat, m: Move)
    requires AllSwept(st) && t < |st.threads| && s < |st.sessions| && |m.events| <= 1
    requires Emptier(st.sessions[s], m.my) && (m.my.hasKey || Blank(m.my.buffer))
    requires m.pc.Idle? || (SessionOf(m.pc) == Some(s) && Swept(m.my, m.pc))
    requires |m.events| == 1 && m.events[0].LockReturned? ==> m.events[0].session == s && !m.my.hasKey
    ensures AllSwept(Moved(st, t, s, m))
  {
    hide Blank, Swept;
    var next := Moved(st, t, s, m);
    forall u | 0 <= u < |next.threads| && SessionOf(next.threads[u]).Some?
      ensures SessionOf(next.threads[u]).value < |next.sessions|
      ensures Swept(next.sessions[SessionOf(next.threads[u]).value], next.threads[u])
    {
      if u != t && SessionOf(st.threads[u]) == Some(s) {
        StaysSwept(st.sessions[s], m.my, st.threads[u]);
      }
    }
  }

  lemma StepSweeps(doc: Doc, st: State, c: Choice)
    requires AllSwept(st)
    ensures AllSwept(StepOf(true, doc, st, c))
  {
    hide MoveOf, Moved;
    var t := c.thread;
    if t < |st.threads| {
      var pc := st.threads[t];
      match c
      case StartOpen(_, s, name) =>
        if s < |st.sessions| && pc.Idle? {
          MovedSweeps(st, t, s, Move(st.sessions[s], Opening(s, name, |st.log|), [OpenStarted(s, name)]));
        }
      case StartLock(_, s) =>
        if s < |st.sessions| && pc.Idle? {
          MovedSweeps(st, t, s, Move(st.sessions[s], Locking(s), []));
        }
      case Advance(_) =>
        if SessionOf(pc).Some? && SessionOf(pc).value < |st.sessions| {
          var s := SessionOf(pc).value;
          MoveSweeps(doc, st.sessions[s], |st.log|, t, pc);
          MovedSweeps(st, t, s, MoveOf(true, doc, st.sessions[s], |st.log|, t, pc));
        }
    }
  }

  lemma {:induction false} ScheduleSweeps(doc: Doc, st: State, choices: seq<Choice>)
    requires AllSwept(st)
    ensures AllSwept(Schedule(true, doc, st, choices))
  {
    hide AllSwept, StepOf;
    if choices == [] {
    } else {
      ScheduleSweeps(doc, st, choices[..|choices| - 1]);
      StepSweeps(doc, Schedule(true, doc, st, choices[..|choices| - 1]), choices[|choices| - 1]);
    }
  }

  /** In every schedule, once a Lock has returned its session holds no key, and every byte of the buffer that held it is
      zero and stays so, whoever else reads or locks meanwhile. */
  lemma LockLeavesNothing(keys: seq<Bytes>, doc: Doc, threads: nat, choices: seq<Choice>)
    ensures var st := Schedule(true, doc, Fresh(keys, threads), choices);
      forall k :: 0 <= k < |st.log| && st.log[k].LockReturned? ==>
        && st.log[k].session < |st.sessions|
        && var my := st.sessions[st.log[k].session];
           !my.hasKey && forall j :: 0 <= j < |my.buffer| ==> my.buffer[j] == 0
  {
    hide Schedule;
    ScheduleSweeps(doc, Fresh(keys, threads), choices);
  }
}
