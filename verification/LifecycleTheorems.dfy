/** What every run of the connection guarantees to those around it. */
module LifecycleTheorems {
  import opened Wrappers
  import opened Lifecycle
  import opened LifecycleInvariant
  import opened LifecycleSafety

  // ---- Single owner ----

  /** At most one reader acts, it is the connection's own, and only its socket can be open. */
  lemma SingleOwner(states: seq<State>, events: seq<Event>, i: nat)
    requires IsRun(states, events) && i < |states|
    ensures forall r | 0 <= r < |states[i].readers| :: Live(states[i], r) ==> states[i].messageLoopTask == Some(r)
    ensures forall x | x in states[i].open :: states[i].socket == Some(x)
    ensures states[i].open != {} && !InClose(states[i]) ==>
              states[i].messageLoopTask.Some? && Live(states[i], states[i].messageLoopTask.value)
  {
    RunKeepsInv(states, events, i);
    var s := states[i];
    if s.open != {} {
      var x :| x in s.open;
      assert s.socket == Some(x);
    }
  }

  /**
   A readiness guard closes nothing but the socket it was started beside, and none
   whose full status has arrived.
   */
  lemma GuardClosesItsOwnSocket(states: seq<State>, events: seq<Event>, i: nat)
    requires IsRun(states, events) && i < |events| && events[i].InGuard?
    ensures var s, g := states[i], events[i].g;
            && g < |s.guards|
            && s.open - {s.guards[g].beside} <= states[i + 1].open <= s.open
            && (events[i].guard.GuardFired? ==> s.socket == Some(s.guards[g].beside) && !s.flags.initialized)
  {
    RunKeepsInv(states, events, i);
  }

  // ---- A deliberate close wins ----

  /** Nothing runs, nothing is open, nobody is signed in. */
  ghost predicate Quiet(s: State) {
    && s.stopped
    && s.socket.None? && s.messageLoopTask.None? && s.open == {}
    && !s.flags.authenticated
    && !AttemptUnfinished(s)
    && (forall r | 0 <= r < |s.readers| :: !Live(s, r))
    && (forall g | 0 <= g < |s.guards| :: !LiveGuard(s, g))
  }

  /** A close whose task has ended left nothing behind. */
  lemma CloseLeavesQuiet(states: seq<State>, events: seq<Event>, i: nat)
    requires IsRun(states, events) && i < |states|
    requires states[i].stopped && !ClosingUnfinished(states[i])
    ensures Quiet(states[i])
  {
    RunKeepsInv(states, events, i);
  }

  /** Only open() clears the stop flag, and only close() sets it, counting every call. */
  lemma StopFlagMoves(s: State, e: Event)
    requires Enabled(s, e)
    ensures e != Caller(OpenCalled) && e != Caller(CloseCalled) ==> Apply(s, e).stopped == s.stopped
    ensures Apply(s, e).closeCount == s.closeCount + (if e == Caller(CloseCalled) then 1 else 0)
    ensures e == Caller(CloseCalled) ==> Apply(s, e).stopped
    ensures Apply(s, e).config == s.config
  {
  }

  lemma QuietClosing(s: State, e: ClosingEvent)
    requires Quiet(s) && Inv(s) && ClosingEnabled(s, e) && Inv(ClosingApply(s, e))
    ensures Quiet(ClosingApply(s, e))
  {
  }

  lemma QuietStays(s: State, e: Event)
    requires Inv(s) && Quiet(s) && Enabled(s, e) && e != Caller(OpenCalled)
    ensures Quiet(Apply(s, e))
  {
    StepKeepsInv(s, e);
    match e
    case InClosing(c) => QuietClosing(s, c);
    case InReader(r, x) => QuietReader(s, r, x);
    case Caller(_) =>
    case InAttempt(_) =>
    case InGuard(_, _) =>
    case PeerClosed(_) =>
  }

  lemma QuietReader(s: State, r: nat, e: ReaderEvent)
    requires Quiet(s) && ReaderEnabled(s, r, e) && Inv(ReaderApply(s, r, e))
    ensures Quiet(ReaderApply(s, r, e))
  {
    assert !Live(s, r);
  }

  /**
   After a close that has ended, resumes, cancelled callers, left-over tasks and further
   closes change nothing: until open() is called again, nothing runs and nothing is open.
   */
  lemma {:induction false} CloseWins(states: seq<State>, events: seq<Event>, i: nat, j: nat)
    requires IsRun(states, events) && i <= j < |states|
    requires states[i].stopped && !ClosingUnfinished(states[i])
    requires forall k | i <= k < j :: events[k] != Caller(OpenCalled)
    ensures Quiet(states[j])
  {
    if i == j {
      CloseLeavesQuiet(states, events, i);
    } else {
      CloseWins(states, events, i, j - 1);
      RunKeepsInv(states, events, j - 1);
      QuietStays(states[j - 1], events[j - 1]);
    }
  }

  // ---- What open() returning means ----

  predicate AttemptEndsNow(s: State, e: Event, ok: bool)
    requires Enabled(s, e)
  {
    AttemptUnfinished(s) && Apply(s, e).attempt.pc == AttemptEnded(ok)
  }

  /**
   An attempt ends normally only on a connection whose full status is in, that was not refused, and
   whose reader is live -- unless the frames have ended already and there is to be no reconnect. If
   it is signed in, that reader reads the current socket.
   */
  lemma OpenReturnsReady(states: seq<State>, events: seq<Event>, i: nat)
    requires IsRun(states, events) && i < |events| && AttemptEndsNow(states[i], events[i], true)
    ensures var t := states[i + 1];
            && t.flags.initialized && t.flags.fatal.Usable?
            && t.messageLoopTask.Some? && t.messageLoopTask.value < |t.readers|
            && (Live(t, t.messageLoopTask.value) <==>
                  t.config.autoReconnect || !t.readers[t.messageLoopTask.value].pc.ReaderEnded?)
            && (t.flags.authenticated ==>
                  && t.readers[t.messageLoopTask.value].pc.Reading?
                  && t.socket == Some(t.readers[t.messageLoopTask.value].pc.sock))
  {
    RunKeepsInv(states, events, i);
    RunKeepsInv(states, events, i + 1);
    OkEnds(states[i], events[i]);
  }

  /** Where nobody owns the reader, none may act, and nothing is open or signed in unless a close is under way. */
  lemma UnownedMeansNobodyReads(states: seq<State>, events: seq<Event>, i: nat)
    requires IsRun(states, events) && i < |states| && !ReaderOwned(states[i], false)
    ensures var s := states[i];
            && (forall r | 0 <= r < |s.readers| :: !Live(s, r))
            && !AttemptUnfinished(s)
            && (!InClose(s) ==> s.socket.None? && s.open == {} && !s.flags.authenticated)
  {
    RunKeepsInv(states, events, i);
  }

  lemma OkEnds(s: State, e: Event)
    requires Inv(s) && Enabled(s, e) && AttemptEndsNow(s, e, true)
    ensures || (e == InAttempt(Started) && s.flags.authenticated && s.flags.initialized)
            || (e == InAttempt(Woken) && s.flags.fatal.Usable? && !s.attempt.pc.AwaitAuth?)
    ensures Apply(s, e).flags == s.flags && Apply(s, e).messageLoopTask == s.messageLoopTask
  {
  }
}
