/** The wait for a rebooting charger among the other tasks of the connection. */
module FirmwareWaitTheorems {
  import opened Wrappers
  import opened Lifecycle
  import opened LifecycleSafety
  import opened LifecycleTheorems
  import opened LifecycleRecovery
  import opened LifecycleProgress
  import opened LifecycleRuns
  import opened FirmwareWait

  lemma CloseCountGrows(states: seq<State>, events: seq<Event>, i: nat, j: nat)
    requires IsRun(states, events) && i <= j < |states|
    ensures states[i].closeCount <= states[j].closeCount
    decreases j - i
  {
    if i < j {
      StopFlagMoves(states[i], events[i]);
      CloseCountGrows(states, events, i + 1, j);
    }
  }

  /** While nobody closes, a connection that is not stopped stays so. */
  lemma {:induction false} NobodyCloses(states: seq<State>, events: seq<Event>, i: nat, j: nat)
    requires IsRun(states, events) && i <= j < |states| && states[j].closeCount == states[i].closeCount
    ensures forall k | i <= k < j :: events[k] != Caller(CloseCalled)
    ensures !states[i].stopped ==> !states[j].stopped
  {
    if i < j {
      CloseCountGrows(states, events, i, j - 1);
      CloseCountGrows(states, events, j - 1, j);
      NobodyCloses(states, events, i, j - 1);
      StopFlagMoves(states[j - 1], events[j - 1]);
    }
  }

  /** A connection that is up is being closed exactly if it is stopped. */
  lemma StoppedMeansClosing(states: seq<State>, events: seq<Event>, i: nat)
    requires IsRun(states, events) && i < |states| && states[i].flags.authenticated
    ensures states[i].stopped <==> ClosingUnfinished(states[i])
  {
    RunKeepsInv(states, events, i);
  }

  /**
   An install that began on a connection that is up, with no close under way, begins each attempt at
   once, in the very step that finds the close count unchanged -- and no close() came since it began.
   */
  lemma AttemptsFollowNoClose(states: seq<State>, events: seq<Event>, i: nat, j: nat)
    requires IsRun(states, events) && i <= j < |states|
    requires states[i].flags.authenticated && !ClosingUnfinished(states[i])
    requires states[j].closeCount == states[i].closeCount
    ensures Enabled(states[j], Caller(OpenCalled))
    ensures forall k | i <= k < j :: events[k] != Caller(CloseCalled)
  {
    StoppedMeansClosing(states, events, i);
    NobodyCloses(states, events, i, j);
    RunKeepsInv(states, events, j);
  }

  // ---- When a close was under way already ----

  /** An open() that waits for the close under way can start only when close() has been called again. */
  ghost predicate CanStartLate(s: State) {
    exists events: seq<Event> ::
      EndsTheClose(s, events) && After(s, events).Some? && After(s, events).value.closeCount > s.closeCount
  }

  /**
   In every reachable state: an attempt that finds the count unchanged can start after a later close()
   exactly if a close is under way. Otherwise it starts at once; but while one is, a second close() can
   join it, and when that close ends the waiting open() may start.
   */
  lemma StartsLateExactly(states: seq<State>, events: seq<Event>, i: nat)
    requires IsRun(states, events) && i < |states|
    ensures CanStartLate(states[i]) <==> ClosingUnfinished(states[i])
    ensures !ClosingUnfinished(states[i]) <==> Enabled(states[i], Caller(OpenCalled))
  {
    var s := states[i];
    RunStaysDoomed(states, events, i);
    if ClosingUnfinished(s) {
      var again := Apply(s, Caller(CloseCalled));
      StepKeepsInv(s, Caller(CloseCalled));
      DoomedStep(s, Caller(CloseCalled));
      var rest := CloseFinishes(again);
      var late := [Caller(CloseCalled)] + rest;
      assert late[1..] == rest;
      assert EndsTheClose(s, late) && After(s, late) == After(again, rest);
    }
  }

  const STATUS_IN: seq<Event> := [InReader(0, FrameHandled(FullStatus(false))), InAttempt(Woken)]

  /** Signed in with the full status; the opening attempt has only to end. */
  function Ready(c: Config): State {
    Running(c).(attempt := Attempt(AwaitInit, false, false))
  }

  lemma StatusComesIn(c: Config)
    ensures After(Authenticated(c), STATUS_IN) == Some(Ready(c))
  {
    var s := Authenticated(c);
    assert STATUS_IN[0..] == STATUS_IN;
    AfterOne(s, STATUS_IN, 0);
    s := Apply(s, STATUS_IN[0]);
    AfterOne(s, STATUS_IN, 1);
    assert STATUS_IN[2..] == [];
  }

  /**
   After close() was called the attempt ends, and the closing task's first step finds it not forgotten
   yet: that task waits on it for some turns of the loop, and meanwhile the install's command is answered.
   */
  const ANSWERED: seq<Event> :=
    [InAttempt(Woken), InClosing(ClosingStarted), InReader(0, FrameHandled(NoEffect)), InClosing(SawAttemptEnd),
     InReader(0, ReaderSawCancel)]

  /** The closing task waits on the attempt that has ended; the reader still reads. */
  function WaitingOnAttempt(c: Config): State {
    Running(c).(stopped := true, closeCount := 1, closing := AwaitAttempt)
  }

  /** The charger is gone; the wait looks, and its open() has to wait for the old close. */
  function LookingOn(c: Config): State {
    Running(c).(flags := Flags(Usable, false, true, false, false, true, true, true, true), stopped := true, closeCount := 1,
                messageLoopTask := None, closing := AwaitReader(0), readers := [Reader(ReaderEnded(Cancelled), true)])
  }

  lemma CloseWaitsOnAttempt(c: Config)
    ensures After(Apply(Ready(c), Caller(CloseCalled)), ANSWERED) == After(WaitingOnAttempt(c), ANSWERED[2..])
  {
    var s := Apply(Ready(c), Caller(CloseCalled));
    assert ANSWERED[0..] == ANSWERED;
    AfterOne(s, ANSWERED, 0);
    s := Apply(s, ANSWERED[0]);
    AfterOne(s, ANSWERED, 1);
  }

  lemma CommandIsAnswered(c: Config)
    ensures After(WaitingOnAttempt(c), ANSWERED[2..]) == Some(LookingOn(c))
  {
    var s := WaitingOnAttempt(c);
    AfterOne(s, ANSWERED, 2);
    s := Apply(s, ANSWERED[2]);
    AfterOne(s, ANSWERED, 3);
    s := Apply(s, ANSWERED[3]);
    assert s.readers == [Reader(Reading(0), true)];
    AfterOne(s, ANSWERED, 4);
    s := Apply(s, ANSWERED[4]);
    assert s.readers == [Reader(ReaderEnded(Cancelled), true)];
    assert ANSWERED[5..] == [];
  }

  const CLOSED_AGAIN: seq<Event> := [Caller(CloseCalled), InClosing(ClosingSawReaderEnd), InClosing(ClosingSawSocketClosed)]

  lemma ClosesAgain(c: Config) returns (late: State)
    ensures After(LookingOn(c), CLOSED_AGAIN) == Some(late)
    ensures Enabled(late, Caller(OpenCalled)) && late.closeCount == 2 && late.stopped
  {
    var s := LookingOn(c);
    assert CLOSED_AGAIN[0..] == CLOSED_AGAIN;
    AfterOne(s, CLOSED_AGAIN, 0);
    s := Apply(s, CLOSED_AGAIN[0]);
    AfterOne(s, CLOSED_AGAIN, 1);
    s := Apply(s, CLOSED_AGAIN[1]);
    AfterOne(s, CLOSED_AGAIN, 2);
    late := Apply(s, CLOSED_AGAIN[2]);
    assert CLOSED_AGAIN[3..] == [];
  }

  /**
   A whole install of that kind. close() is called when the status is in and the opening attempt is
   about to end; the install notes the count; its command is answered while the closing task waits on
   the ended attempt; the close signs the charger out, so the wait looks, finds the count unchanged, and
   has to wait for the close; close() is called again; and the attempt may start.
   */
  lemma AttemptCanFollowAClose(c: Config) returns (noted: State, late: State)
    ensures After(Initial(c), SIGN_IN[..5]) == Some(Authenticated(c))
    ensures After(Authenticated(c), STATUS_IN) == Some(Ready(c)) && noted == Apply(Ready(c), Caller(CloseCalled))
    ensures noted.flags.authenticated && After(noted, ANSWERED) == Some(LookingOn(c))
    ensures !LookingOn(c).flags.authenticated && LookingOn(c).closeCount == noted.closeCount
    ensures !Enabled(LookingOn(c), Caller(OpenCalled))
    ensures After(LookingOn(c), CLOSED_AGAIN) == Some(late)
    ensures Enabled(late, Caller(OpenCalled)) && late.closeCount == noted.closeCount + 1 && late.stopped
  {
    SignInBegins(c);
    StatusComesIn(c);
    noted := Apply(Ready(c), Caller(CloseCalled));
    CloseWaitsOnAttempt(c);
    CommandIsAnswered(c);
    late := ClosesAgain(c);
  }

  // ---- The loop among the other tasks ----

  /**
   The rounds of a wait as places in a run: round `k` looks at the state `looks(k)` and finds its close
   count. Every attempt the loop makes is then an open() that can start in that very state, and no
   close() came since the install noted the count.
   */
  lemma EveryAttemptFollowsNoClose(states: seq<State>, events: seq<Event>, i: nat, looks: nat -> nat,
                                   rounds: nat -> Round, starts: seq<real>)
    requires IsRun(states, events) && i < |states|
    requires states[i].flags.authenticated && !ClosingUnfinished(states[i])
    requires forall k: nat | k < |starts| :: i <= looks(k) < |states| && rounds(k).closeCount == states[looks(k)].closeCount
    requires forall k: nat | k < |starts| :: rounds(k).closeCount == states[i].closeCount
    ensures forall k: nat | k < |starts| :: Enabled(states[looks(k)], Caller(OpenCalled))
    ensures forall k: nat, m: nat | k < |starts| && i <= m < looks(k) :: events[m] != Caller(CloseCalled)
  {
    forall k: nat | k < |starts|
      ensures Enabled(states[looks(k)], Caller(OpenCalled))
      ensures forall m: nat | i <= m < looks(k) :: events[m] != Caller(CloseCalled)
    {
      AttemptsFollowNoClose(states, events, i, looks(k));
    }
  }

  /**
   However the wait failed -- unless somebody closed, or the charger refused for good -- its last
   step leaves an attempt elsewhere that is to start a reader, or a live reader, exactly unless that crashed.
   */
  lemma FailedWaitLeavesARetry(states: seq<State>, events: seq<Event>, i: nat, j: nat)
    requires IsRun(states, events) && i <= j < |events| && events[j] == Caller(ResumeCalled)
    requires !states[i].stopped && states[j].closeCount == states[i].closeCount
    requires states[j].config.autoReconnect && !states[j].flags.fatal.Final?
    ensures !states[j + 1].stopped && !states[j + 1].flags.fatal.Final?
    ensures AttemptUnfinished(states[j + 1]) || Recovering(states, events, j + 1)
  {
    NobodyCloses(states, events, i, j);
    if !AttemptUnfinished(states[j + 1]) { StoredReaderRecovers(states, events, j + 1); }
  }
}
