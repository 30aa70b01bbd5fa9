/** What a refusal does to the connection, and what it does not do to frames already received. */
module LifecycleRefusals {
  import opened Wrappers
  import opened Lifecycle
  import opened LifecycleInvariant
  import opened LifecycleSafety
  import opened LifecycleProgress
  import opened LifecycleRuns

  /** Refusal, sign-in and the events that mirror them agree in every state of every run. */
  lemma RefusalAndEventsAgree(states: seq<State>, events: seq<Event>, i: nat)
    requires IsRun(states, events) && i < |states|
    ensures var f := states[i].flags;
            && (!f.fatal.Usable? ==> !f.authenticated)
            && (f.disconnectedEvent <==> !f.authenticated)
            && (f.authEvent ==> f.authenticated || !f.fatal.Usable?)
            && (f.initEvent ==> f.initialized || !f.fatal.Usable?)
  {
    RunKeepsInv(states, events, i);
  }

  // ---- Frames a refused socket had already received ----

  predicate RetryRaised(e: Event) { e.InReader? && e.reader.ReconnectRaised? }

  lemma SpentFrame(s: State, r: nat, effect: FrameEffect, x: nat)
    requires OneReader(s) && Spent(s, x) && ReaderEnabled(s, r, FrameHandled(effect))
    ensures Spent(ReaderHandles(s, r, effect), x)
  {
  }

  lemma SpentReader(s: State, r: nat, e: ReaderEvent, x: nat)
    requires OneReader(s) && ReaderMatches(s) && Spent(s, x) && ReaderEnabled(s, r, e) && !e.ReconnectRaised?
    ensures Spent(ReaderApply(s, r, e), x)
  {
    match e
    case FrameHandled(effect) => SpentFrame(s, r, effect, x);
    case ReaderStarted =>
    case FrameDropped =>
    case RejectDone =>
    case FramesEnded =>
    case BackoffOver =>
    case Reconnected =>
    case ReconnectCrashed =>
    case ReaderSawCancel =>
  }

  /** An attempt that has a reader to stop leaves none stored. */
  lemma StopsReading(s: State, site: CloseSite)
    requires s.messageLoopTask.Some?
    ensures AttemptCloses(s, site).messageLoopTask.None?
  {
  }

  lemma SpentWithReader(s: State, e: AttemptEvent, x: nat)
    requires Inv(s) && Spent(s, x) && AttemptEnabled(s, e) && s.messageLoopTask.Some?
    ensures Spent(AttemptApply(s, e), x)
  {
    var s1 := s.(attempt := s.attempt.(hadReader := true));
    StopsReading(s1, Replacing);
    StopsReading(s, CleaningUp);
    StopsReading(s.(attempt := s.attempt.(cancelled := false)), CleaningUp);
  }

  lemma NothingToRead(s: State, e: AttemptEvent)
    requires Inv(s) && AttemptEnabled(s, e) && !e.GotSocketFor? && s.messageLoopTask.None?
    ensures var t := AttemptApply(s, e); t.messageLoopTask.None? || t.socket.None?
  {
  }

  lemma SpentAttempt(s: State, e: AttemptEvent, x: nat)
    requires Inv(s) && Spent(s, x) && AttemptEnabled(s, e)
    ensures Spent(AttemptApply(s, e), x)
  {
    if s.messageLoopTask.Some? {
      SpentWithReader(s, e, x);
    } else if !e.GotSocketFor? {
      NothingToRead(s, e);
    }
  }

  lemma SpentClosing(s: State, e: ClosingEvent, x: nat)
    requires Inv(s) && Spent(s, x) && ClosingEnabled(s, e)
    ensures Spent(ClosingApply(s, e), x)
  {
  }

  lemma SpentCall(s: State, e: CallerEvent, x: nat)
    requires PhasesExclude(s) && Spent(s, x) && CallerEnabled(s, e)
    ensures Spent(CallerApply(s, e), x)
  {
  }

  lemma SpentStep(s: State, e: Event, x: nat)
    requires Inv(s) && Spent(s, x) && Enabled(s, e) && !RetryRaised(e)
    ensures Spent(Apply(s, e), x)
  {
    match e
    case Caller(c) => SpentCall(s, c, x);
    case InAttempt(a) => SpentAttempt(s, a, x);
    case InClosing(c) => SpentClosing(s, c, x);
    case InReader(r, y) => SpentReader(s, r, y, x);
    case InGuard(_, _) =>
    case PeerClosed(_) =>
  }

  lemma {:induction false} SpentUntilRetry(states: seq<State>, events: seq<Event>, i: nat, j: nat, x: nat)
    requires IsRun(states, events) && i <= j < |states| && Spent(states[i], x)
    requires forall k | i <= k < j :: !RetryRaised(events[k])
    ensures Spent(states[j], x)
  {
    if i < j {
      SpentUntilRetry(states, events, i, j - 1, x);
      RunKeepsInv(states, events, j - 1);
      SpentStep(states[j - 1], events[j - 1], x);
    }
  }

  predicate Refuses(s: State, e: Event, x: nat) {
    e.InReader? && e.reader.FrameHandled? && e.reader.effect.Refused? &&
    e.r < |s.readers| && s.readers[e.r].pc == Reading(x)
  }

  predicate Handles(s: State, e: Event, x: nat) {
    e.InReader? && e.reader.FrameHandled? && e.r < |s.readers| && s.readers[e.r].pc == Reading(x)
  }

  /**
   Once a frame of a socket led to a refusal, no other frame of that socket is handled -- unless
   a reconnect raised in between: begin() has cleared the refusal by then, and the loop reads on
   from the socket it still has.
   */
  lemma RefusedSocketIsNotReadAgain(states: seq<State>, events: seq<Event>, i: nat, j: nat, x: nat)
    requires IsRun(states, events) && i < j < |events|
    requires Refuses(states[i], events[i], x) && Handles(states[j], events[j], x)
    ensures exists k :: i < k < j && RetryRaised(events[k])
  {
    RunKeepsInv(states, events, i);
    RunKeepsInv(states, events, i + 1);
    RunKeepsInv(states, events, j);
    assert Spent(states[i + 1], x);
    if forall k | i < k < j :: !RetryRaised(events[k]) {
      SpentUntilRetry(states, events, i + 1, j, x);
      assert false;
    }
  }

  /** A reconnect that raises always has that effect: the loop reads on from the socket it still has, refused or not. */
  lemma RaisedRetryReadsOn(states: seq<State>, events: seq<Event>, i: nat, x: nat, effect: FrameEffect)
    requires IsRun(states, events) && i < |events| && RetryRaised(events[i]) && states[i].socket == Some(x)
    ensures var e := InReader(events[i].r, FrameHandled(effect));
            Enabled(states[i + 1], e) && Handles(states[i + 1], e, x)
  {
    RunKeepsInv(states, events, i);
    assert states[i].messageLoopTask == Some(events[i].r);
  }

  // ---- The exception does occur ----

  const REFUSAL: seq<Event> :=
    [InReader(0, FrameHandled(Refused(false))), InReader(0, RejectDone), InReader(0, FrameDropped),
     InReader(0, BackoffOver), InReader(0, ReconnectRaised)]

  /** Refused, and the socket closed. */
  function Dropped(c: Config): State {
    Running(c).(flags := Flags(Transient, false, true, false, true, true, true, true, true), open := {})
  }

  lemma IsRefused(c: Config)
    ensures After(Running(c), REFUSAL) == After(Dropped(c), REFUSAL[2..])
  {
    var s := Running(c);
    assert REFUSAL[0..] == REFUSAL;
    AfterOne(s, REFUSAL, 0);
    s := Apply(s, REFUSAL[0]);
    AfterOne(s, REFUSAL, 1);
    s := Apply(s, REFUSAL[1]);
    assert s.open == {} && s.readers == [Reader(Reading(0), false)];
  }

  /** The reconnect raised: the loop is back at the frames of the socket it still has. */
  function ReadingOn(c: Config): State {
    Dropped(c).(flags := Flags(Usable, false, false, false, false, true, false, true, true),
                reconnectDelay := Min(c.delayMin * 2.0, c.delayMax))
  }

  /** In its backoff, about to retry. */
  function Waiting(c: Config): State {
    Dropped(c).(readers := [Reader(Backoff(c.delayMin), false)])
  }

  lemma GivesUpReading(c: Config)
    requires c.autoReconnect
    ensures After(Dropped(c), REFUSAL[2..]) == After(Waiting(c), REFUSAL[3..])
  {
    var s := Dropped(c);
    AfterOne(s, REFUSAL, 2);
    s := Apply(s, REFUSAL[2]);
    assert s.readers == [Reader(Backoff(c.delayMin), false)];
  }

  lemma RetriesInVain(c: Config)
    ensures After(Waiting(c), REFUSAL[3..]) == Some(ReadingOn(c))
  {
    var s := Waiting(c);
    AfterOne(s, REFUSAL, 3);
    s := Apply(s, REFUSAL[3]);
    assert s.readers == [Reader(Reconnecting, false)];
    AfterOne(s, REFUSAL, 4);
    s := Apply(s, REFUSAL[4]);
    assert s.readers == [Reader(Reading(0), false)];
    assert REFUSAL[5..] == [];
  }

  lemma ReadsOn(c: Config)
    requires c.autoReconnect
    ensures After(Dropped(c), REFUSAL[2..]) == Some(ReadingOn(c))
  {
    GivesUpReading(c);
    RetriesInVain(c);
  }

  /**
   A frame unusable for the handshake refuses the connection; when the first reconnect after it
   raises, the frames the refused socket still holds are handled after all.
   */
  lemma RefusedSocketCanBeReadAgain(c: Config) returns (t: State)
    requires c.autoReconnect
    ensures After(Initial(c), SIGN_IN) == Some(Running(c)) && Refuses(Running(c), REFUSAL[0], 0)
    ensures After(Running(c), REFUSAL) == Some(t) && t.open == {}
    ensures forall effect ::
              Enabled(t, InReader(0, FrameHandled(effect))) && Handles(t, InReader(0, FrameHandled(effect)), 0)
  {
    SignsIn(c);
    IsRefused(c);
    ReadsOn(c);
    t := ReadingOn(c);
  }
}
