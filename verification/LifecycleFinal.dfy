/** A final refusal ends the retries: who waits to reconnect, and what follows a refusal for good. */
module LifecycleFinal {
  import opened Wrappers
  import opened Lifecycle
  import opened LifecycleInvariant
  import opened LifecycleSafety

  // ---- Who waits to reconnect ----

  /** The own reader waits for its next reconnect only where there is to be one. */
  predicate WaitsToRetry(s: State) {
    s.messageLoopTask.Some? && s.messageLoopTask.value < |s.readers|
    && s.readers[s.messageLoopTask.value].pc.Backoff? ==>
      s.config.autoReconnect && !s.flags.fatal.Final?
  }

  /** Where the frames are over, the loop is left exactly if reconnecting is off or the charger refused for good. */
  lemma FramesOver(s: State, r: nat, e: ReaderEvent)
    requires ReaderEnabled(s, r, e) && (e.FramesEnded? || e.FrameDropped?)
    ensures var t := ReaderApply(s, r, e);
            && t.readers[r].pc == (if !s.config.autoReconnect || s.flags.fatal.Final?
                                   then ReaderEnded(LeftLoop) else Backoff(s.reconnectDelay))
            && !t.flags.authenticated && t.flags.fatal == s.flags.fatal
  {
  }

  /** A step that reads on goes to the socket there is, or, without one, over to the end of the frames. */
  lemma ReadsOn(s: State, r: nat, e: ReaderEvent)
    requires ReaderEnabled(s, r, e) && (e.ReaderStarted? || e.Reconnected? || e.ReconnectRaised?)
    ensures var t := ReaderApply(s, r, e);
            && t.socket == (if e.Reconnected? then Some(s.sockets) else s.socket)
            && t.readers[r].pc == (if t.socket.Some? then Reading(t.socket.value)
                                   else if !s.config.autoReconnect || s.flags.fatal.Final? then ReaderEnded(LeftLoop)
                                   else Backoff(t.reconnectDelay))
            && t.flags.fatal == s.flags.fatal
  {
  }

  /** The reader stays as it is, is given up, or is a new one. */
  predicate ReaderLeft(s: State, t: State) {
    || t.messageLoopTask.None?
    || (t.messageLoopTask == s.messageLoopTask && t.readers == s.readers)
    || (t.messageLoopTask == Some(|s.readers|) && t.readers == s.readers + [Reader(ReaderCreated, false)])
  }

  lemma ReaderLeftKeepsWaits(s: State, t: State)
    requires WaitsToRetry(s) && ReaderLeft(s, t) && t.config == s.config
    requires t.flags.fatal == s.flags.fatal || t.flags.fatal.Usable?
    ensures WaitsToRetry(t)
  {
  }

  lemma ClosedLeaves(s: State, site: CloseSite, failing: bool)
    requires s.messageLoopTask.None?
    ensures var t := AttemptClosed(s, site, failing);
            && ReaderLeft(s, t) && (t.flags.fatal == s.flags.fatal || t.flags.fatal.Usable?)
  {
  }

  lemma ClosesSocketLeaves(s: State, site: CloseSite, failing: bool)
    requires s.messageLoopTask.None?
    ensures var t := AttemptClosesSocket(s, site, failing);
            && ReaderLeft(s, t) && (t.flags.fatal == s.flags.fatal || t.flags.fatal.Usable?)
  {
    ClosedLeaves(s, site, failing);
  }

  lemma ClosesLeaves(s: State, site: CloseSite)
    ensures var t := AttemptCloses(s, site);
            && ReaderLeft(s, t) && (t.flags.fatal == s.flags.fatal || t.flags.fatal.Usable?)
  {
    if s.messageLoopTask.None? { ClosesSocketLeaves(StopReader(s), site, false); }
  }

  lemma BeginsLeaves(s: State)
    ensures var t := AttemptBegins(s);
            && ReaderLeft(s, t) && (t.flags.fatal == s.flags.fatal || t.flags.fatal.Usable?)
  {
    ClosesLeaves(s.(attempt := s.attempt.(hadReader := s.messageLoopTask.Some?)), Replacing);
  }

  lemma CancelledLeaves(s: State)
    requires AttemptInClose(s) ==> s.messageLoopTask.None?
    ensures var t := AttemptCancelled(s);
            && ReaderLeft(s, t) && (t.flags.fatal == s.flags.fatal || t.flags.fatal.Usable?)
  {
    var s1 := s.(attempt := s.attempt.(cancelled := false));
    match s.attempt.pc
    case StoppingReader(site, _) => ClosesSocketLeaves(s1, site, true);
    case ClosingSocket(site, t, _) => ClosedLeaves(SocketGone(s1, t), site, true);
    case Finishing => ClosesLeaves(s1, CleaningUp);
    case AwaitAuth => ClosesLeaves(s1, CleaningUp);
    case AwaitInit => ClosesLeaves(s1, CleaningUp);
    case _ =>
  }

  lemma AttemptLeaves(s: State, e: AttemptEvent)
    requires AttemptEnabled(s, e) && (AttemptInClose(s) ==> s.messageLoopTask.None?)
    ensures var t := AttemptApply(s, e);
            && ReaderLeft(s, t) && (t.flags.fatal == s.flags.fatal || t.flags.fatal.Usable?)
  {
    var pc := s.attempt.pc;
    match e
    case Started => BeginsLeaves(s);
    case Woken => ClosesLeaves(s, CleaningUp);
    case TimedOut => ClosesLeaves(s, CleaningUp);
    case SawReaderEnd => ClosesSocketLeaves(s, pc.site, false);
    case SawSocketClosed(raised) => ClosedLeaves(SocketGone(s, pc.target), pc.site, pc.failing || raised);
    case SawCancel => CancelledLeaves(s);
    case _ =>
  }

  lemma ClosingLeaves(s: State, e: ClosingEvent)
    requires ClosingEnabled(s, e)
    ensures var t := ClosingApply(s, e);
            && t.flags.fatal == s.flags.fatal && t.attempt.pc == s.attempt.pc && t.sockets == s.sockets
            && (t.messageLoopTask.None? || (t.messageLoopTask == s.messageLoopTask && t.readers == s.readers))
  {
    if e.SawAttemptEnd? || e.ClosingStarted? { ClosingClosesLeaves(s); }
  }

  lemma ClosingClosesLeaves(s: State)
    ensures var t := ClosingCloses(s);
            && t.flags.fatal == s.flags.fatal && t.attempt.pc == s.attempt.pc && t.sockets == s.sockets
            && t.messageLoopTask.None?
  {
  }

  lemma ReaderKeepsWaits(s: State, r: nat, e: ReaderEvent)
    requires ReaderEnabled(s, r, e) && OneReader(s) && WaitsToRetry(s)
    ensures WaitsToRetry(ReaderApply(s, r, e))
  {
  }

  lemma OthersKeepWaits(s: State, e: Event)
    requires Enabled(s, e) && WaitsToRetry(s) && (e.Caller? || e.InGuard? || e.PeerClosed?)
    ensures WaitsToRetry(Apply(s, e))
  {
  }

  lemma StepKeepsWaits(s: State, e: Event)
    requires Inv(s) && Enabled(s, e) && WaitsToRetry(s)
    ensures WaitsToRetry(Apply(s, e))
  {
    match e
    case InAttempt(a) => AttemptLeaves(s, a); ReaderLeftKeepsWaits(s, Apply(s, e));
    case InReader(r, x) => ReaderKeepsWaits(s, r, x);
    case InClosing(c) => ClosingLeaves(s, c); ReaderLeftKeepsWaits(s, Apply(s, e));
    case _ => OthersKeepWaits(s, e);
  }

  /** In every reachable state a reader that waits to reconnect may do so, and was not refused for good. */
  lemma {:induction false} NobodyRetriesARefusal(states: seq<State>, events: seq<Event>, i: nat)
    requires IsRun(states, events) && i < |states|
    ensures WaitsToRetry(states[i])
  {
    if i > 0 {
      NobodyRetriesARefusal(states, events, i - 1);
      RunKeepsInv(states, events, i - 1);
      StepKeepsWaits(states[i - 1], events[i - 1]);
    }
  }

  // ---- After a final refusal ----

  /** The attempt is on its way to a fresh socket. */
  predicate Replaces(pc: AttemptPc) {
    pc.Connecting? || ((pc.StoppingReader? || pc.ClosingSocket?) && pc.site.Replacing?)
  }

  /** Refused for good, and nobody is about to connect again. */
  predicate GivenUp(s: State) {
    && s.flags.fatal.Final? && !Replaces(s.attempt.pc)
    && (s.messageLoopTask.Some? && s.messageLoopTask.value < |s.readers| ==>
          var pc := s.readers[s.messageLoopTask.value].pc; !pc.Backoff? && !pc.Reconnecting?)
  }

  /** A reader's next try: its wait is over, or its reconnect came to an end. */
  predicate IsTry(e: Event) {
    && e.InReader?
    && (e.reader.BackoffOver? || e.reader.Reconnected? || e.reader.ReconnectRaised? || e.reader.ReconnectCrashed?)
  }

  lemma RefusalGivesUp(s: State, r: nat)
    requires Inv(s) && ReaderEnabled(s, r, FrameHandled(Refused(true)))
    ensures GivenUp(ReaderApply(s, r, FrameHandled(Refused(true))))
    ensures ReaderApply(s, r, FrameHandled(Refused(true))).sockets == s.sockets
  {
    assert s.messageLoopTask == Some(r);
  }

  lemma FailureStaysGivenUp(s: State)
    requires GivenUp(s)
    ensures GivenUp(AttemptFails(s))
  {
  }

  lemma ClosedStaysGivenUp(s: State, failing: bool)
    requires GivenUp(s)
    ensures GivenUp(AttemptClosed(s, CleaningUp, failing))
  {
    FailureStaysGivenUp(FinishClose(s));
  }

  lemma ClosesSocketStaysGivenUp(s: State, failing: bool)
    requires GivenUp(s)
    ensures GivenUp(AttemptClosesSocket(s, CleaningUp, failing))
  {
    ClosedStaysGivenUp(s, failing);
  }

  lemma ClosesStaysGivenUp(s: State)
    requires GivenUp(s)
    ensures GivenUp(AttemptCloses(s, CleaningUp))
  {
    ClosesSocketStaysGivenUp(StopReader(s), false);
  }

  lemma CancelledStaysGivenUp(s: State)
    requires GivenUp(s)
    ensures GivenUp(AttemptCancelled(s))
  {
    var s1 := s.(attempt := s.attempt.(cancelled := false));
    match s.attempt.pc
    case StoppingReader(_, _) => ClosesSocketStaysGivenUp(s1, true);
    case ClosingSocket(_, t, _) => ClosedStaysGivenUp(SocketGone(s1, t), true);
    case Finishing => ClosesStaysGivenUp(s1);
    case AwaitAuth => ClosesStaysGivenUp(s1);
    case AwaitInit => ClosesStaysGivenUp(s1);
    case _ =>
  }

  lemma AttemptStaysGivenUp(s: State, e: AttemptEvent)
    requires AttemptEnabled(s, e) && GivenUp(s) && !e.Started?
    ensures GivenUp(AttemptApply(s, e)) && AttemptApply(s, e).sockets == s.sockets
  {
    var pc := s.attempt.pc;
    match e
    case Woken => ClosesStaysGivenUp(s);
    case TimedOut => ClosesStaysGivenUp(s);
    case SawReaderEnd => ClosesSocketStaysGivenUp(s, false);
    case SawSocketClosed(raised) => ClosedStaysGivenUp(SocketGone(s, pc.target), pc.failing || raised);
    case SawCancel => CancelledStaysGivenUp(s);
    case Forgotten =>
  }

  lemma ReaderStaysGivenUp(s: State, r: nat, e: ReaderEvent)
    requires OneReader(s) && ReaderEnabled(s, r, e) && GivenUp(s)
    ensures GivenUp(ReaderApply(s, r, e)) && ReaderApply(s, r, e).sockets == s.sockets && !IsTry(InReader(r, e))
  {
    assert Live(s, r) ==> s.messageLoopTask == Some(r);
  }

  lemma ClosingStaysGivenUp(s: State, e: ClosingEvent)
    requires ClosingEnabled(s, e) && GivenUp(s)
    ensures GivenUp(ClosingApply(s, e)) && ClosingApply(s, e).sockets == s.sockets
  {
    ClosingLeaves(s, e);
  }

  lemma OthersStayGivenUp(s: State, e: Event)
    requires Enabled(s, e) && GivenUp(s) && (e.Caller? || e.InGuard? || e.PeerClosed?)
    ensures GivenUp(Apply(s, e)) && Apply(s, e).sockets == s.sockets && !IsTry(e)
  {
  }

  lemma StaysGivenUp(s: State, e: Event)
    requires OneReader(s) && Enabled(s, e) && GivenUp(s) && e != InAttempt(Started)
    ensures GivenUp(Apply(s, e)) && Apply(s, e).sockets == s.sockets && !IsTry(e)
  {
    match e
    case InAttempt(a) => AttemptStaysGivenUp(s, a);
    case InReader(r, x) => ReaderStaysGivenUp(s, r, x);
    case InClosing(c) => ClosingStaysGivenUp(s, c);
    case _ => OthersStayGivenUp(s, e);
  }

  /**
   From a frame that refuses for good until the next attempt starts, the refusal stands, nobody waits
   to reconnect, and nobody is handed a socket.
   */
  lemma {:induction false} FinalRefusalStands(states: seq<State>, events: seq<Event>, i: nat, j: nat)
    requires IsRun(states, events) && i < j < |states|
    requires events[i].InReader? && events[i].reader == FrameHandled(Refused(true))
    requires forall k | i < k < j :: events[k] != InAttempt(Started)
    ensures GivenUp(states[j]) && states[j].sockets == states[i].sockets
    ensures forall k | i < k < j :: !IsTry(events[k])
  {
    if i == j - 1 {
      RunKeepsInv(states, events, i);
      RefusalGivesUp(states[i], events[i].r);
    } else {
      FinalRefusalStands(states, events, i, j - 1);
      RunKeepsInv(states, events, j - 1);
      StaysGivenUp(states[j - 1], events[j - 1]);
    }
  }
}
