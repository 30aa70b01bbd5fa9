/** The invariant holds in every state of every run, one block at a time. */
module LifecycleSafety {
  import opened Lifecycle
  import opened LifecycleInvariant

  // ---- Steps any state survives ----

  lemma SocketGoneKeeps(s: State, sock: nat)
    requires Inv(s)
    ensures Inv(SocketGone(s, sock))
  {
  }

  lemma SignOutKeeps(s: State)
    requires Inv(s)
    ensures Inv(SignOut(s))
  {
  }

  lemma LingeringReaderKeeps(s: State, r: nat, pc: ReaderPc)
    requires Inv(s) && r < |s.readers| && s.readers[r].cancelled
    ensures Inv(SetReader(s, r, pc))
  {
  }

  lemma GuardEndedKeeps(s: State, g: nat)
    requires Inv(s) && g < |s.guards|
    ensures Inv(SetGuard(s, g, GuardEnded))
  {
  }

  // ---- Callers ----

  lemma CallOpenKeeps(s: State)
    requires Inv(s) && !ClosingUnfinished(s)
    ensures Inv(CallOpen(s))
  {
  }

  lemma CallCloseKeeps(s: State)
    requires Inv(s)
    ensures Inv(CallClose(s))
  {
  }

  lemma ResumeKeeps(s: State)
    requires Inv(s)
    ensures Inv(ResumeReconnecting(s, false))
  {
  }

  lemma CallerKeeps(s: State, e: CallerEvent)
    requires Inv(s) && CallerEnabled(s, e)
    ensures Inv(CallerApply(s, e))
  {
    match e
    case OpenCalled => CallOpenKeeps(s);
    case CloseCalled => CallCloseKeeps(s);
    case ResumeCalled => ResumeKeeps(s);
    case CallerCancelled =>
  }

  // ---- The opening attempt ----

  lemma CloseEndsWithFailure(s: State)
    requires Inv(s) && AttemptInClose(s) && s.open == {}
    ensures Inv(AttemptFails(FinishClose(s)))
  {
  }

  lemma CloseEndsWithConnect(s: State)
    requires Inv(s) && AttemptInClose(s) && s.open == {}
    ensures Inv(AttemptConnects(FinishClose(s)))
  {
  }

  lemma AttemptClosedKeeps(s: State, site: CloseSite, failing: bool)
    requires Inv(s) && AttemptInClose(s) && s.open == {}
    ensures Inv(AttemptClosed(s, site, failing))
  {
    CloseEndsWithFailure(s);
    CloseEndsWithConnect(s);
  }

  lemma AttemptClosesSocketKeeps(s: State, site: CloseSite, failing: bool)
    requires Inv(s) && s.attempt.pc.StoppingReader?
    ensures Inv(AttemptClosesSocket(s, site, failing))
  {
    if s.socket.None? { AttemptClosedKeeps(s, site, failing); }
  }

  lemma AttemptClosesKeeps(s: State, site: CloseSite)
    requires Inv(s) && AttemptUnfinished(s) && s.messageLoopTask.Some?
    ensures Inv(AttemptCloses(s, site))
  {
  }

  lemma AttemptFailsKeeps(s: State)
    requires Inv(s) && s.attempt.pc.Connecting?
    ensures Inv(AttemptFails(s))
  {
  }

  lemma AttemptConnectsKeeps(s: State)
    requires Inv(s) && s.attempt.pc.AttemptCreated? && s.messageLoopTask.None?
    ensures Inv(AttemptConnects(s))
  {
  }

  lemma AttemptBeginsKeeps(s: State)
    requires Inv(s) && s.attempt.pc.AttemptCreated?
    ensures Inv(AttemptBegins(s))
  {
    var s1 := s.(attempt := s.attempt.(hadReader := s.messageLoopTask.Some?));
    if !s.flags.authenticated {
      if s.messageLoopTask.Some? { AttemptClosesKeeps(s1, Replacing); } else { AttemptConnectsKeeps(s1); }
    }
  }

  lemma AttemptConnectedKeeps(s: State)
    requires Inv(s) && s.attempt.pc.Connecting?
    ensures Inv(AttemptConnected(s))
  {
  }

  lemma NextWaitKeeps(s: State)
    requires Inv(s) && s.attempt.pc.AwaitAuth? && s.flags.fatal.Usable?
    ensures Inv(AttemptAwaitsInit(s, AwaitInit))
  {
  }

  lemma AttemptDoneKeeps(s: State)
    requires Inv(s) && AttemptWaits(s)
    ensures Inv(SetAttempt(s, AttemptEnded(true)))
  {
  }

  lemma AttemptRunsKeeps(s: State)
    requires Inv(s) && AttemptWaits(s)
    ensures Inv(AttemptRuns(s))
  {
    if !s.flags.fatal.Usable? {
      AttemptClosesKeeps(s, CleaningUp);
    } else if s.attempt.pc.AwaitAuth? {
      NextWaitKeeps(s);
    } else {
      AttemptDoneKeeps(s);
    }
  }

  lemma ForgetCancelKeeps(s: State)
    requires Inv(s)
    ensures Inv(s.(attempt := s.attempt.(cancelled := false)))
  {
  }

  lemma NeverBegunKeeps(s: State)
    requires Inv(s) && s.attempt.pc.AttemptCreated?
    ensures Inv(SetAttempt(s, AttemptEnded(false)))
  {
  }

  lemma AttemptCancelledKeeps(s: State)
    requires Inv(s) && AttemptUnfinished(s)
    ensures Inv(AttemptCancelled(s))
  {
    var s1 := s.(attempt := s.attempt.(cancelled := false));
    ForgetCancelKeeps(s);
    match s.attempt.pc
    case StoppingReader(site, _) => AttemptClosesSocketKeeps(s1, site, true);
    case ClosingSocket(site, t, _) => AttemptSocketClosedKeeps(s1, true);
    case Connecting => AttemptFailsKeeps(s1);
    case AttemptCreated => NeverBegunKeeps(s1);
    case _ => AttemptClosesKeeps(s1, CleaningUp);
  }

  lemma AttemptSocketClosedKeeps(s: State, failing: bool)
    requires Inv(s) && s.attempt.pc.ClosingSocket?
    ensures Inv(AttemptClosed(SocketGone(s, s.attempt.pc.target), s.attempt.pc.site, failing))
  {
    SocketGoneKeeps(s, s.attempt.pc.target);
    AttemptClosedKeeps(SocketGone(s, s.attempt.pc.target), s.attempt.pc.site, failing);
  }

  lemma AttemptKeeps(s: State, e: AttemptEvent)
    requires Inv(s) && AttemptEnabled(s, e)
    ensures Inv(AttemptApply(s, e))
  {
    match e
    case Started => AttemptBeginsKeeps(s);
    case GotSocketFor => AttemptConnectedKeeps(s);
    case ConnectRaised => AttemptFailsKeeps(s);
    case Woken => AttemptRunsKeeps(s);
    case TimedOut => AttemptClosesKeeps(s, CleaningUp);
    case SawReaderEnd => AttemptClosesSocketKeeps(s, s.attempt.pc.site, false);
    case SawSocketClosed(raised) => AttemptSocketClosedKeeps(s, s.attempt.pc.failing || raised);
    case SawCancel => AttemptCancelledKeeps(s);
    case Forgotten => AttemptForgottenKeeps(s);
  }

  lemma AttemptForgottenKeeps(s: State)
    requires Inv(s) && s.attempt.pc.AttemptEnded?
    ensures Inv(s.(attempt := IDLE))
  {
  }

  // ---- The closing task ----

  lemma NothingToCloseKeeps(s: State)
    requires Inv(s) && !AttemptUnfinished(s) && s.messageLoopTask.None? && !InClose(s)
    ensures Inv(ClosingClosed(StopReader(s)))
  {
  }

  lemma ClosingClosesKeeps(s: State)
    requires Inv(s) && (s.closing.ClosingCreated? || s.closing.AwaitAttempt?) && !AttemptUnfinished(s)
    ensures Inv(ClosingCloses(s))
  {
    if s.messageLoopTask.None? { NothingToCloseKeeps(s); }
  }

  lemma ClosingBeginsKeeps(s: State)
    requires Inv(s) && s.closing.ClosingCreated?
    ensures Inv(ClosingBegins(s))
  {
    if s.attempt.pc.NoAttempt? { ClosingClosesKeeps(s); }
  }

  lemma ClosingClosesSocketKeeps(s: State)
    requires Inv(s) && s.closing.AwaitReader?
    ensures Inv(ClosingClosesSocket(s))
  {
  }

  lemma ClosingSocketClosedKeeps(s: State)
    requires Inv(s) && s.closing.AwaitSocket?
    ensures Inv(ClosingClosed(SocketGone(s, s.closing.target)))
  {
  }

  lemma ClosingForgottenKeeps(s: State)
    requires Inv(s) && s.closing.ClosingEnded?
    ensures Inv(s.(closing := NoClosing))
  {
  }

  lemma ClosingKeeps(s: State, e: ClosingEvent)
    requires Inv(s) && ClosingEnabled(s, e)
    ensures Inv(ClosingApply(s, e))
  {
    match e
    case ClosingStarted => ClosingBeginsKeeps(s);
    case SawAttemptEnd => ClosingClosesKeeps(s);
    case ClosingSawReaderEnd => ClosingClosesSocketKeeps(s);
    case ClosingSawSocketClosed => ClosingSocketClosedKeeps(s);
    case ClosingForgotten => ClosingForgottenKeeps(s);
  }

  // ---- The reader ----

  lemma AfterFramesKeeps(s: State, r: nat)
    requires Inv(s) && Live(s, r) && s.open == {}
    ensures Inv(AfterFrames(s, r))
  {
  }

  lemma ReadFramesKeeps(s: State, r: nat)
    requires Inv(s) && Live(s, r) && (s.readers[r].pc.ReaderCreated? || s.readers[r].pc.Reconnecting?)
    ensures Inv(ReadFrames(s, r))
  {
    if s.socket.None? { AfterFramesKeeps(s, r); }
  }

  lemma ReaderBeginsKeeps(s: State, r: nat)
    requires Inv(s) && Live(s, r) && s.readers[r].pc.ReaderCreated?
    ensures Inv(ReaderBegins(s, r))
  {
    ReadFramesKeeps(s.(reconnectDelay := s.config.delayMin), r);
  }

  lemma StreamingKeeps(s: State, partial: bool)
    requires Inv(s)
    ensures Inv(s.(flags := s.flags.(streaming := partial)))
  {
  }

  lemma MarkInitializedKeeps(s: State, r: nat)
    requires Inv(s) && Live(s, r) && s.readers[r].pc.Reading?
    ensures Inv(MarkInitialized(s))
  {
  }

  lemma RefusedKeeps(s: State, r: nat, error: Fatal)
    requires Inv(s) && Live(s, r) && s.readers[r].pc.Reading? && s.flags.fatal.Usable? && !error.Usable?
    ensures s.socket.Some?
    ensures Inv(SetReader(s.(flags := Fail(s.flags, error)), r, Rejecting(s.readers[r].pc.sock, s.socket.value)))
  {
  }

  lemma ReaderHandlesKeeps(s: State, r: nat, effect: FrameEffect)
    requires Inv(s) && Live(s, r) && s.readers[r].pc.Reading? && s.flags.fatal.Usable?
    ensures Inv(ReaderHandles(s, r, effect))
  {
    match effect
    case FullStatus(partial) =>
      StreamingKeeps(s, partial);
      MarkInitializedKeeps(s.(flags := s.flags.(streaming := partial)), r);
    case DeltaStatus => MarkInitializedKeeps(s, r);
    case Refused(final) => RefusedKeeps(s, r, if final then Final else Transient);
    case _ =>
  }

  lemma RejectDoneKeeps(s: State, r: nat)
    requires Inv(s) && Live(s, r) && s.readers[r].pc.Rejecting?
    ensures Inv(SetReader(SocketGone(s, s.readers[r].pc.target), r, Reading(s.readers[r].pc.sock)))
  {
  }

  lemma FramesEndedKeeps(s: State, r: nat)
    requires Inv(s) && Live(s, r) && s.readers[r].pc.Reading?
    ensures Inv(AfterFrames(SocketGone(s, s.readers[r].pc.sock), r))
  {
    SocketGoneKeeps(s, s.readers[r].pc.sock);
    AfterFramesKeeps(SocketGone(s, s.readers[r].pc.sock), r);
  }

  lemma ReaderWakesKeeps(s: State, r: nat)
    requires Inv(s) && Live(s, r) && s.readers[r].pc.Backoff? && !AttemptWokenUp(s)
    ensures Inv(ReaderWakes(s, r, s.readers[r].pc.delay))
  {
  }

  lemma ReaderConnectedKeeps(s: State, r: nat)
    requires Inv(s) && Live(s, r) && s.readers[r].pc.Reconnecting?
    ensures Inv(ReaderConnected(s, r))
  {
  }

  lemma ReaderCrashedKeeps(s: State, r: nat)
    requires Inv(s) && Live(s, r) && s.readers[r].pc.Reconnecting?
    ensures Inv(SetReader(SignOut(s), r, ReaderEnded(Crashed)))
  {
  }

  lemma ReaderCancelledKeeps(s: State, r: nat)
    requires Inv(s) && r < |s.readers| && s.readers[r].cancelled
    ensures Inv(ReaderCancelled(s, r))
  {
    var s1 := SetReader(s, r, ReaderEnded(Cancelled));
    LingeringReaderKeeps(s, r, ReaderEnded(Cancelled));
    match s.readers[r].pc
    case ReaderCreated =>
    case Rejecting(_, t) => SocketGoneKeeps(s1, t); SignOutKeeps(SocketGone(s1, t));
    case _ => SignOutKeeps(s1);
  }

  lemma ReaderKeeps(s: State, r: nat, e: ReaderEvent)
    requires Inv(s) && ReaderEnabled(s, r, e)
    ensures Inv(ReaderApply(s, r, e))
  {
    match e
    case ReaderStarted => ReaderBeginsKeeps(s, r);
    case FrameHandled(effect) => ReaderHandlesKeeps(s, r, effect);
    case FrameDropped => AfterFramesKeeps(s, r);
    case RejectDone => RejectDoneKeeps(s, r);
    case FramesEnded => FramesEndedKeeps(s, r);
    case BackoffOver => ReaderWakesKeeps(s, r);
    case Reconnected => ReaderConnectedKeeps(s, r);
    case ReconnectRaised => ReadFramesKeeps(s, r);
    case ReconnectCrashed => ReaderCrashedKeeps(s, r);
    case ReaderSawCancel => ReaderCancelledKeeps(s, r);
  }

  // ---- Readiness guards, and the whole step ----

  lemma GuardFiresKeeps(s: State, g: nat)
    requires Inv(s) && LiveGuard(s, g) && s.guards[g].pc.Watching? && s.socket.Some?
    ensures Inv(SetGuard(s, g, GuardClosing(s.socket.value)))
  {
  }

  lemma GuardKeeps(s: State, g: nat, e: GuardEvent)
    requires Inv(s) && GuardEnabled(s, g, e)
    ensures Inv(GuardApply(s, g, e))
  {
    if e.GuardFired? && s.socket.Some? {
      GuardFiresKeeps(s, g);
    } else {
      var s1 := if s.guards[g].pc.GuardClosing? then SocketGone(s, s.guards[g].pc.target) else s;
      if s.guards[g].pc.GuardClosing? { SocketGoneKeeps(s, s.guards[g].pc.target); }
      GuardEndedKeeps(s1, g);
    }
  }

  lemma StepKeepsInv(s: State, e: Event)
    requires Inv(s) && Enabled(s, e)
    ensures Inv(Apply(s, e))
  {
    match e
    case Caller(c) => CallerKeeps(s, c);
    case InAttempt(a) => AttemptKeeps(s, a);
    case InClosing(c) => ClosingKeeps(s, c);
    case InReader(r, x) => ReaderKeeps(s, r, x);
    case InGuard(g, x) => GuardKeeps(s, g, x);
    case PeerClosed(sock) => SocketGoneKeeps(s, sock);
  }

  /** Every state of every run satisfies the invariant. */
  lemma {:induction false} RunKeepsInv(states: seq<State>, events: seq<Event>, i: nat)
    requires IsRun(states, events) && i < |states|
    ensures Inv(states[i])
  {
    if i == 0 {
      InitialInv(states[0].config);
    } else {
      RunKeepsInv(states, events, i - 1);
      StepKeepsInv(states[i - 1], events[i - 1]);
    }
  }
}
