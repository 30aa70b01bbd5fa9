/** Every run of the connection is one of the client: the two sides of a joint run agree. */
module JointTheorems {
  import opened Lifecycle
  import opened Client
  import opened Joint

  // ---- A step moves the flags of both sides alike ----

  lemma OneCall(f: Flags, e: ClientEvent)
    ensures FlagsAfter(f, [e]) == FlagsMoved(f, e)
  {
    assert [e][1..] == [];
  }

  lemma TwoCalls(f: Flags, d: ClientEvent, e: ClientEvent)
    ensures FlagsAfter(f, [d, e]) == FlagsMoved(FlagsMoved(f, d), e)
  {
    assert [d, e][1..] == [e];
    OneCall(FlagsMoved(f, d), e);
  }

  lemma ExactlyIsAlike(s: State, t: State, calls: seq<ClientEvent>)
    requires MovesExactly(s, t, calls)
    ensures MovesAlike(s, t, calls)
  {
  }

  lemma ClosedMovesFlags(s: State, site: CloseSite, failing: bool)
    ensures MovesExactly(s, AttemptClosed(s, site, failing), ClosedCalls(site, failing))
  {
    OneCall(s.flags, Closed);
    TwoCalls(s.flags, Closed, Begun);
  }

  lemma ClosesSocketMovesFlags(s: State, site: CloseSite, failing: bool)
    ensures MovesExactly(s, AttemptClosesSocket(s, site, failing), ClosesSocketCalls(s, site, failing))
  {
    ClosedMovesFlags(s, site, failing);
  }

  lemma ClosesMovesFlags(s: State, site: CloseSite)
    ensures MovesExactly(s, AttemptCloses(s, site), ClosesCalls(s, site))
  {
    ClosesSocketMovesFlags(StopReader(s), site, false);
  }

  lemma CancelledMovesFlags(s: State)
    ensures MovesExactly(s, AttemptCancelled(s), CancelledCalls(s))
  {
    var s1 := s.(attempt := s.attempt.(cancelled := false));
    match s.attempt.pc
    case StoppingReader(site, _) => ClosesSocketMovesFlags(s1, site, true);
    case ClosingSocket(site, t, _) => ClosedMovesFlags(SocketGone(s1, t), site, true);
    case Finishing => ClosesMovesFlags(s1, CleaningUp);
    case AwaitAuth => ClosesMovesFlags(s1, CleaningUp);
    case AwaitInit => ClosesMovesFlags(s1, CleaningUp);
    case _ =>
  }

  lemma BeginsOnSignedIn(s: State)
    requires s.flags.authenticated
    ensures MovesAlike(s, AttemptBegins(s), [])
  {
    if s.flags.initialized {
      ExactlyIsAlike(s, AttemptBegins(s), []);
    } else {
      WaitingMovesNoFlags(s.(attempt := s.attempt.(hadReader := s.messageLoopTask.Some?)), Finishing);
    }
  }

  lemma BeginsMovesFlags(s: State)
    requires !s.flags.authenticated
    ensures MovesExactly(s, AttemptBegins(s), BeginsCalls(s))
  {
    OneCall(s.flags, Begun);
    if s.messageLoopTask.Some? { ClosesMovesFlags(s.(attempt := s.attempt.(hadReader := true)), Replacing); }
  }

  lemma WaitingMovesNoFlags(s: State, pc: AttemptPc)
    ensures MovesAlike(s, AttemptAwaitsInit(s, pc), [])
  {
  }

  lemma RunningOnMovesNoFlags(s: State)
    requires s.flags.fatal.Usable?
    ensures MovesAlike(s, AttemptRuns(s), [])
  {
    if s.attempt.pc.AwaitAuth? { WaitingMovesNoFlags(s, AwaitInit); } else { ExactlyIsAlike(s, AttemptRuns(s), []); }
  }

  lemma WokenMovesFlags(s: State)
    ensures MovesAlike(s, AttemptRuns(s), if s.flags.fatal.Usable? then [] else ClosesCalls(s, CleaningUp))
  {
    if s.flags.fatal.Usable? {
      RunningOnMovesNoFlags(s);
    } else {
      ClosesMovesFlags(s, CleaningUp);
    }
  }

  lemma ConnectingMovesNoFlags(s: State)
    ensures MovesAlike(s, AttemptConnected(s), [])
  {
  }

  /** Where no wait begins, the latches stay too. */
  lemma AttemptMovesFlagsExactly(s: State, e: AttemptEvent)
    requires AttemptEnabled(s, e) && !e.GotSocketFor? && !e.Woken? && (e.Started? ==> !s.flags.authenticated)
    ensures MovesExactly(s, AttemptApply(s, e), AttemptCalls(s, e))
  {
    var pc := s.attempt.pc;
    match e
    case Started => BeginsMovesFlags(s);
    case TimedOut => ClosesMovesFlags(s, CleaningUp);
    case SawReaderEnd => ClosesSocketMovesFlags(s, pc.site, false);
    case SawSocketClosed(raised) => ClosedMovesFlags(SocketGone(s, pc.target), pc.site, pc.failing || raised);
    case SawCancel => CancelledMovesFlags(s);
    case ConnectRaised =>
    case Forgotten =>
  }

  lemma AttemptMovesFlags(s: State, e: AttemptEvent)
    requires AttemptEnabled(s, e)
    ensures MovesAlike(s, AttemptApply(s, e), AttemptCalls(s, e))
  {
    if e.GotSocketFor? {
      ConnectingMovesNoFlags(s);
    } else if e.Woken? {
      WokenMovesFlags(s);
    } else if e.Started? && s.flags.authenticated {
      BeginsOnSignedIn(s);
    } else {
      AttemptMovesFlagsExactly(s, e);
      ExactlyIsAlike(s, AttemptApply(s, e), AttemptCalls(s, e));
    }
  }

  lemma ClosingMovesFlags(s: State, e: ClosingEvent)
    requires ClosingEnabled(s, e)
    ensures MovesExactly(s, ClosingApply(s, e), ClosingCalls(s, e))
  {
    OneCall(s.flags, Closed);
  }

  lemma ReadFramesMovesFlags(s: State, r: nat)
    requires r < |s.readers|
    ensures ReadFrames(s, r).flags == if s.socket.None? then SetAuthenticated(s.flags, false) else s.flags
  {
  }

  lemma ReaderStepMovesFlags(s: State, r: nat, e: ReaderEvent, frame: Frame)
    requires ReaderEnabled(s, r, e) && !e.FrameHandled?
    ensures MovesExactly(s, ReaderApply(s, r, e), ReaderCalls(s, r, e, frame))
  {
    OneCall(s.flags, SignedOut);
    OneCall(s.flags, Begun);
    match e
    case ReaderStarted => ReadFramesMovesFlags(s.(reconnectDelay := s.config.delayMin), r);
    case ReconnectRaised => ReadFramesMovesFlags(s, r);
    case _ =>
  }

  lemma {:induction false} TakenFlags(c: ClientState, calls: seq<ClientEvent>)
    requires Frameless(calls)
    ensures AllFromConnection(calls) && TakeAll(c, calls).flags == FlagsAfter(c.flags, calls)
    decreases |calls|
  {
    if calls != [] { TakenFlags(ClientApply(c, calls[0]), calls[1..]); }
  }

  lemma SigningAgrees(f: Flags, g: Flags, value: bool)
    requires FlagsAgree(f, g)
    ensures FlagsAgree(SetAuthenticated(f, value), SetAuthenticated(g, value))
  {
  }

  lemma CompletionAgrees(f: Flags, g: Flags)
    requires FlagsAgree(f, g)
    ensures FlagsAgree(CompleteFlags(f), CompleteFlags(g))
  {
  }

  lemma ResetAgrees(f: Flags, g: Flags)
    requires FlagsAgree(f, g)
    ensures FlagsAgree(ResetFlags(f), ResetFlags(g))
  {
  }

  lemma MoveAgrees(f: Flags, g: Flags, e: ClientEvent)
    requires FlagsAgree(f, g)
    ensures FlagsAgree(FlagsMoved(f, e), FlagsMoved(g, e))
  {
    if e.Begun? {
      ResetAgrees(f, g);
    } else if e.Closed? || e.SignedOut? {
      SigningAgrees(f, g, false);
    }
  }

  lemma {:induction false} StillAgree(f: Flags, g: Flags, calls: seq<ClientEvent>)
    requires FlagsAgree(f, g)
    ensures FlagsAgree(FlagsAfter(f, calls), FlagsAfter(g, calls))
    decreases |calls|
  {
    if calls != [] {
      MoveAgrees(f, g, calls[0]);
      StillAgree(FlagsMoved(f, calls[0]), FlagsMoved(g, calls[0]), calls[1..]);
    }
  }

  lemma FullStatusAgrees(f: Flags, g: Flags, partial: bool)
    requires FlagsAgree(f, g)
    ensures FlagsAgree(FullStatusFlags(f, partial), FullStatusFlags(g, partial))
  {
    CompletionAgrees(f.(streaming := partial), g.(streaming := partial));
  }

  lemma DeltaStatusAgrees(f: Flags, g: Flags)
    requires FlagsAgree(f, g)
    ensures FlagsAgree(DeltaStatusFlags(f), DeltaStatusFlags(g))
  {
    CompletionAgrees(f, g);
  }

  lemma FailureAgrees(f: Flags, g: Flags, error: Fatal)
    requires FlagsAgree(f, g)
    ensures FlagsAgree(Fail(f, error), Fail(g, error))
  {
    SigningAgrees(f.(fatal := error), g.(fatal := error), false);
  }

  lemma EffectsAgree(f: Flags, g: Flags, effect: FrameEffect)
    requires FlagsAgree(f, g)
    ensures FlagsAgree(EffectFlags(f, effect), EffectFlags(g, effect))
  {
    match effect
    case NoEffect =>
    case SignedIn => SigningAgrees(f, g, true);
    case FullStatus(partial) => FullStatusAgrees(f, g, partial);
    case DeltaStatus => DeltaStatusAgrees(f, g);
    case Refused(final) => FailureAgrees(f, g, if final then Final else Transient);
  }

  lemma FrameKeepsAgreement(p: Pair, r: nat, effect: FrameEffect, frame: Frame)
    requires ReaderEnabled(p.connection, r, FrameHandled(effect)) && effect == EffectOf(p.client, frame)
    requires FlagsAgree(p.connection.flags, p.client.flags)
    ensures FlagsAgree(ReaderHandles(p.connection, r, effect).flags, TakeAll(p.client, [FrameRead(frame)]).flags)
  {
    assert [FrameRead(frame)][1..] == [];
    ReaderMovesFlags(p.connection, r, effect);
    ClientMovesFlags(p.client, frame);
    EffectsAgree(p.connection.flags, p.client.flags, effect);
  }

  /** Callers, guards and the peer leave the flags alone. */
  lemma OutsidersMoveNoFlags(s: State, e: Event)
    requires Enabled(s, e) && (e.Caller? || e.InGuard? || e.PeerClosed?)
    ensures Apply(s, e).flags == s.flags
  {
  }

  lemma OtherStepsMoveAlike(s: State, e: Event, frame: Frame)
    requires Enabled(s, e) && !(e.InReader? && e.reader.FrameHandled?)
    ensures MovesAlike(s, Apply(s, e), Calls(s, e, frame))
  {
    match e
    case InAttempt(a) => AttemptMovesFlags(s, a);
    case InClosing(c) =>
      ClosingMovesFlags(s, c);
      ExactlyIsAlike(s, ClosingApply(s, c), ClosingCalls(s, c));
    case InReader(r, x) =>
      ReaderStepMovesFlags(s, r, x, frame);
      ExactlyIsAlike(s, ReaderApply(s, r, x), ReaderCalls(s, r, x, frame));
    case _ => OutsidersMoveNoFlags(s, e);
  }

  lemma AgreementIsTransitive(f: Flags, g: Flags, h: Flags)
    requires FlagsAgree(f, g) && FlagsAgree(g, h)
    ensures FlagsAgree(f, h)
  {
  }

  lemma StepKeepsAgreement(p: Pair, e: JointEvent)
    requires JointEnabled(p, e) && FlagsAgree(p.connection.flags, p.client.flags)
    ensures FlagsAgree(JointApply(p, e).connection.flags, JointApply(p, e).client.flags)
  {
    match e
    case OfConnection(x, frame) =>
      if x.InReader? && x.reader.FrameHandled? {
        FrameKeepsAgreement(p, x.r, x.reader.effect, frame);
      } else {
        var calls := Calls(p.connection, x, frame);
        OtherStepsMoveAlike(p.connection, x, frame);
        TakenFlags(p.client, calls);
        StillAgree(p.connection.flags, p.client.flags, calls);
        AgreementIsTransitive(Apply(p.connection, x).flags, FlagsAfter(p.connection.flags, calls),
                              TakeAll(p.client, calls).flags);
      }
    case OfCaller(call) =>
  }

  /** In every state of every joint run the two sides agree on sign-in, status, refusal and events. */
  lemma {:induction false} SidesAgree(states: seq<Pair>, events: seq<JointEvent>, i: nat)
    requires IsJointRun(states, events) && i < |states|
    ensures FlagsAgree(states[i].connection.flags, states[i].client.flags)
  {
    if i > 0 {
      SidesAgree(states, events, i - 1);
      assert JointStepAt(states, events, i - 1);
      StepKeepsAgreement(states[i - 1], events[i - 1]);
    }
  }
}
