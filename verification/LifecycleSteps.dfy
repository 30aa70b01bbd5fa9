/** What the connection's steps do for those who wait on them: callers, the attempt, the socket and its guard. */
module LifecycleSteps {
  import opened Wrappers
  import opened Lifecycle
  import Client
  import JointTheorems

  // ---- The callers ----

  /** open() joins the attempt under way, or starts one; close() joins the closing task, or starts one. */
  lemma CallsJoin(s: State)
    ensures var t := CallerApply(s, OpenCalled);
            t == s.(stopped := false,
                    attempt := if AttemptUnfinished(s) then s.attempt else Attempt(AttemptCreated, false, false))
    ensures var t := CallerApply(s, CloseCalled);
            t == s.(stopped := true, closeCount := s.closeCount + 1,
                    closing := if ClosingUnfinished(s) then s.closing else ClosingCreated)
  {
  }

  /** A caller that is cancelled takes the attempt with it: the attempt's next step is its cancellation. */
  lemma CancellingTakesTheAttempt(s: State, e: AttemptEvent)
    requires CallerEnabled(s, CallerCancelled)
    ensures var t := CallerApply(s, CallerCancelled);
            && t == s.(attempt := s.attempt.(cancelled := true))
            && (AttemptEnabled(t, e) <==> e == SawCancel)
  {
  }

  /**
   A resume starts a reader exactly if nothing forbids it: being stopped, refused for good, or read by
   somebody already, or reconnecting switched off.
   */
  lemma ResumeStartsAReader(s: State)
    ensures var t := CallerApply(s, ResumeCalled);
            if !s.stopped && !s.flags.fatal.Final? && s.messageLoopTask.None? && !AttemptUnfinished(s)
               && s.config.autoReconnect
            then t == s.(messageLoopTask := Some(|s.readers|), readers := s.readers + [Reader(ReaderCreated, false)])
            else t == s
  {
  }

  // ---- Wake-ups ----

  /** The handled frame that the attempt waits for: it signs in, completes the status, or refuses. */
  predicate WaitsFor(s: State, effect: FrameEffect) {
    && AttemptWaits(s)
    && match effect
       case SignedIn => s.attempt.pc.AwaitAuth?
       case FullStatus(partial) => !s.attempt.pc.AwaitAuth? && !partial
       case DeltaStatus => !s.attempt.pc.AwaitAuth? && !s.flags.streaming
       case Refused(_) => true
       case NoEffect => false
  }

  lemma FrameWakes(s: State, r: nat, effect: FrameEffect)
    requires ReaderEnabled(s, r, FrameHandled(effect)) && WaitsFor(s, effect)
    ensures AttemptWokenUp(ReaderApply(s, r, FrameHandled(effect)))
  {
  }

  /** Nobody but the attempt itself takes a wake-up back, not even by clearing the event. */
  lemma StaysWokenUp(s: State, e: Event)
    requires Enabled(s, e) && AttemptWokenUp(s) && !e.InAttempt?
    ensures AttemptWokenUp(Apply(s, e))
  {
    match e
    case InReader(r, x) => ReaderLeavesLatches(s, r, x);
    case InClosing(c) => ClosingLeavesLatches(s, c);
    case _ =>
  }

  lemma ReaderLeavesLatches(s: State, r: nat, e: ReaderEvent)
    requires ReaderEnabled(s, r, e)
    ensures var t := ReaderApply(s, r, e);
            && t.attempt == s.attempt
            && (s.flags.authLatch ==> t.flags.authLatch) && (s.flags.initLatch ==> t.flags.initLatch)
  {
    match e
    case FrameHandled(effect) => Client.ReaderMovesFlags(s, r, effect); EffectLeavesLatches(s.flags, effect);
    case ReaderStarted => JointTheorems.ReadFramesMovesFlags(s.(reconnectDelay := s.config.delayMin), r);
    case ReconnectRaised => JointTheorems.ReadFramesMovesFlags(s, r);
    case _ =>
  }

  lemma EffectLeavesLatches(f: Flags, effect: FrameEffect)
    ensures var g := Client.EffectFlags(f, effect); (f.authLatch ==> g.authLatch) && (f.initLatch ==> g.initLatch)
  {
  }

  lemma ClosingLeavesLatches(s: State, e: ClosingEvent)
    requires ClosingEnabled(s, e)
    ensures var t := ClosingApply(s, e);
            && t.attempt.pc == s.attempt.pc
            && t.flags.authLatch == s.flags.authLatch && t.flags.initLatch == s.flags.initLatch
  {
    if e.ClosingStarted? || e.SawAttemptEnd? { ClosingClosesLeavesLatches(s); }
  }

  lemma ClosingClosesLeavesLatches(s: State)
    ensures var t := ClosingCloses(s);
            && t.attempt.pc == s.attempt.pc
            && t.flags.authLatch == s.flags.authLatch && t.flags.initLatch == s.flags.initLatch
  {
  }

  /**
   No wake-up is lost: from the frame the attempt waits for until its own next step it stays woken up,
   whatever others clear meanwhile, so that next step is no timeout.
   */
  lemma {:induction false} NoWakeUpIsLost(states: seq<State>, events: seq<Event>, i: nat, j: nat)
    requires IsRun(states, events) && i < j < |states|
    requires events[i].InReader? && events[i].reader.FrameHandled? && WaitsFor(states[i], events[i].reader.effect)
    requires forall k | i < k < j :: !events[k].InAttempt?
    ensures AttemptWokenUp(states[j])
    ensures j < |events| ==> events[j] != InAttempt(TimedOut)
  {
    if i == j - 1 {
      FrameWakes(states[i], events[i].r, events[i].reader.effect);
    } else {
      NoWakeUpIsLost(states, events, i, j - 1);
      StaysWokenUp(states[j - 1], events[j - 1]);
    }
  }

  // ---- The attempt ----

  /** The first block: done at once, waiting for the status only, replacing the reader, or connecting. */
  lemma AttemptStarts(s: State)
    requires AttemptEnabled(s, Started)
    ensures var t := AttemptApply(s, Started);
            && t.attempt.hadReader == s.messageLoopTask.Some?
            && (s.flags.authenticated && s.flags.initialized ==> t.attempt.pc == AttemptEnded(true))
            && (s.flags.authenticated && !s.flags.initialized ==>
                  t.attempt.pc == Finishing && t.flags.initLatch == s.flags.initEvent)
            && (!s.flags.authenticated && s.messageLoopTask.Some? ==>
                  t.attempt.pc == StoppingReader(Replacing, s.messageLoopTask.value) && t.messageLoopTask.None?)
            && (!s.flags.authenticated && s.messageLoopTask.None? ==> t.attempt.pc == Connecting)
  {
  }

  /** A socket handed over is open and current, and has a reader and a waiting attempt in the same step. */
  lemma AttemptGetsSocket(s: State)
    requires AttemptEnabled(s, GotSocketFor)
    ensures var t := AttemptApply(s, GotSocketFor);
            && t.socket == Some(s.sockets) && t.open == s.open + {s.sockets} && t.sockets == s.sockets + 1
            && t.messageLoopTask == Some(|s.readers|) && t.readers == s.readers + [Reader(ReaderCreated, false)]
            && t.attempt.pc == AwaitAuth && t.flags.authLatch == s.flags.authEvent
  {
  }

  /** An attempt that fails to connect starts a reader only where it had one. */
  lemma AttemptGivesBack(s: State)
    requires AttemptEnabled(s, ConnectRaised)
    ensures var t := AttemptApply(s, ConnectRaised);
            && t.attempt.pc == AttemptEnded(false)
            && (t.readers == s.readers || t.readers == s.readers + [Reader(ReaderCreated, false)])
            && (t.readers != s.readers <==>
                  && s.attempt.hadReader && s.messageLoopTask.None?
                  && !s.stopped && !s.flags.fatal.Final? && s.config.autoReconnect)
  {
  }

  /** Woken up: a refusal makes it clean up, the sign-in takes it to the next wait, the status to its end. */
  lemma AttemptGoesOn(s: State)
    requires AttemptEnabled(s, Woken)
    ensures var pc := AttemptApply(s, Woken).attempt.pc;
            && (pc == AttemptEnded(true) <==> s.flags.fatal.Usable? && !s.attempt.pc.AwaitAuth?)
            && (pc == AwaitInit <==> s.flags.fatal.Usable? && s.attempt.pc.AwaitAuth?)
  {
  }

  /**
   A close inside the attempt that goes through leads on to the fresh socket it was for; one that
   raised, or cleans up after a failure, to the attempt's failure. Either way the socket is gone.
   */
  lemma AttemptHasClosed(s: State, e: AttemptEvent)
    requires AttemptEnabled(s, e)
    requires (e.SawReaderEnd? && s.socket.None?) || e.SawSocketClosed?
    ensures var t, pc := AttemptApply(s, e), s.attempt.pc;
            && t.attempt.pc == (if pc.site.Replacing? && !(e.SawSocketClosed? && (pc.failing || e.raised))
                                then Connecting else AttemptEnded(false))
            && t.socket == None && !t.flags.authenticated && !t.flags.initEvent
            && (e.SawSocketClosed? ==> t.open == s.open - {pc.target})
  {
    var pc := s.attempt.pc;
    if e.SawReaderEnd? {
      ClosedLeadsOn(s, pc.site, false);
    } else {
      ClosedLeadsOn(SocketGone(s, pc.target), pc.site, pc.failing || e.raised);
    }
  }

  lemma ClosedLeadsOn(s: State, site: CloseSite, failing: bool)
    ensures var t := AttemptClosed(s, site, failing);
            && t.attempt.pc == (if site.Replacing? && !failing then Connecting else AttemptEnded(false))
            && t.socket == None && t.open == s.open && !t.flags.authenticated && !t.flags.initEvent
  {
  }

  /** A task that is done is forgotten a step later, and nothing else happens. */
  lemma DoneIsForgotten(s: State)
    ensures AttemptEnabled(s, Forgotten) ==> AttemptApply(s, Forgotten) == s.(attempt := Attempt(NoAttempt, false, false))
    ensures ClosingEnabled(s, ClosingForgotten) ==> ClosingApply(s, ClosingForgotten) == s.(closing := NoClosing)
  {
  }

  /** Where the attempt stands when its cancellation reaches it: before it ran, at a wait, connecting, or closing. */
  lemma CancellationReachesTheAttempt(s: State)
    requires AttemptEnabled(s, SawCancel)
    ensures var t := AttemptApply(s, SawCancel);
            && !t.attempt.cancelled
            && (s.attempt.pc.AttemptCreated? || s.attempt.pc.Connecting? || s.attempt.pc.ClosingSocket? ==>
                  t.attempt.pc == AttemptEnded(false))
            && (AttemptWaits(s) && s.messageLoopTask.Some? ==>
                  t.attempt.pc == StoppingReader(CleaningUp, s.messageLoopTask.value) && t.messageLoopTask.None?)
            && (s.attempt.pc.StoppingReader? ==>
                  t.attempt.pc == if s.socket.Some? then ClosingSocket(s.attempt.pc.site, s.socket.value, true)
                                  else AttemptEnded(false))
            && (s.attempt.pc.ClosingSocket? ==> s.attempt.pc.target !in t.open)
  {
    var s1 := s.(attempt := s.attempt.(cancelled := false));
    match s.attempt.pc
    case ClosingSocket(site, x, _) => FailingCloseEnds(SocketGone(s1, x), site);
    case StoppingReader(site, _) => if s.socket.None? { FailingCloseEnds(s1, site); }
    case _ =>
  }

  lemma FailingCloseEnds(s: State, site: CloseSite)
    ensures var t := AttemptClosed(s, site, true);
            t.attempt.pc == AttemptEnded(false) && t.attempt.cancelled == s.attempt.cancelled && t.open == s.open
  {
  }

  /** A cancelled reader ends as cancelled, at whatever await it stands; no other reader is touched. */
  lemma CancellationReachesTheReader(s: State, r: nat)
    requires ReaderEnabled(s, r, ReaderSawCancel)
    ensures var t := ReaderApply(s, r, ReaderSawCancel);
            && t.readers == s.readers[r := Reader(ReaderEnded(Cancelled), true)]
            && (!s.readers[r].pc.ReaderCreated? ==> !t.flags.authenticated)
            && (s.readers[r].pc.Rejecting? ==> s.readers[r].pc.target !in t.open)
  {
  }

  // ---- A reconnected socket and its guard ----

  /** Who begins anew, and who stops the reader, gives up the readiness guard in the same step. */
  lemma GuardIsGivenUp(s: State, r: nat)
    ensures Begin(s).readinessGuard == None && StopReader(s).readinessGuard == None
    ensures ReaderEnabled(s, r, BackoffOver) ==> ReaderApply(s, r, BackoffOver).readinessGuard == None
    ensures s.readinessGuard.Some? && s.readinessGuard.value < |s.guards| ==>
              !LiveGuard(Begin(s), s.readinessGuard.value) && !LiveGuard(StopReader(s), s.readinessGuard.value)
  {
  }

  lemma ReconnectStartsAGuard(s: State, r: nat)
    requires ReaderEnabled(s, r, Reconnected)
    ensures var t := ReaderApply(s, r, Reconnected);
            && t.socket == Some(s.sockets) && t.open == s.open + {s.sockets} && t.sockets == s.sockets + 1
            && t.readinessGuard == Some(|s.guards|) && t.guards == s.guards + [Guard(Watching, s.sockets, false)]
            && LiveGuard(t, |s.guards|)
  {
  }

  /**
   A guard whose time is up closes the current socket and then ends; one that is satisfied, or cancelled
   before, ends and closes none.
   */
  lemma GuardSteps(s: State, g: nat, e: GuardEvent)
    requires GuardEnabled(s, g, e)
    ensures var t, closing := GuardApply(s, g, e), s.guards[g].pc.GuardClosing?;
            && t.guards[g].pc == (if e.GuardFired? && s.socket.Some? then GuardClosing(s.socket.value) else GuardEnded)
            && t.open == (if closing then s.open - {s.guards[g].pc.target} else s.open)
            && (e.GuardFired? || e.GuardSatisfied? ==> !closing) && (e.GuardSawSocketClosed? ==> closing)
            && t.flags == s.flags && t.socket == s.socket && t.readers == s.readers && t.attempt == s.attempt
  {
  }
}
