/** Retrying over whole runs: who still reconnects after a failed open(), and how long it waits. */
module LifecycleRecovery {
  import opened Wrappers
  import opened Lifecycle
  import opened LifecycleInvariant
  import opened LifecycleSafety
  import opened LifecycleTheorems

  // ---- Recovery is kept ----

  /**
   An attempt that began with a reader present and ends by failure, timeout or cancellation
   leaves exactly one live reader -- unless a close or a final refusal forbids it.
   */
  lemma FailedOpenKeepsAReader(states: seq<State>, events: seq<Event>, i: nat)
    requires IsRun(states, events) && i < |events| && AttemptEndsNow(states[i], events[i], false)
    requires !states[i].attempt.pc.AttemptCreated? && states[i].attempt.hadReader
    requires states[i].config.autoReconnect
    requires !states[i + 1].stopped && !states[i + 1].flags.fatal.Final?
    ensures states[i + 1].messageLoopTask.Some? && Live(states[i + 1], states[i + 1].messageLoopTask.value)
    ensures forall r | 0 <= r < |states[i + 1].readers| ::
              Live(states[i + 1], r) ==> states[i + 1].messageLoopTask == Some(r)
  {
    RunKeepsInv(states, events, i);
    StepKeepsInv(states[i], events[i]);
    FailedEnd(states[i], events[i]);
  }

  /** What a failed attempt that had a reader hands back. */
  predicate Revived(t: State) {
    && (t.config.autoReconnect && !t.stopped && !t.flags.fatal.Final? ==>
          t.messageLoopTask.Some? && Live(t, t.messageLoopTask.value))
  }

  lemma FailsRevives(s: State)
    requires s.attempt.hadReader && s.messageLoopTask.None?
    ensures Revived(AttemptFails(s))
  {
  }

  lemma ClosedRevives(s: State, site: CloseSite, failing: bool)
    requires s.attempt.hadReader && s.messageLoopTask.None?
    ensures AttemptClosed(s, site, failing).attempt.pc.AttemptEnded? ==> Revived(AttemptClosed(s, site, failing))
  {
    FailsRevives(FinishClose(s));
  }

  lemma ClosesSocketRevives(s: State, site: CloseSite, failing: bool)
    requires s.attempt.hadReader && s.messageLoopTask.None?
    ensures AttemptClosesSocket(s, site, failing).attempt.pc.AttemptEnded? ==>
              Revived(AttemptClosesSocket(s, site, failing))
  {
    ClosedRevives(s, site, failing);
  }

  lemma CancelRevives(s: State)
    requires Inv(s) && s.attempt.hadReader && AttemptEnabled(s, SawCancel) && !s.attempt.pc.AttemptCreated?
    ensures AttemptCancelled(s).attempt.pc.AttemptEnded? ==> Revived(AttemptCancelled(s))
  {
    var s1 := s.(attempt := s.attempt.(cancelled := false));
    match s.attempt.pc
    case Connecting => FailsRevives(s1);
    case StoppingReader(site, _) => ClosesSocketRevives(s1, site, true);
    case ClosingSocket(site, x, failing) => ClosedRevives(SocketGone(s1, x), site, true);
    case _ =>
  }

  lemma AttemptRevives(s: State, e: AttemptEvent)
    requires Inv(s) && s.attempt.hadReader && AttemptEnabled(s, e) && !s.attempt.pc.AttemptCreated?
    requires AttemptApply(s, e).attempt.pc == AttemptEnded(false) && AttemptUnfinished(s)
    ensures Revived(AttemptApply(s, e))
  {
    match e
    case ConnectRaised => FailsRevives(s);
    case SawReaderEnd => ClosesSocketRevives(s, s.attempt.pc.site, false);
    case SawSocketClosed(raised) =>
      ClosedRevives(SocketGone(s, s.attempt.pc.target), s.attempt.pc.site, s.attempt.pc.failing || raised);
    case SawCancel => CancelRevives(s);
    case _ =>
  }

  /** How an attempt fails: it never began and changed nothing, or it hands its reader back. */
  lemma FailedEnd(s: State, e: Event)
    requires Inv(s) && Enabled(s, e) && AttemptEndsNow(s, e, false)
    ensures var t := Apply(s, e);
            if s.attempt.pc.AttemptCreated?
            then t.messageLoopTask == s.messageLoopTask && t.readers == s.readers
            else s.attempt.hadReader ==> Revived(t)
  {
    OnlyAttemptEnds(s, e);
    if !s.attempt.pc.AttemptCreated? && s.attempt.hadReader { AttemptRevives(s, e.attempt); }
  }

  lemma OnlyAttemptEnds(s: State, e: Event)
    requires Enabled(s, e) && AttemptEndsNow(s, e, false)
    ensures e.InAttempt? && (s.attempt.pc.AttemptCreated? ==> e.attempt.SawCancel?)
  {
  }

  // ---- Recovery over whole runs ----

  /**
   Whether the reconnect loop is owed: some open() returned normally since the last close(),
   and no attempt since was refused for good.
   */
  ghost predicate Owed(states: seq<State>, events: seq<Event>, i: nat)
    requires IsRun(states, events) && i < |states|
  {
    i > 0 &&
    var s, e, t := states[i - 1], events[i - 1], states[i];
    if e == Caller(CloseCalled) then false
    else if AttemptEndsNow(s, e, true) then !t.stopped
    else if AttemptEndsNow(s, e, false) && t.flags.fatal.Final? then false
    else Owed(states, events, i - 1)
  }

  /** What an owed loop means in a state. */
  predicate OwedHolds(s: State) {
    && !s.stopped
    && (if AttemptUnfinished(s) && !s.attempt.pc.AttemptCreated? then s.attempt.hadReader else s.messageLoopTask.Some?)
  }

  lemma OwedStep(s: State, e: Event)
    requires Inv(s) && Enabled(s, e) && OwedHolds(s) && e != Caller(CloseCalled) && s.config.autoReconnect
    requires !(AttemptEndsNow(s, e, false) && Apply(s, e).flags.fatal.Final?)
    ensures OwedHolds(Apply(s, e))
  {
    StepKeepsInv(s, e);
    StopFlagMoves(s, e);
    match e
    case Caller(c) => OtherCallStep(s, c);
    case InAttempt(a) =>
      if AttemptEndsNow(s, e, false) {
        FailedEnd(s, e);
      } else if AttemptEndsNow(s, e, true) {
        OkEnds(s, e);
      } else {
        OtherAttemptStep(s, a);
      }
    case InClosing(c) => assert c.ClosingForgotten?;
    case InReader(r, x) => OtherReaderStep(s, r, x);
    case InGuard(_, _) =>
    case PeerClosed(_) =>
  }

  lemma OtherReaderStep(s: State, r: nat, e: ReaderEvent)
    requires ReaderEnabled(s, r, e) && OwedHolds(s)
    ensures OwedHolds(ReaderApply(s, r, e))
  {
  }

  lemma OtherCallStep(s: State, e: CallerEvent)
    requires CallerEnabled(s, e) && OwedHolds(s) && !e.CloseCalled?
    ensures OwedHolds(CallerApply(s, e))
  {
  }

  lemma OtherAttemptStep(s: State, e: AttemptEvent)
    requires Inv(s) && AttemptEnabled(s, e) && OwedHolds(s)
    requires Inv(AttemptApply(s, e))
    requires AttemptApply(s, e).attempt.pc.AttemptEnded? ==> s.attempt.pc.AttemptEnded?
    ensures OwedHolds(AttemptApply(s, e))
  {
  }

  lemma {:induction false} OwedKept(states: seq<State>, events: seq<Event>, i: nat)
    requires IsRun(states, events) && i < |states| && Owed(states, events, i)
    requires states[0].config.autoReconnect
    ensures OwedHolds(states[i]) && states[i].config == states[0].config
  {
    var s, e, t := states[i - 1], events[i - 1], states[i];
    ConfigKept(states, events, i);
    ConfigKept(states, events, i - 1);
    RunKeepsInv(states, events, i - 1);
    if AttemptEndsNow(s, e, true) {
      OkEnds(s, e);
      StepKeepsInv(s, e);
    } else {
      OwedKept(states, events, i - 1);
      OwedStep(s, e);
    }
  }

  lemma {:induction false} ConfigKept(states: seq<State>, events: seq<Event>, i: nat)
    requires IsRun(states, events) && i < |states|
    ensures states[i].config == states[0].config
  {
    if i > 0 {
      ConfigKept(states, events, i - 1);
      StopFlagMoves(states[i - 1], events[i - 1]);
    }
  }

  /** The reader's reconnect raised something the loop does not catch. */
  ghost predicate CrashedBy(events: seq<Event>, i: nat, r: nat)
    requires i <= |events|
  {
    exists k | 0 <= k < i :: events[k] == InReader(r, ReconnectCrashed)
  }

  predicate HasCrashed(s: State, r: nat) { r < |s.readers| && s.readers[r].pc == ReaderEnded(Crashed) }

  lemma FrameCrashesNobody(s: State, r: nat, effect: FrameEffect, x: nat)
    requires ReaderEnabled(s, r, FrameHandled(effect))
    ensures HasCrashed(ReaderHandles(s, r, effect), x) <==> HasCrashed(s, x)
  {
  }

  lemma ReaderCrashStep(s: State, r: nat, e: ReaderEvent, x: nat)
    requires ReaderEnabled(s, r, e)
    ensures HasCrashed(ReaderApply(s, r, e), x) <==> HasCrashed(s, x) || (r == x && e.ReconnectCrashed?)
  {
    match e
    case FrameHandled(effect) => FrameCrashesNobody(s, r, effect, x);
    case ReaderStarted =>
    case FrameDropped =>
    case RejectDone =>
    case FramesEnded =>
    case BackoffOver =>
    case Reconnected =>
    case ReconnectRaised =>
    case ReconnectCrashed =>
    case ReaderSawCancel =>
  }

  lemma FailsCrashNobody(s: State, x: nat)
    ensures HasCrashed(AttemptFails(s), x) <==> HasCrashed(s, x)
  {
  }

  lemma ClosedCrashNobody(s: State, site: CloseSite, failing: bool, x: nat)
    ensures HasCrashed(AttemptClosed(s, site, failing), x) <==> HasCrashed(s, x)
  {
    FailsCrashNobody(FinishClose(s), x);
  }

  lemma ClosesSocketCrashNobody(s: State, site: CloseSite, failing: bool, x: nat)
    ensures HasCrashed(AttemptClosesSocket(s, site, failing), x) <==> HasCrashed(s, x)
  {
    ClosedCrashNobody(s, site, failing, x);
  }

  lemma ClosesCrashNobody(s: State, site: CloseSite, x: nat)
    ensures HasCrashed(AttemptCloses(s, site), x) <==> HasCrashed(s, x)
  {
    ClosesSocketCrashNobody(StopReader(s), site, false, x);
  }

  lemma CancelCrashesNobody(s: State, x: nat)
    ensures HasCrashed(AttemptCancelled(s), x) <==> HasCrashed(s, x)
  {
    var s1 := s.(attempt := s.attempt.(cancelled := false));
    match s.attempt.pc
    case StoppingReader(site, _) => ClosesSocketCrashNobody(s1, site, true, x);
    case ClosingSocket(site, t, _) => ClosedCrashNobody(SocketGone(s1, t), site, true, x);
    case Connecting => FailsCrashNobody(s1, x);
    case _ => ClosesCrashNobody(s1, CleaningUp, x);
  }

  lemma BeginningCrashesNobody(s: State, x: nat)
    ensures HasCrashed(AttemptBegins(s), x) <==> HasCrashed(s, x)
  {
    ClosesCrashNobody(s.(attempt := s.attempt.(hadReader := s.messageLoopTask.Some?)), Replacing, x);
  }

  lemma AttemptCrashStep(s: State, e: AttemptEvent, x: nat)
    requires AttemptEnabled(s, e)
    ensures HasCrashed(AttemptApply(s, e), x) <==> HasCrashed(s, x)
  {
    match e
    case Started => BeginningCrashesNobody(s, x);
    case GotSocketFor =>
    case ConnectRaised => FailsCrashNobody(s, x);
    case Woken => ClosesCrashNobody(s, CleaningUp, x);
    case TimedOut => ClosesCrashNobody(s, CleaningUp, x);
    case SawReaderEnd => ClosesSocketCrashNobody(s, s.attempt.pc.site, false, x);
    case SawSocketClosed(raised) =>
      ClosedCrashNobody(SocketGone(s, s.attempt.pc.target), s.attempt.pc.site, s.attempt.pc.failing || raised, x);
    case SawCancel => CancelCrashesNobody(s, x);
    case Forgotten =>
  }

  lemma ClosingCrashStep(s: State, e: ClosingEvent, x: nat)
    requires ClosingEnabled(s, e)
    ensures HasCrashed(ClosingApply(s, e), x) <==> HasCrashed(s, x)
  {
  }

  lemma CrashStep(s: State, e: Event, x: nat)
    requires Enabled(s, e)
    ensures HasCrashed(Apply(s, e), x) <==> HasCrashed(s, x) || e == InReader(x, ReconnectCrashed)
  {
    match e
    case Caller(_) =>
    case InAttempt(a) => AttemptCrashStep(s, a, x);
    case InClosing(c) => ClosingCrashStep(s, c, x);
    case InReader(r, y) => ReaderCrashStep(s, r, y, x);
    case InGuard(_, _) =>
    case PeerClosed(_) =>
  }

  lemma {:induction false} CrashedExactly(states: seq<State>, events: seq<Event>, i: nat, r: nat)
    requires IsRun(states, events) && i < |states|
    ensures HasCrashed(states[i], r) <==> CrashedBy(events, i, r)
  {
    if i > 0 {
      CrashedExactly(states, events, i - 1, r);
      CrashStep(states[i - 1], events[i - 1], r);
      if CrashedBy(events, i, r) && !CrashedBy(events, i - 1, r) {
        assert events[i - 1] == InReader(r, ReconnectCrashed);
      }
    }
  }

  /** The own reader retries, exactly unless it crashed; a final refusal needs no reader. */
  ghost predicate Recovering(states: seq<State>, events: seq<Event>, i: nat)
    requires |states| == |events| + 1 && i <= |events|
  {
    var s := states[i];
    && s.messageLoopTask.Some?
    && (!s.flags.fatal.Final? ==>
          (Live(s, s.messageLoopTask.value) <==> !CrashedBy(events, i, s.messageLoopTask.value)))
  }

  lemma StoredReaderRecovers(states: seq<State>, events: seq<Event>, i: nat)
    requires IsRun(states, events) && i < |states| && states[i].messageLoopTask.Some? && states[i].config.autoReconnect
    ensures Recovering(states, events, i)
  {
    RunKeepsInv(states, events, i);
    CrashedExactly(states, events, i, states[i].messageLoopTask.value);
  }

  /**
   Once an open() has returned normally, then in every later state without an unfinished open(), until
   a close() or a final refusal, the connection has a live reader -- exactly unless that one crashed.
   */
  lemma RecoveryIsKept(states: seq<State>, events: seq<Event>, i: nat)
    requires IsRun(states, events) && i < |states| && Owed(states, events, i)
    requires states[0].config.autoReconnect && !AttemptUnfinished(states[i])
    ensures Recovering(states, events, i)
  {
    OwedKept(states, events, i);
    StoredReaderRecovers(states, events, i);
  }

  // ---- A crashed reader ----

  /** The crashed reader still counts as the owner, and nobody else is about to start one. */
  predicate Stranded(s: State) {
    AtRest(s) && s.messageLoopTask.Some? && HasCrashed(s, s.messageLoopTask.value)
  }

  lemma {:induction false} StrandedStays(states: seq<State>, events: seq<Event>, i: nat, j: nat)
    requires IsRun(states, events) && i <= j < |states| && Stranded(states[i])
    requires forall k | i <= k < j :: events[k] != Caller(OpenCalled) && events[k] != Caller(CloseCalled)
    ensures Stranded(states[j])
  {
    if i < j {
      StrandedStays(states, events, i, j - 1);
      RunKeepsInv(states, events, j - 1);
      StrandedStep(states[j - 1], events[j - 1]);
    }
  }

  lemma StrandedStep(s: State, e: Event)
    requires Inv(s) && Stranded(s) && Enabled(s, e) && e != Caller(OpenCalled) && e != Caller(CloseCalled)
    ensures Stranded(Apply(s, e))
  {
    match e
    case Caller(_) =>
    case InAttempt(a) => assert a.Forgotten?;
    case InClosing(c) => assert c.ClosingForgotten?;
    case InReader(r, x) => assert !Live(s, r) || s.messageLoopTask == Some(r); StrandedReader(s, r, x);
    case InGuard(_, _) =>
    case PeerClosed(_) =>
  }

  lemma StrandedReader(s: State, r: nat, e: ReaderEvent)
    requires OneReader(s) && Stranded(s) && ReaderEnabled(s, r, e)
    ensures Stranded(ReaderApply(s, r, e))
  {
  }

  /**
   When the own reader crashes and no open() is under way, nobody reads from then on, nothing is open
   and nobody is signed in, and resume_reconnecting() changes nothing: only an open() or a close() helps.
   */
  lemma CrashEndsRecovery(states: seq<State>, events: seq<Event>, i: nat, j: nat)
    requires IsRun(states, events) && i < j < |states|
    requires events[i].InReader? && events[i].reader.ReconnectCrashed? && AtRest(states[i + 1])
    requires forall k | i < k < j :: events[k] != Caller(OpenCalled) && events[k] != Caller(CloseCalled)
    ensures var s := states[j];
            && (forall r | 0 <= r < |s.readers| :: !Live(s, r))
            && s.open == {} && !s.flags.authenticated
            && ResumeReconnecting(s, false) == s
  {
    RunKeepsInv(states, events, i);
    CrashedBecomesOwner(states[i], events[i].r);
    StrandedStays(states, events, i + 1, j);
    RunKeepsInv(states, events, j);
  }

  lemma CrashedBecomesOwner(s: State, r: nat)
    requires Inv(s) && ReaderEnabled(s, r, ReconnectCrashed)
    ensures ReaderApply(s, r, ReconnectCrashed).messageLoopTask == Some(r)
    ensures HasCrashed(ReaderApply(s, r, ReconnectCrashed), r)
  {
    assert Live(s, r);
  }

  // ---- Backoff ----

  function Pow2(k: nat): real { if k == 0 then 1.0 else 2.0 * Pow2(k - 1) }

  /** The wait after `k` cycles in a row without a complete status. */
  function Delay(c: Config, k: nat): real { Min(c.delayMin * Pow2(k), c.delayMax) }

  predicate CompletesStatus(s: State, e: Event) {
    e.InReader? && e.reader.FrameHandled? &&
    (e.reader.effect == FullStatus(false) || (e.reader.effect.DeltaStatus? && !s.flags.streaming))
  }

  /** The retries counted after one more step. */
  function MissesAfter(s: State, e: Event, k: nat): nat {
    if CompletesStatus(s, e) || (e.InReader? && e.reader.ReaderStarted?) then 0
    else if e.InReader? && e.reader.BackoffOver? then k + 1
    else k
  }

  /** Retries since the last complete status, or since this loop began. */
  ghost function Misses(states: seq<State>, events: seq<Event>, i: nat): nat
    requires IsRun(states, events) && i < |states|
  {
    if i == 0 then 0 else MissesAfter(states[i - 1], events[i - 1], Misses(states, events, i - 1))
  }

  lemma DelayGrows(c: Config, k: nat)
    requires ValidConfig(c)
    ensures c.delayMin <= Delay(c, k) <= c.delayMax
    ensures Delay(c, k + 1) == Min(Delay(c, k) * 2.0, c.delayMax)
    ensures Delay(c, 0) == c.delayMin
  {
    Pow2AtLeastOne(k);
    assert c.delayMin * Pow2(k + 1) == 2.0 * (c.delayMin * Pow2(k));
    assert c.delayMin * Pow2(k) >= c.delayMin * 1.0;
  }

  lemma {:induction false} Pow2AtLeastOne(k: nat)
    ensures Pow2(k) >= 1.0
  {
    if k > 0 { Pow2AtLeastOne(k - 1); }
  }

  lemma DelayFollowsStep(s: State, e: Event, k: nat)
    requires Inv(s) && Enabled(s, e) && s.reconnectDelay == Delay(s.config, k)
    ensures Apply(s, e).reconnectDelay == Delay(s.config, MissesAfter(s, e, k))
  {
    DelayStep(s, e);
    DelayGrows(s.config, k);
  }

  lemma DelayFollowsAt(states: seq<State>, events: seq<Event>, i: nat, k: nat)
    requires IsRun(states, events) && i < |events| && states[i].reconnectDelay == Delay(states[0].config, k)
    ensures states[i + 1].reconnectDelay == Delay(states[0].config, MissesAfter(states[i], events[i], k))
  {
    ConfigKept(states, events, i);
    RunKeepsInv(states, events, i);
    DelayFollowsStep(states[i], events[i], k);
  }

  lemma {:induction false} DelayFollowsMisses(states: seq<State>, events: seq<Event>, i: nat)
    requires IsRun(states, events) && i < |states|
    ensures states[i].reconnectDelay == Delay(states[0].config, Misses(states, events, i))
  {
    if i == 0 {
      DelayGrows(states[0].config, 0);
    } else {
      DelayFollowsMisses(states, events, i - 1);
      DelayFollowsAt(states, events, i - 1, Misses(states, events, i - 1));
    }
  }

  /**
   In every state of every run the next wait is decided by the cycles that never reached a
   complete status, and by nothing else: delayMin doubled once for each, up to delayMax.
   A reader already waiting waits exactly that long.
   */
  lemma BackoffLaw(states: seq<State>, events: seq<Event>, i: nat)
    requires IsRun(states, events) && i < |states|
    ensures var s := states[i];
            && s.config == states[0].config
            && s.reconnectDelay == Delay(s.config, Misses(states, events, i))
            && s.config.delayMin <= s.reconnectDelay <= s.config.delayMax
            && (forall r | 0 <= r < |s.readers| ::
                  Live(s, r) && s.readers[r].pc.Backoff? ==> s.readers[r].pc.delay == s.reconnectDelay)
  {
    DelayFollowsMisses(states, events, i);
    ConfigKept(states, events, i);
    RunKeepsInv(states, events, i);
  }

  /** What one step does to the next wait. */
  lemma DelayStep(s: State, e: Event)
    requires Inv(s) && Enabled(s, e)
    ensures Apply(s, e).config == s.config
    ensures Apply(s, e).reconnectDelay ==
            if CompletesStatus(s, e) || (e.InReader? && e.reader.ReaderStarted?) then s.config.delayMin
            else if e.InReader? && e.reader.BackoffOver? then Min(s.reconnectDelay * 2.0, s.config.delayMax)
            else s.reconnectDelay
  {
    if e.InReader? { ReaderDelay(s, e.r, e.reader); }
  }

  lemma ReaderDelay(s: State, r: nat, e: ReaderEvent)
    requires Inv(s) && ReaderEnabled(s, r, e)
    ensures ReaderApply(s, r, e).reconnectDelay ==
            if CompletesStatus(s, InReader(r, e)) || e.ReaderStarted? then s.config.delayMin
            else if e.BackoffOver? then Min(s.reconnectDelay * 2.0, s.config.delayMax)
            else s.reconnectDelay
  {
  }
}
