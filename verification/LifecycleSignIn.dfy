/** When an open() that returns normally leaves the connection signed in. */
module LifecycleSignIn {
  import opened Wrappers
  import opened Lifecycle
  import opened LifecycleInvariant
  import opened LifecycleSafety
  import opened LifecycleTheorems
  import opened Client

  // ---- What signs in and what ends it ----

  predicate SignInHandled(e: Event) {
    e.InReader? && e.reader == FrameHandled(SignedIn)
  }

  /** The frames ended, the charger refused, or a reader whose body had begun met its cancellation. */
  predicate EndsSignIn(s: State, e: Event) {
    && e.InReader?
    && match e.reader
       case FramesEnded => true
       case FrameHandled(effect) => effect.Refused?
       case ReaderSawCancel => e.r < |s.readers| && !s.readers[e.r].pc.ReaderCreated?
       case _ => false
  }

  /** The attempt's last wait begins: beside the socket it was handed, or on a connection signed in already. */
  predicate BeginsToWait(e: Event) {
    e == InAttempt(GotSocketFor) || e == InAttempt(Started)
  }

  /** In step `k`: by a frame, or before, as an attempt begun at `a` found it. */
  predicate SignedInAt(events: seq<Event>, a: nat, k: nat)
    requires k < |events|
  {
    SignInHandled(events[k]) || (k == a && events[k] == InAttempt(Started))
  }

  predicate NothingEndsIt(states: seq<State>, events: seq<Event>, k: nat, n: nat)
    requires n <= |events| < |states|
  {
    forall m | k < m < n :: !EndsSignIn(states[m], events[m])
  }

  /** Some step from `a` on signed in, and no later step before `n` ended that. */
  predicate SignedInSince(states: seq<State>, events: seq<Event>, a: nat, n: nat)
    requires n <= |events| < |states|
  {
    exists k | a <= k < n :: SignedInAt(events, a, k) && NothingEndsIt(states, events, k, n)
  }

  // ---- One step of the wait ----

  /** The attempt waits for the charger, or has just ended normally. */
  predicate Going(s: State) {
    AttemptWaits(s) || s.attempt.pc == AttemptEnded(true)
  }

  /** The connection is signed in after a step exactly if the step signed in, or it was and the step did not end it. */
  predicate MovesSignIn(s: State, e: Event)
    requires Enabled(s, e)
  {
    Apply(s, e).flags.authenticated <==> SignInHandled(e) || (s.flags.authenticated && !EndsSignIn(s, e))
  }

  lemma FrameMovesSignIn(s: State, r: nat, effect: FrameEffect)
    requires ReaderEnabled(s, r, FrameHandled(effect))
    ensures ReaderHandles(s, r, effect).flags.authenticated <==>
              effect.SignedIn? || (s.flags.authenticated && !effect.Refused?)
  {
    ReaderMovesFlags(s, r, effect);
  }

  lemma CancelledReaderSignsOut(s: State, r: nat)
    requires r < |s.readers|
    ensures ReaderCancelled(s, r).flags.authenticated <==> s.flags.authenticated && s.readers[r].pc.ReaderCreated?
  {
  }

  /** The own reader, when it is not at its frames, stands beside a connection that is signed out. */
  lemma LoopIsSignedOut(s: State, r: nat)
    requires OneReader(s) && ReaderMatches(s) && EventsAgree(s) && Live(s, r)
    requires s.readers[r].pc.Reading? ==> !s.flags.fatal.Usable?
    ensures !s.flags.authenticated
  {
    assert s.messageLoopTask == Some(r);
  }

  lemma AfterFramesSignsOut(s: State, r: nat)
    requires r < |s.readers|
    ensures !AfterFrames(s, r).flags.authenticated
  {
  }

  lemma ReadFramesStaysSignedOut(s: State, r: nat)
    requires r < |s.readers| && !s.flags.authenticated
    ensures !ReadFrames(s, r).flags.authenticated
  {
    AfterFramesSignsOut(s, r);
  }

  lemma LoopStaysSignedOut(s: State, r: nat, e: ReaderEvent)
    requires ReaderEnabled(s, r, e) && !e.FrameHandled? && !e.ReaderSawCancel? && !s.flags.authenticated
    ensures !ReaderApply(s, r, e).flags.authenticated
  {
    match e
    case ReaderStarted => ReadFramesStaysSignedOut(s.(reconnectDelay := s.config.delayMin), r);
    case Reconnected =>
      var guards := s.guards + [Guard(Watching, s.sockets, false)];
      ReadFramesStaysSignedOut(GotSocket(s).(readinessGuard := Some(|s.guards|), guards := guards), r);
    case ReconnectRaised => ReadFramesStaysSignedOut(s, r);
    case FrameDropped => AfterFramesSignsOut(s, r);
    case FramesEnded => AfterFramesSignsOut(SocketGone(s, s.readers[r].pc.sock), r);
    case RejectDone =>
    case BackoffOver =>
    case ReconnectCrashed =>
  }

  lemma ReaderMovesSignIn(s: State, r: nat, e: ReaderEvent)
    requires OneReader(s) && ReaderMatches(s) && EventsAgree(s) && ReaderEnabled(s, r, e)
    ensures MovesSignIn(s, InReader(r, e))
  {
    match e
    case FrameHandled(effect) => FrameMovesSignIn(s, r, effect);
    case ReaderSawCancel => CancelledReaderSignsOut(s, r);
    case FramesEnded => AfterFramesSignsOut(SocketGone(s, s.readers[r].pc.sock), r);
    case _ => LoopIsSignedOut(s, r); LoopStaysSignedOut(s, r, e);
  }

  /** Once it cleans up, the attempt neither waits on nor ends normally. */
  lemma CleaningUpIsNotGoing(s: State)
    ensures !Going(AttemptCloses(s, CleaningUp))
  {
  }

  lemma AttemptMovesSignIn(s: State, e: AttemptEvent)
    requires AttemptEnabled(s, e) && AttemptWaits(s) && Going(AttemptApply(s, e))
    ensures MovesSignIn(s, InAttempt(e))
  {
    CleaningUpIsNotGoing(s);
    CleaningUpIsNotGoing(s.(attempt := s.attempt.(cancelled := false)));
  }

  lemma WaitMovesSignIn(s: State, e: Event)
    requires Inv(s) && Enabled(s, e) && AttemptWaits(s) && Going(Apply(s, e))
    ensures MovesSignIn(s, e)
  {
    match e
    case InReader(r, x) => ReaderMovesSignIn(s, r, x);
    case InAttempt(a) => AttemptMovesSignIn(s, a);
    case InClosing(_) =>
    case Caller(_) =>
    case InGuard(_, _) =>
    case PeerClosed(_) =>
  }

  /** At the start of the wait only a connection found signed in is. */
  lemma WaitBeginsSignedIn(s: State, e: Event)
    requires Inv(s) && Enabled(s, e) && BeginsToWait(e) && Going(Apply(s, e))
    ensures Apply(s, e).flags.authenticated <==> e == InAttempt(Started)
  {
  }

  lemma OnlyEntriesBeginToWait(s: State, e: Event)
    requires Enabled(s, e) && AttemptWaits(Apply(s, e)) && !BeginsToWait(e)
    ensures AttemptWaits(s)
  {
  }

  // ---- The whole wait ----

  lemma SinceGrows(states: seq<State>, events: seq<Event>, a: nat, n: nat)
    requires a < n < |events| < |states|
    ensures SignedInSince(states, events, a, n + 1) <==>
              SignInHandled(events[n]) || (SignedInSince(states, events, a, n) && !EndsSignIn(states[n], events[n]))
  {
    if SignInHandled(events[n]) {
      assert SignedInAt(events, a, n) && NothingEndsIt(states, events, n, n + 1);
    } else {
      if SignedInSince(states, events, a, n) && !EndsSignIn(states[n], events[n]) {
        var k :| a <= k < n && SignedInAt(events, a, k) && NothingEndsIt(states, events, k, n);
        assert NothingEndsIt(states, events, k, n + 1);
      }
      if SignedInSince(states, events, a, n + 1) {
        var k :| a <= k < n + 1 && SignedInAt(events, a, k) && NothingEndsIt(states, events, k, n + 1);
        assert NothingEndsIt(states, events, k, n);
      }
    }
  }

  lemma SinceStarts(states: seq<State>, events: seq<Event>, a: nat)
    requires a < |events| < |states| && BeginsToWait(events[a])
    ensures SignedInSince(states, events, a, a + 1) <==> events[a] == InAttempt(Started)
  {
    if events[a] == InAttempt(Started) {
      assert SignedInAt(events, a, a) && NothingEndsIt(states, events, a, a + 1);
    }
  }

  lemma SignedInStep(states: seq<State>, events: seq<Event>, a: nat, n: nat)
    requires IsRun(states, events) && a < n < |events| && AttemptWaits(states[n]) && Going(states[n + 1])
    requires states[n].flags.authenticated <==> SignedInSince(states, events, a, n)
    ensures states[n + 1].flags.authenticated <==> SignedInSince(states, events, a, n + 1)
  {
    RunKeepsInv(states, events, n);
    WaitMovesSignIn(states[n], events[n]);
    SinceGrows(states, events, a, n);
  }

  lemma SignedInStart(states: seq<State>, events: seq<Event>, a: nat)
    requires IsRun(states, events) && a < |events| && BeginsToWait(events[a]) && Going(states[a + 1])
    ensures states[a + 1].flags.authenticated <==> SignedInSince(states, events, a, a + 1)
  {
    RunKeepsInv(states, events, a);
    WaitBeginsSignedIn(states[a], events[a]);
    SinceStarts(states, events, a);
  }

  /** All through the wait. */
  lemma {:induction false} SignedInExactly(states: seq<State>, events: seq<Event>, a: nat, n: nat)
    requires IsRun(states, events) && a < n <= |events| && BeginsToWait(events[a])
    requires forall m | a < m < n :: AttemptWaits(states[m])
    requires Going(states[n])
    ensures states[n].flags.authenticated <==> SignedInSince(states, events, a, n)
  {
    if n == a + 1 {
      SignedInStart(states, events, a);
    } else {
      SignedInExactly(states, events, a, n - 1);
      SignedInStep(states, events, a, n - 1);
    }
  }

  /** Every wait has begun somewhere. */
  lemma {:induction false} WaitBegan(states: seq<State>, events: seq<Event>, i: nat) returns (a: nat)
    requires IsRun(states, events) && i < |states| && AttemptWaits(states[i])
    ensures a < i && BeginsToWait(events[a]) && forall m | a < m <= i :: AttemptWaits(states[m])
  {
    assert i > 0;
    if BeginsToWait(events[i - 1]) {
      a := i - 1;
    } else {
      OnlyEntriesBeginToWait(states[i - 1], events[i - 1]);
      a := WaitBegan(states, events, i - 1);
    }
  }

  /**
   An attempt that ends normally leaves the connection signed in exactly if some step of its last wait
   signed in -- or it found the connection signed in -- and none since then ended the frames, refused,
   or cancelled a reader.
   */
  lemma OpenReturnsSignedInExactly(states: seq<State>, events: seq<Event>, i: nat) returns (a: nat)
    requires IsRun(states, events) && i < |events| && AttemptEndsNow(states[i], events[i], true)
    ensures a <= i && BeginsToWait(events[a]) && forall m | a < m <= i :: AttemptWaits(states[m])
    ensures states[i + 1].flags.authenticated <==> SignedInSince(states, events, a, i + 1)
  {
    RunKeepsInv(states, events, i);
    OkEnds(states[i], events[i]);
    if events[i] == InAttempt(Started) {
      a := i;
    } else {
      a := WaitBegan(states, events, i);
    }
    SignedInExactly(states, events, a, i + 1);
  }
}
