/** What every reachable state of the connection keeps. */
module LifecycleInvariant {
  import opened Wrappers
  import opened Lifecycle

  // ---- The invariant ----

  predicate AttemptInClose(s: State) {
    s.attempt.pc.StoppingReader? || s.attempt.pc.ClosingSocket?
  }

  predicate ClosingInClose(s: State) {
    s.closing.AwaitReader? || s.closing.AwaitSocket?
  }

  /** Some task is between the first and the last await of _close(). */
  predicate InClose(s: State) {
    AttemptInClose(s) || ClosingInClose(s)
  }

  /** The one reader that may act is the connection's own, and a given-up reader is a cancelled one. */
  ghost predicate OneReader(s: State) {
    && (s.messageLoopTask.Some? ==>
          s.messageLoopTask.value < |s.readers| && !s.readers[s.messageLoopTask.value].cancelled)
    && (forall r | 0 <= r < |s.readers| :: Live(s, r) ==> s.messageLoopTask == Some(r))
  }

  predicate OnlyCurrentSocketOpen(s: State) {
    && (s.socket.Some? ==> s.socket.value < s.sockets)
    && s.open <= (if s.socket.Some? then {s.socket.value} else {})
  }

  /** The own reader's program counter ties it to the socket and to the sign-in. */
  predicate ReaderMatches(s: State) {
    s.messageLoopTask.Some? && s.messageLoopTask.value < |s.readers| ==>
      match s.readers[s.messageLoopTask.value].pc
      case ReaderCreated => !s.flags.authenticated && (s.socket.Some? ==> s.flags.fatal.Usable?)
      case Reading(x) => s.socket == Some(x) && (!s.flags.fatal.Usable? ==> x !in s.open)
      case Rejecting(x, t) => s.socket == Some(x) && t == x && !s.flags.fatal.Usable?
      case Backoff(d) => s.open == {} && !s.flags.authenticated && d == s.reconnectDelay
      case Reconnecting => s.open == {} && !s.flags.authenticated && !s.flags.initialized && s.flags.fatal.Usable?
      case ReaderEnded(end) =>
        && s.open == {} && !s.flags.authenticated && !end.Cancelled?
        && (end.LeftLoop? ==> !s.config.autoReconnect || s.flags.fatal.Final?)
        && (end.Crashed? ==> !s.flags.initialized)
  }

  predicate PhasesExclude(s: State) {
    && (InClose(s) || s.attempt.pc.Connecting? ==> s.messageLoopTask.None?)
    && (ClosingInClose(s) ==> !AttemptUnfinished(s))
    && (ClosingUnfinished(s) ==> s.stopped)
    && (s.attempt.pc.Connecting? ==> s.flags.fatal.Usable?)
    && (AttemptWaits(s) ==> s.messageLoopTask.Some?)
    && (s.messageLoopTask.None? && !InClose(s) ==> s.socket.None? && !s.flags.authenticated)
    && (s.stopped && !ClosingUnfinished(s) ==> !AttemptUnfinished(s) && s.messageLoopTask.None?)
    && (s.attempt.pc.ClosingSocket? ==> s.socket == Some(s.attempt.pc.target))
    && (s.closing.AwaitSocket? ==> s.socket == Some(s.closing.target))
    && (s.attempt.pc.StoppingReader? ==> s.attempt.pc.task < |s.readers| && s.readers[s.attempt.pc.task].cancelled)
    && (s.closing.AwaitReader? ==> s.closing.task < |s.readers| && s.readers[s.closing.task].cancelled)
  }

  ghost predicate OneGuard(s: State) {
    && (s.readinessGuard.Some? ==> s.readinessGuard.value < |s.guards|)
    && (forall g | 0 <= g < |s.guards| :: LiveGuard(s, g) ==> s.readinessGuard == Some(g))
    && (forall g | 0 <= g < |s.guards| :: s.guards[g].pc.GuardClosing? ==> s.guards[g].pc.target == s.guards[g].beside)
  }

  predicate GuardMatches(s: State) {
    s.readinessGuard.Some? && LiveGuard(s, s.readinessGuard.value) ==>
      && s.socket == Some(s.guards[s.readinessGuard.value].beside)
      && s.messageLoopTask.Some? && s.messageLoopTask.value < |s.readers|
      && (s.flags.initialized ==> s.flags.initEvent)
      && (var pc := s.readers[s.messageLoopTask.value].pc; !pc.ReaderCreated? && !pc.Reconnecting?)
  }

  /** How the flags, the events and the recorded refusal agree. */
  predicate EventsAgree(s: State) {
    && s.flags.disconnectedEvent == !s.flags.authenticated
    && (!s.flags.fatal.Usable? ==> !s.flags.authenticated)
    && (s.flags.authEvent ==> s.flags.authenticated || !s.flags.fatal.Usable?)
    && (s.flags.initEvent ==> s.flags.initialized || !s.flags.fatal.Usable?)
    && ((s.attempt.pc.Finishing? || s.attempt.pc.AwaitInit?) && s.flags.initLatch ==>
          s.flags.initialized || !s.flags.fatal.Usable?)
  }

  predicate DelayInRange(s: State) {
    s.config.delayMin <= s.reconnectDelay <= s.config.delayMax
  }

  ghost predicate Inv(s: State) {
    && ValidConfig(s.config)
    && OneReader(s)
    && OnlyCurrentSocketOpen(s)
    && ReaderMatches(s)
    && PhasesExclude(s)
    && OneGuard(s)
    && GuardMatches(s)
    && EventsAgree(s)
    && DelayInRange(s)
  }

  lemma InitialInv(c: Config)
    requires ValidConfig(c)
    ensures Inv(Initial(c))
  {
  }

  /** No frame of socket `x` can be handled now: it is not the one read, or it was refused. */
  predicate Spent(s: State, x: nat) {
    && x < s.sockets
    && (s.socket == Some(x) && s.messageLoopTask.Some? && s.messageLoopTask.value < |s.readers| ==>
          || !s.flags.fatal.Usable?
          || s.readers[s.messageLoopTask.value].pc.Reconnecting?
          || s.readers[s.messageLoopTask.value].pc.ReaderEnded?)
  }
}
