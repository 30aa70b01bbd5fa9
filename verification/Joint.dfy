/**
 The connection and the client on top of it in one run. A step of the connection's tasks calls the
 client where the program does: for a frame, begin(), a reset and a sign-out. The callers of commands
 move beside it.
 */
module Joint {
  import opened Lifecycle
  import opened Client

  /** The events a command's caller has no part in. */
  predicate FromConnection(e: ClientEvent) {
    e.FrameRead? || e.Begun? || e.Closed? || e.SignedOut?
  }

  predicate AllFromConnection(calls: seq<ClientEvent>) {
    forall i | 0 <= i < |calls| :: FromConnection(calls[i])
  }

  predicate Frameless(calls: seq<ClientEvent>) {
    forall i | 0 <= i < |calls| :: FromConnection(calls[i]) && !calls[i].FrameRead?
  }

  // ---- What a step of the connection calls ----

  /** The last block of _close() in the attempt; before a fresh socket, begin() follows in the same step. */
  function ClosedCalls(site: CloseSite, failing: bool): (calls: seq<ClientEvent>)
    ensures Frameless(calls)
  {
    if site.Replacing? && !failing then [Closed, Begun] else [Closed]
  }

  function ClosesSocketCalls(s: State, site: CloseSite, failing: bool): (calls: seq<ClientEvent>)
    ensures Frameless(calls)
  {
    if s.socket.Some? then [] else ClosedCalls(site, failing)
  }

  function ClosesCalls(s: State, site: CloseSite): (calls: seq<ClientEvent>)
    ensures Frameless(calls)
  {
    if s.messageLoopTask.Some? then [] else ClosesSocketCalls(s, site, false)
  }

  function CancelledCalls(s: State): (calls: seq<ClientEvent>)
    ensures Frameless(calls)
  {
    match s.attempt.pc
    case Finishing => ClosesCalls(s, CleaningUp)
    case AwaitAuth => ClosesCalls(s, CleaningUp)
    case AwaitInit => ClosesCalls(s, CleaningUp)
    case StoppingReader(site, _) => ClosesSocketCalls(s, site, true)
    case ClosingSocket(site, _, _) => ClosedCalls(site, true)
    case _ => []
  }

  function BeginsCalls(s: State): (calls: seq<ClientEvent>)
    ensures Frameless(calls)
  {
    if s.flags.authenticated then []
    else if s.messageLoopTask.Some? then ClosesCalls(s, Replacing)
    else [Begun]
  }

  function AttemptCalls(s: State, e: AttemptEvent): (calls: seq<ClientEvent>)
    requires AttemptEnabled(s, e)
    ensures Frameless(calls)
  {
    var pc := s.attempt.pc;
    match e
    case Started => BeginsCalls(s)
    case Woken => if s.flags.fatal.Usable? then [] else ClosesCalls(s, CleaningUp)
    case TimedOut => ClosesCalls(s, CleaningUp)
    case SawReaderEnd => ClosesSocketCalls(s, pc.site, false)
    case SawSocketClosed(raised) => ClosedCalls(pc.site, pc.failing || raised)
    case SawCancel => CancelledCalls(s)
    case _ => []
  }

  function ClosingCalls(s: State, e: ClosingEvent): (calls: seq<ClientEvent>)
    ensures Frameless(calls)
  {
    var nothing := s.messageLoopTask.None? && s.socket.None?;
    match e
    case ClosingStarted => if s.attempt.pc.NoAttempt? && nothing then [Closed] else []
    case SawAttemptEnd => if nothing then [Closed] else []
    case ClosingSawReaderEnd => if s.socket.None? then [Closed] else []
    case ClosingSawSocketClosed => [Closed]
    case ClosingForgotten => []
  }

  function ReaderCalls(s: State, r: nat, e: ReaderEvent, frame: Frame): (calls: seq<ClientEvent>)
    requires ReaderEnabled(s, r, e)
    ensures AllFromConnection(calls)
    ensures !e.FrameHandled? ==> Frameless(calls)
  {
    match e
    case FrameHandled(_) => [FrameRead(frame)]
    case FrameDropped => [SignedOut]
    case FramesEnded => [SignedOut]
    case ReconnectCrashed => [SignedOut]
    case ReaderSawCancel => if s.readers[r].pc.ReaderCreated? then [] else [SignedOut]
    case ReaderStarted => if s.socket.None? then [SignedOut] else []
    case ReconnectRaised => if s.socket.None? then [SignedOut] else []
    case BackoffOver => [Begun]
    case RejectDone => []
    case Reconnected => []
  }

  function Calls(s: State, e: Event, frame: Frame): (calls: seq<ClientEvent>)
    requires Enabled(s, e)
    ensures AllFromConnection(calls)
    ensures !(e.InReader? && e.reader.FrameHandled?) ==> Frameless(calls)
  {
    match e
    case InAttempt(a) => AttemptCalls(s, a)
    case InClosing(c) => ClosingCalls(s, c)
    case InReader(r, x) => ReaderCalls(s, r, x, frame)
    case _ => []
  }

  // ---- Joint runs ----

  datatype Pair = Pair(connection: State, client: ClientState)

  /** A step of the connection's tasks, with what the frame says if it handles one; or of a command's caller. */
  datatype JointEvent = OfConnection(e: Event, frame: Frame) | OfCaller(call: ClientEvent)

  /** A handled frame has the effect that the client gives it. */
  predicate JointEnabled(p: Pair, e: JointEvent) {
    match e
    case OfConnection(x, frame) =>
      && Enabled(p.connection, x)
      && (x.InReader? && x.reader.FrameHandled? ==> x.reader.effect == EffectOf(p.client, frame))
    case OfCaller(call) => !FromConnection(call) && ClientEnabled(p.client, call)
  }

  function JointCalls(p: Pair, e: JointEvent): seq<ClientEvent>
    requires JointEnabled(p, e)
  {
    match e
    case OfConnection(x, frame) => Calls(p.connection, x, frame)
    case OfCaller(call) => [call]
  }

  function TakeAll(c: ClientState, calls: seq<ClientEvent>): ClientState
    requires AllFromConnection(calls)
    decreases |calls|
  {
    if calls == [] then c else TakeAll(ClientApply(c, calls[0]), calls[1..])
  }

  function JointApply(p: Pair, e: JointEvent): Pair
    requires JointEnabled(p, e)
  {
    match e
    case OfConnection(x, frame) =>
      Pair(Apply(p.connection, x), TakeAll(p.client, Calls(p.connection, x, frame)))
    case OfCaller(call) => p.(client := ClientApply(p.client, call))
  }

  predicate JointStepAt(states: seq<Pair>, events: seq<JointEvent>, i: nat)
    requires |states| == |events| + 1
  {
    i < |events| ==> JointEnabled(states[i], events[i]) && states[i + 1] == JointApply(states[i], events[i])
  }

  ghost predicate IsJointRun(states: seq<Pair>, events: seq<JointEvent>) {
    && |states| == |events| + 1
    && ValidConfig(states[0].connection.config)
    && states[0] == Pair(Initial(states[0].connection.config), Fresh(states[0].client.serial))
    && forall i: nat :: JointStepAt(states, events, i)
  }

  // ---- Flags on both sides ----

  /** Equal but for the latches, which belong to the attempt that waits. */
  predicate FlagsAgree(f: Flags, g: Flags) {
    && f.fatal == g.fatal && f.authenticated == g.authenticated
    && f.initialized == g.initialized && f.streaming == g.streaming
    && f.authEvent == g.authEvent && f.initEvent == g.initEvent && f.disconnectedEvent == g.disconnectedEvent
  }

  function FlagsMoved(f: Flags, e: ClientEvent): Flags {
    match e
    case Begun => ResetFlags(f)
    case Closed => CloseFlags(f)
    case SignedOut => SetAuthenticated(f, false)
    case _ => f
  }

  function FlagsAfter(f: Flags, calls: seq<ClientEvent>): Flags
    decreases |calls|
  {
    if calls == [] then f else FlagsAfter(FlagsMoved(f, calls[0]), calls[1..])
  }

  /** From `s` to `t` the flags move as these calls move them. */
  predicate MovesExactly(s: State, t: State, calls: seq<ClientEvent>) {
    t.flags == FlagsAfter(s.flags, calls)
  }

  /** The same, but for the latches. */
  predicate MovesAlike(s: State, t: State, calls: seq<ClientEvent>) {
    FlagsAgree(t.flags, FlagsAfter(s.flags, calls))
  }
}
