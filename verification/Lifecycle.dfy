/**
 The connection's lifecycle as a step relation.

 Every task has a program counter at its `await` points; the code between two
 awaits is one atomic step. Tasks: the shared opening attempt, the shared closing
 task, the reader with its reconnect loop, the readiness guards. Callers of open()
 and close() keep no state of their own: before their one atomic block they only
 wait, and afterwards they only await the shared task.

 Rules of the environment: a cancelled task's next step is its cancellation; a task
 woken by an event runs before a timer expires; the end of frame iteration means the
 socket is closed; a socket's close() leaves it closed even when it raises; connect()
 fails, or hands over a socket in the step that assigns it.
 */
module Lifecycle {
  import opened Wrappers

  // ---- State ----

  /** Why the connection cannot be used; only a final refusal ends the retries. */
  datatype Fatal = Usable | Transient | Final

  datatype Config = Config(autoReconnect: bool, delayMin: real, delayMax: real)

  /** How a reader ended: cancelled, by leaving its loop, or by an unforeseen exception. */
  datatype ReaderEnd = Cancelled | LeftLoop | Crashed

  datatype ReaderPc =
    | ReaderCreated
    | Reading(sock: nat)
    | Rejecting(sock: nat, target: nat)  // a handler awaits the close of the socket it refused
    | Backoff(delay: real)
    | Reconnecting
    | ReaderEnded(end: ReaderEnd)

  datatype Reader = Reader(pc: ReaderPc, cancelled: bool)

  /** Where _close() runs inside the attempt: before a fresh socket, or after a failure. */
  datatype CloseSite = Replacing | CleaningUp

  datatype AttemptPc =
    | NoAttempt
    | AttemptCreated
    | Finishing  // signed in already: awaits the full status only
    | StoppingReader(site: CloseSite, task: nat)
    | ClosingSocket(site: CloseSite, target: nat, failing: bool)
    | Connecting
    | AwaitAuth
    | AwaitInit
    | AttemptEnded(ok: bool)

  datatype Attempt = Attempt(pc: AttemptPc, hadReader: bool, cancelled: bool)

  datatype ClosingPc =
    | NoClosing
    | ClosingCreated
    | AwaitAttempt
    | AwaitReader(task: nat)
    | AwaitSocket(target: nat)
    | ClosingEnded

  datatype GuardPc = Watching | GuardClosing(target: nat) | GuardEnded

  /** `beside`: the socket it was started beside. */
  datatype Guard = Guard(pc: GuardPc, beside: nat, cancelled: bool)

  /**
   The state of sign-in, status and events. Each latch tells that its event was set since
   the attempt began to wait on it: such a waiter wakes even when the event is cleared first.
   */
  datatype Flags = Flags(
    fatal: Fatal,
    authenticated: bool,
    initialized: bool,
    streaming: bool,
    authEvent: bool,
    authLatch: bool,
    initEvent: bool,
    initLatch: bool,
    disconnectedEvent: bool)

  datatype State = State(
    config: Config,
    flags: Flags,
    socket: Option<nat>,
    messageLoopTask: Option<nat>,
    readinessGuard: Option<nat>,
    stopped: bool,
    closeCount: nat,
    reconnectDelay: real,
    // the tasks, and the sockets not yet closed
    attempt: Attempt,
    closing: ClosingPc,
    readers: seq<Reader>,
    guards: seq<Guard>,
    sockets: nat,  // how many were ever handed over; they are numbered from 0
    open: set<nat>)

  const IDLE := Attempt(NoAttempt, false, false)

  function Initial(config: Config): State {
    State(config, Flags(Usable, false, false, false, false, false, false, false, true),
          None, None, None, false, 0, config.delayMin, IDLE, NoClosing, [], [], 0, {})
  }

  predicate AttemptUnfinished(s: State) {
    !s.attempt.pc.NoAttempt? && !s.attempt.pc.AttemptEnded?
  }

  predicate ClosingUnfinished(s: State) {
    !s.closing.NoClosing? && !s.closing.ClosingEnded?
  }

  /** A reader that is neither over nor cancelled. */
  predicate Live(s: State, r: nat) {
    r < |s.readers| && !s.readers[r].cancelled && !s.readers[r].pc.ReaderEnded?
  }

  predicate LiveGuard(s: State, g: nat) {
    g < |s.guards| && !s.guards[g].cancelled && !s.guards[g].pc.GuardEnded?
  }

  /** No open() and no close() is on its way. */
  predicate AtRest(s: State) {
    !AttemptUnfinished(s) && !ClosingUnfinished(s)
  }

  /** What only the callers change. */
  predicate SameCalls(s: State, t: State) {
    t.stopped == s.stopped && t.closeCount == s.closeCount && t.config == s.config
  }

  /** Also the next wait, which only the own reader changes. */
  predicate SameCallsAndDelay(s: State, t: State) {
    && t.stopped == s.stopped && t.closeCount == s.closeCount && t.config == s.config
    && t.reconnectDelay == s.reconnectDelay
  }

  // ---- What the message handlers report ----

  function SetAuthEvent(f: Flags): Flags { f.(authEvent := true, authLatch := true) }

  function SetInitEvent(f: Flags): Flags { f.(initEvent := true, initLatch := true) }

  function SetAuthenticated(f: Flags, value: bool): Flags {
    if value then SetAuthEvent(f.(authenticated := true, disconnectedEvent := false))
    else f.(authenticated := false, authEvent := false, disconnectedEvent := true)
  }

  /** The full status is complete. */
  function CompleteFlags(f: Flags): Flags { SetInitEvent(f.(initialized := true)) }

  function FullStatusFlags(f: Flags, partial: bool): Flags {
    var f1 := f.(streaming := partial);
    if partial then f1 else CompleteFlags(f1)
  }

  function DeltaStatusFlags(f: Flags): Flags {
    if f.streaming then f else CompleteFlags(f)
  }

  function MarkInitialized(s: State): State {
    s.(flags := CompleteFlags(s.flags), reconnectDelay := s.config.delayMin)
  }

  function ReceiveFullStatus(s: State, partial: bool): State {
    var s1 := s.(flags := s.flags.(streaming := partial));
    if partial then s1 else MarkInitialized(s1)
  }

  function ReceiveDeltaStatus(s: State): State {
    if s.flags.streaming then s else MarkInitialized(s)
  }

  function Fail(f: Flags, error: Fatal): Flags {
    SetInitEvent(SetAuthEvent(SetAuthenticated(f.(fatal := error), false)))
  }

  function ResetFlags(f: Flags): Flags {
    f.(initialized := false, streaming := false, initEvent := false, authEvent := false, fatal := Usable)
  }

  function CloseFlags(f: Flags): Flags { SetAuthenticated(f, false).(initEvent := false) }

  function SignOut(s: State): (t: State)
    ensures SameCallsAndDelay(s, t) && t.attempt == s.attempt && t.closing == s.closing && t.sockets == s.sockets
    ensures t.messageLoopTask == s.messageLoopTask
  {
    s.(flags := SetAuthenticated(s.flags, false))
  }

  // ---- Blocks shared by several tasks ----

  function CancelReadinessGuard(s: State): (t: State)
    ensures SameCallsAndDelay(s, t) && t.attempt == s.attempt && t.closing == s.closing && t.sockets == s.sockets
  {
    match s.readinessGuard
    case None => s
    case Some(g) =>
      if g < |s.guards| then
        s.(guards := s.guards[g := s.guards[g].(cancelled := true)], readinessGuard := None)
      else s.(readinessGuard := None)
  }

  function Begin(s: State): (t: State)
    ensures SameCallsAndDelay(s, t) && t.attempt == s.attempt && t.closing == s.closing && t.sockets == s.sockets
  {
    CancelReadinessGuard(s).(flags := ResetFlags(s.flags))
  }

  function SpawnReader(s: State): (t: State)
    ensures SameCallsAndDelay(s, t) && t.attempt == s.attempt && t.closing == s.closing && t.sockets == s.sockets
  {
    s.(messageLoopTask := Some(|s.readers|), readers := s.readers + [Reader(ReaderCreated, false)])
  }

  /** _reader_owned(); `own` tells whether the attempt itself asks. */
  predicate ReaderOwned(s: State, own: bool) {
    s.messageLoopTask.Some? || (AttemptUnfinished(s) && !own)
  }

  function ResumeReconnecting(s: State, own: bool): (t: State)
    ensures SameCallsAndDelay(s, t) && t.attempt == s.attempt && t.closing == s.closing && t.sockets == s.sockets
  {
    if s.stopped || s.flags.fatal.Final? || ReaderOwned(s, own) || !s.config.autoReconnect then s
    else SpawnReader(s)
  }

  /** _close() up to its first await: the reader is cancelled and given up. */
  function StopReader(s: State): (t: State)
    ensures SameCallsAndDelay(s, t) && t.attempt == s.attempt && t.closing == s.closing && t.sockets == s.sockets
  {
    var s1 := CancelReadinessGuard(s).(messageLoopTask := None);
    match s.messageLoopTask
    case Some(r) =>
      if r < |s.readers| then s1.(readers := s.readers[r := s.readers[r].(cancelled := true)]) else s1
    case None => s1
  }

  /** _close() after its last await. */
  function FinishClose(s: State): (t: State)
    ensures SameCallsAndDelay(s, t) && t.attempt == s.attempt && t.closing == s.closing && t.sockets == s.sockets
  {
    s.(socket := None, flags := CloseFlags(s.flags))
  }

  /** connect() handed over a socket, the next one. */
  function GotSocket(s: State): (t: State)
    ensures SameCallsAndDelay(s, t) && t.attempt == s.attempt && t.closing == s.closing
  {
    s.(socket := Some(s.sockets), open := s.open + {s.sockets}, sockets := s.sockets + 1)
  }

  function SocketGone(s: State, sock: nat): State { s.(open := s.open - {sock}) }

  function SetReader(s: State, r: nat, pc: ReaderPc): State
    requires r < |s.readers|
  {
    s.(readers := s.readers[r := s.readers[r].(pc := pc)])
  }

  function SetGuard(s: State, g: nat, pc: GuardPc): State
    requires g < |s.guards|
  {
    s.(guards := s.guards[g := s.guards[g].(pc := pc)])
  }

  function SetAttempt(s: State, pc: AttemptPc): State {
    s.(attempt := s.attempt.(pc := pc))
  }

  function AttemptAwaitsAuth(s: State): State {
    SetAttempt(s, AwaitAuth).(flags := s.flags.(authLatch := s.flags.authEvent))
  }

  function AttemptAwaitsInit(s: State, pc: AttemptPc): State {
    SetAttempt(s, pc).(flags := s.flags.(initLatch := s.flags.initEvent))
  }

  // ---- The callers ----

  function CallOpen(s: State): State {
    var s1 := s.(stopped := false);
    if AttemptUnfinished(s) then s1 else s1.(attempt := IDLE.(pc := AttemptCreated))
  }

  function CallClose(s: State): State {
    var s1 := s.(stopped := true, closeCount := s.closeCount + 1);
    if ClosingUnfinished(s) then s1 else s1.(closing := ClosingCreated)
  }

  // ---- The opening attempt ----

  /** The except block of _open(), and the attempt's end. */
  function AttemptFails(s: State): (t: State)
    ensures SameCallsAndDelay(s, t) && t.closing == s.closing && t.sockets == s.sockets
    ensures t.attempt.pc == AttemptEnded(false)
    ensures t.attempt.hadReader == s.attempt.hadReader
  {
    SetAttempt(if s.attempt.hadReader then ResumeReconnecting(s, true) else s, AttemptEnded(false))
  }

  function AttemptConnects(s: State): (t: State)
    ensures SameCallsAndDelay(s, t) && t.closing == s.closing && t.sockets == s.sockets && t.attempt.pc == Connecting
    ensures t.attempt.hadReader == s.attempt.hadReader
  {
    SetAttempt(Begin(s), Connecting)
  }

  function AttemptClosed(s: State, site: CloseSite, failing: bool): (t: State)
    ensures SameCallsAndDelay(s, t) && t.closing == s.closing && t.sockets == s.sockets
    ensures t.attempt.pc != AttemptEnded(true)
    ensures t.attempt.hadReader == s.attempt.hadReader
  {
    if site.Replacing? && !failing then AttemptConnects(FinishClose(s)) else AttemptFails(FinishClose(s))
  }

  function AttemptClosesSocket(s: State, site: CloseSite, failing: bool): (t: State)
    ensures SameCallsAndDelay(s, t) && t.closing == s.closing && t.sockets == s.sockets
    ensures t.attempt.pc != AttemptEnded(true)
    ensures t.attempt.hadReader == s.attempt.hadReader
  {
    match s.socket
    case Some(t) => SetAttempt(s, ClosingSocket(site, t, failing))
    case None => AttemptClosed(s, site, failing)
  }

  function AttemptCloses(s: State, site: CloseSite): (t: State)
    ensures SameCallsAndDelay(s, t) && t.closing == s.closing && t.sockets == s.sockets
    ensures t.attempt.pc != AttemptEnded(true)
    ensures t.attempt.hadReader == s.attempt.hadReader
  {
    match s.messageLoopTask
    case Some(r) => SetAttempt(StopReader(s), StoppingReader(site, r))
    case None => AttemptClosesSocket(StopReader(s), site, false)
  }

  function AttemptBegins(s: State): (t: State)
    ensures SameCallsAndDelay(s, t) && t.closing == s.closing && t.sockets == s.sockets
  {
    var s1 := s.(attempt := s.attempt.(hadReader := s.messageLoopTask.Some?));
    if s.flags.authenticated then
      if s.flags.initialized then SetAttempt(s1, AttemptEnded(true)) else AttemptAwaitsInit(s1, Finishing)
    else if s.messageLoopTask.Some? then AttemptCloses(s1, Replacing)
    else AttemptConnects(s1)
  }

  function AttemptConnected(s: State): (t: State)
    ensures SameCallsAndDelay(s, t) && t.closing == s.closing
    ensures t.attempt.hadReader == s.attempt.hadReader
  {
    AttemptAwaitsAuth(SpawnReader(GotSocket(s)))
  }

  /** An event it waited on: a refusal ends the wait, otherwise the next wait or the end. */
  function AttemptRuns(s: State): (t: State)
    ensures SameCallsAndDelay(s, t) && t.closing == s.closing && t.sockets == s.sockets
    ensures t.attempt.hadReader == s.attempt.hadReader
  {
    if !s.flags.fatal.Usable? then AttemptCloses(s, CleaningUp)
    else if s.attempt.pc.AwaitAuth? then AttemptAwaitsInit(s, AwaitInit)
    else SetAttempt(s, AttemptEnded(true))
  }

  predicate AttemptWaits(s: State) {
    s.attempt.pc.Finishing? || s.attempt.pc.AwaitAuth? || s.attempt.pc.AwaitInit?
  }

  predicate AttemptWokenUp(s: State) {
    AttemptWaits(s) && (if s.attempt.pc.AwaitAuth? then s.flags.authLatch else s.flags.initLatch)
  }

  /** The cancellation reaches the attempt at the await where it stands. */
  function AttemptCancelled(s: State): (t: State)
    ensures SameCallsAndDelay(s, t) && t.closing == s.closing && t.sockets == s.sockets
    ensures (t.attempt.pc == AttemptEnded(true) ==> s.attempt.pc == AttemptEnded(true))
    ensures t.attempt.hadReader == s.attempt.hadReader
  {
    var s1 := s.(attempt := s.attempt.(cancelled := false));
    match s.attempt.pc
    case AttemptCreated => SetAttempt(s1, AttemptEnded(false))  // its body never ran
    case Finishing => AttemptCloses(s1, CleaningUp)
    case AwaitAuth => AttemptCloses(s1, CleaningUp)
    case AwaitInit => AttemptCloses(s1, CleaningUp)
    case Connecting => AttemptFails(s1)
    case StoppingReader(site, _) => AttemptClosesSocket(s1, site, true)
    case ClosingSocket(site, t, _) => AttemptClosed(SocketGone(s1, t), site, true)
    case _ => s
  }

  // ---- The closing task ----

  function ClosingClosed(s: State): (t: State)
    ensures SameCallsAndDelay(s, t) && t.attempt == s.attempt
  {
    FinishClose(s).(closing := ClosingEnded)
  }

  function ClosingClosesSocket(s: State): (t: State)
    ensures SameCallsAndDelay(s, t) && t.attempt == s.attempt
  {
    match s.socket
    case Some(t) => s.(closing := AwaitSocket(t))
    case None => ClosingClosed(s)
  }

  function ClosingCloses(s: State): (t: State)
    ensures SameCallsAndDelay(s, t) && t.attempt == s.attempt
  {
    match s.messageLoopTask
    case Some(r) => StopReader(s).(closing := AwaitReader(r))
    case None => ClosingClosesSocket(StopReader(s))
  }

  function ClosingBegins(s: State): (t: State)
    ensures SameCallsAndDelay(s, t) && t.attempt.pc == s.attempt.pc
  {
    if s.attempt.pc.NoAttempt? then ClosingCloses(s)
    else s.(attempt := s.attempt.(cancelled := s.attempt.cancelled || AttemptUnfinished(s)),
            closing := AwaitAttempt)
  }

  // ---- The reader ----

  /** _message_loop() from the end of the frames to its next await. */
  function AfterFrames(s: State, r: nat): (t: State)
    requires r < |s.readers|
    ensures SameCallsAndDelay(s, t) && t.attempt == s.attempt
    ensures t.messageLoopTask == s.messageLoopTask
  {
    if !s.config.autoReconnect || s.flags.fatal.Final? then SetReader(SignOut(s), r, ReaderEnded(LeftLoop))
    else SetReader(SignOut(s), r, Backoff(s.reconnectDelay))
  }

  function ReadFrames(s: State, r: nat): (t: State)
    requires r < |s.readers|
    ensures SameCallsAndDelay(s, t) && t.attempt == s.attempt
    ensures t.messageLoopTask == s.messageLoopTask
  {
    match s.socket
    case Some(t) => SetReader(s, r, Reading(t))
    case None => AfterFrames(s, r)
  }

  function ReaderBegins(s: State, r: nat): (t: State)
    requires r < |s.readers|
    ensures SameCalls(s, t) && t.attempt == s.attempt
    ensures t.messageLoopTask == s.messageLoopTask
  {
    ReadFrames(s.(reconnectDelay := s.config.delayMin), r)
  }

  /** What handling one frame does to the connection. */
  datatype FrameEffect = NoEffect | SignedIn | FullStatus(partial: bool) | DeltaStatus | Refused(final: bool)

  function ReaderHandles(s: State, r: nat, effect: FrameEffect): (t: State)
    requires r < |s.readers| && s.readers[r].pc.Reading?
    ensures SameCalls(s, t) && t.attempt == s.attempt
    ensures t.messageLoopTask == s.messageLoopTask
  {
    match effect
    case NoEffect => s
    case SignedIn => s.(flags := SetAuthenticated(s.flags, true))
    case FullStatus(partial) => ReceiveFullStatus(s, partial)
    case DeltaStatus => ReceiveDeltaStatus(s)
    case Refused(final) =>
      var s1 := s.(flags := Fail(s.flags, if final then Final else Transient));
      match s.socket
      case Some(t) => SetReader(s1, r, Rejecting(s.readers[r].pc.sock, t))
      case None => s1
  }

  function ReaderWakes(s: State, r: nat, delay: real): (t: State)
    requires r < |s.readers|
    ensures SameCalls(s, t) && t.attempt == s.attempt
    ensures t.messageLoopTask == s.messageLoopTask
  {
    SetReader(Begin(s.(reconnectDelay := Min(delay * 2.0, s.config.delayMax))), r, Reconnecting)
  }

  function ReaderConnected(s: State, r: nat): (t: State)
    requires r < |s.readers|
    ensures SameCallsAndDelay(s, t) && t.attempt == s.attempt
    ensures t.messageLoopTask == s.messageLoopTask
  {
    ReadFrames(GotSocket(s).(readinessGuard := Some(|s.guards|),
                             guards := s.guards + [Guard(Watching, s.sockets, false)]), r)
  }

  /** A cancelled reader: its finally block, unless its body never began. */
  function ReaderCancelled(s: State, r: nat): (t: State)
    requires r < |s.readers|
    ensures SameCallsAndDelay(s, t) && t.attempt == s.attempt
    ensures t.messageLoopTask == s.messageLoopTask
  {
    var s1 := SetReader(s, r, ReaderEnded(Cancelled));
    match s.readers[r].pc
    case ReaderCreated => s1
    case Rejecting(_, t) => SignOut(SocketGone(s1, t))
    case _ => SignOut(s1)
  }

  // ---- Steps, by task ----

  datatype CallerEvent = OpenCalled | CloseCalled | ResumeCalled | CallerCancelled

  predicate CallerEnabled(s: State, e: CallerEvent) {
    match e
    case OpenCalled => !ClosingUnfinished(s)
    case CallerCancelled => AttemptUnfinished(s)  // whoever started it still awaits it
    case _ => true
  }

  function CallerApply(s: State, e: CallerEvent): State {
    match e
    case OpenCalled => CallOpen(s)
    case CloseCalled => CallClose(s)
    case ResumeCalled => ResumeReconnecting(s, false)
    case CallerCancelled => s.(attempt := s.attempt.(cancelled := true))
  }

  datatype AttemptEvent =
    | Started | GotSocketFor | ConnectRaised | Woken | TimedOut
    | SawReaderEnd | SawSocketClosed(raised: bool) | SawCancel | Forgotten

  predicate AttemptEnabled(s: State, e: AttemptEvent) {
    var pc := s.attempt.pc;
    match e
    case SawCancel => AttemptUnfinished(s) && s.attempt.cancelled
    case Forgotten => pc.AttemptEnded?
    case Started => pc.AttemptCreated? && !s.attempt.cancelled
    case GotSocketFor => pc.Connecting? && !s.attempt.cancelled
    case ConnectRaised => pc.Connecting? && !s.attempt.cancelled
    case Woken => AttemptWokenUp(s) && !s.attempt.cancelled
    case TimedOut => AttemptWaits(s) && !AttemptWokenUp(s) && !s.attempt.cancelled
    case SawReaderEnd =>
      pc.StoppingReader? && !s.attempt.cancelled && pc.task < |s.readers| && s.readers[pc.task].pc.ReaderEnded?
    case SawSocketClosed(_) => pc.ClosingSocket? && !s.attempt.cancelled
  }

  function AttemptApply(s: State, e: AttemptEvent): State
    requires AttemptEnabled(s, e)
  {
    var pc := s.attempt.pc;
    match e
    case Started => AttemptBegins(s)
    case GotSocketFor => AttemptConnected(s)
    case ConnectRaised => AttemptFails(s)
    case Woken => AttemptRuns(s)
    case TimedOut => AttemptCloses(s, CleaningUp)
    case SawReaderEnd => AttemptClosesSocket(s, pc.site, false)
    case SawSocketClosed(raised) => AttemptClosed(SocketGone(s, pc.target), pc.site, pc.failing || raised)
    case SawCancel => AttemptCancelled(s)
    case Forgotten => s.(attempt := IDLE)
  }

  datatype ClosingEvent = ClosingStarted | SawAttemptEnd | ClosingSawReaderEnd | ClosingSawSocketClosed | ClosingForgotten

  predicate ClosingEnabled(s: State, e: ClosingEvent) {
    match e
    case ClosingStarted => s.closing.ClosingCreated?
    case SawAttemptEnd => s.closing.AwaitAttempt? && !AttemptUnfinished(s)
    case ClosingSawReaderEnd =>
      s.closing.AwaitReader? && s.closing.task < |s.readers| && s.readers[s.closing.task].pc.ReaderEnded?
    case ClosingSawSocketClosed => s.closing.AwaitSocket?
    case ClosingForgotten => s.closing.ClosingEnded?
  }

  function ClosingApply(s: State, e: ClosingEvent): State
    requires ClosingEnabled(s, e)
  {
    match e
    case ClosingStarted => ClosingBegins(s)
    case SawAttemptEnd => ClosingCloses(s)
    case ClosingSawReaderEnd => ClosingClosesSocket(s)
    case ClosingSawSocketClosed => ClosingClosed(SocketGone(s, s.closing.target))
    case ClosingForgotten => s.(closing := NoClosing)
  }

  datatype ReaderEvent =
    | ReaderStarted | FrameHandled(effect: FrameEffect) | FrameDropped | RejectDone | FramesEnded
    | BackoffOver | Reconnected | ReconnectRaised | ReconnectCrashed | ReaderSawCancel

  predicate ReaderEnabled(s: State, r: nat, e: ReaderEvent) {
    && r < |s.readers|
    && var pc := s.readers[r].pc;
       match e
       case ReaderSawCancel => s.readers[r].cancelled && !pc.ReaderEnded?
       case ReaderStarted => Live(s, r) && pc.ReaderCreated?
       case FrameHandled(_) => Live(s, r) && pc.Reading? && s.flags.fatal.Usable?
       case FrameDropped => Live(s, r) && pc.Reading? && !s.flags.fatal.Usable?
       case RejectDone => Live(s, r) && pc.Rejecting?
       case FramesEnded => Live(s, r) && pc.Reading?
       case BackoffOver => Live(s, r) && pc.Backoff? && !AttemptWokenUp(s)
       case _ => Live(s, r) && pc.Reconnecting?
  }

  function ReaderApply(s: State, r: nat, e: ReaderEvent): State
    requires ReaderEnabled(s, r, e)
  {
    var pc := s.readers[r].pc;
    match e
    case ReaderStarted => ReaderBegins(s, r)
    case FrameHandled(effect) => ReaderHandles(s, r, effect)
    case FrameDropped => AfterFrames(s, r)
    case RejectDone => SetReader(SocketGone(s, pc.target), r, Reading(pc.sock))
    case FramesEnded => AfterFrames(SocketGone(s, pc.sock), r)
    case BackoffOver => ReaderWakes(s, r, pc.delay)
    case Reconnected => ReaderConnected(s, r)
    case ReconnectRaised => ReadFrames(s, r)
    case ReconnectCrashed => SetReader(SignOut(s), r, ReaderEnded(Crashed))
    case ReaderSawCancel => ReaderCancelled(s, r)
  }

  datatype GuardEvent = GuardFired | GuardSawSocketClosed | GuardSatisfied | GuardSawCancel

  predicate GuardEnabled(s: State, g: nat, e: GuardEvent) {
    && g < |s.guards|
    && var pc := s.guards[g].pc;
       match e
       case GuardFired => LiveGuard(s, g) && pc.Watching? && !s.flags.initEvent && !AttemptWokenUp(s)
       case GuardSawSocketClosed => LiveGuard(s, g) && pc.GuardClosing?
       case GuardSatisfied => LiveGuard(s, g) && pc.Watching? && s.flags.initEvent
       case GuardSawCancel => s.guards[g].cancelled && !pc.GuardEnded?
  }

  function GuardApply(s: State, g: nat, e: GuardEvent): State
    requires GuardEnabled(s, g, e)
  {
    if e.GuardFired? && s.socket.Some? then SetGuard(s, g, GuardClosing(s.socket.value))
    else SetGuard(if s.guards[g].pc.GuardClosing? then SocketGone(s, s.guards[g].pc.target) else s, g, GuardEnded)
  }

  datatype Event =
    | Caller(call: CallerEvent)
    | InAttempt(attempt: AttemptEvent)
    | InClosing(closing: ClosingEvent)
    | InReader(r: nat, reader: ReaderEvent)
    | InGuard(g: nat, guard: GuardEvent)
    | PeerClosed(sock: nat)

  predicate Enabled(s: State, e: Event) {
    match e
    case Caller(c) => CallerEnabled(s, c)
    case InAttempt(a) => AttemptEnabled(s, a)
    case InClosing(c) => ClosingEnabled(s, c)
    case InReader(r, x) => ReaderEnabled(s, r, x)
    case InGuard(g, x) => GuardEnabled(s, g, x)
    case PeerClosed(sock) => true
  }

  function Apply(s: State, e: Event): State
    requires Enabled(s, e)
  {
    match e
    case Caller(c) => CallerApply(s, c)
    case InAttempt(a) => AttemptApply(s, a)
    case InClosing(c) => ClosingApply(s, c)
    case InReader(r, x) => ReaderApply(s, r, x)
    case InGuard(g, x) => GuardApply(s, g, x)
    case PeerClosed(sock) => SocketGone(s, sock)
  }

  // ---- Runs ----

  ghost predicate ValidConfig(c: Config) {
    0.0 <= c.delayMin <= c.delayMax
  }

  /** states[i] is the state before events[i]. */
  ghost predicate IsRun(states: seq<State>, events: seq<Event>) {
    && |states| == |events| + 1
    && ValidConfig(states[0].config)
    && states[0] == Initial(states[0].config)
    && forall i {:trigger events[i]} :: 0 <= i < |events| ==>
         Enabled(states[i], events[i]) && states[i + 1] == Apply(states[i], events[i])
  }
}
