/**
 The protocol client on top of one reader: handshake with a fixed identity, split full status
 and live deltas, the property cache, and the commands awaiting an answer. One event is one
 uninterrupted block of the program; a frame arrives already parsed.
 */
module Client {
  import opened Wrappers
  import opened Lifecycle

  // ---- Frames ----

  /** A property value on the wire, and whether it can be turned into plain JSON. */
  datatype Reading = Readable(value: int) | Unreadable

  type Status = seq<(string, Reading)>

  datatype HashField = NoHash | KnownHash | UnknownHash | UnusableHash

  /** `serial` is None for anything that is no text; `status` for a frame without a status object. */
  datatype Frame =
    | Hello(serial: Option<string>)
    | AuthRequired(tokensUsable: bool, hash: HashField)
    | AuthSuccess
    | AuthError
    | FullStatusFrame(status: Option<Status>, partial: bool)
    | DeltaStatusFrame(status: Option<Status>)
    | Response(key: Option<nat>, success: bool, status: Option<Status>)
    | Unhandled

  // ---- State ----

  /** What became of the future a command waits on. */
  datatype Outcome = Waiting | Accepted | Rejected | Abandoned | GivenUp

  /** Where the caller of the command is. */
  datatype Phase = Sending | Awaiting | Returned | Raised

  datatype Command = Command(key: nat, outcome: Outcome, phase: Phase)

  datatype ClientState = ClientState(
    flags: Flags,
    serial: string,
    cache: map<string, int>,
    requestId: nat,
    pending: map<nat, nat>,  // correlation key to the command it was sent for
    commands: seq<Command>)

  function Fresh(serial: string): ClientState {
    ClientState(Flags(Usable, false, false, false, false, false, false, false, true), serial, map[], 0, map[], [])
  }

  // ---- Status ----

  /** The readable pairs, in order. */
  function Readables(status: Status): seq<(string, int)> {
    if status == [] then []
    else
      var (key, reading) := status[0];
      (if reading.Readable? then [(key, reading.value)] else []) + Readables(status[1..])
  }

  function Overlay(cache: map<string, int>, updates: seq<(string, int)>): map<string, int>
    decreases |updates|
  {
    if updates == [] then cache else Overlay(cache[updates[0].0 := updates[0].1], updates[1..])
  }

  function ApplyStatus(c: ClientState, status: Status): ClientState {
    c.(cache := Overlay(c.cache, Readables(status)))
  }

  /** The value of the last pair with this key. */
  function Newest(updates: seq<(string, int)>, key: string): Option<int> {
    if updates == [] then None
    else
      var last := updates[|updates| - 1];
      if last.0 == key then Some(last.1) else Newest(updates[..|updates| - 1], key)
  }

  /** The cache holds exactly the newest value of every key. */
  ghost predicate HoldsNewest(cache: map<string, int>, updates: seq<(string, int)>) {
    forall key :: Newest(updates, key) == if key in cache then Some(cache[key]) else None
  }

  // ---- Commands ----

  predicate Unfinished(command: Command) { command.phase.Sending? || command.phase.Awaiting? }

  function SetCommand(c: ClientState, x: nat, command: Command): ClientState
    requires x < |c.commands|
  {
    c.(commands := c.commands[x := command])
  }

  /** set_property(): a new request id, and for all but the keys never acknowledged a waiter. */
  function SetProperty(c: ClientState, waits: bool): ClientState {
    var id := c.requestId + 1;
    if !waits then c.(requestId := id)
    else c.(requestId := id, pending := c.pending[id := |c.commands|],
            commands := c.commands + [Command(id, Waiting, Sending)])
  }

  /** An answer reaches the waiter its id names, if that one still waits. */
  function Settle(c: ClientState, key: Option<nat>, outcome: Outcome): ClientState {
    if key.Some? && key.value in c.pending && c.pending[key.value] < |c.commands|
       && c.commands[c.pending[key.value]].outcome.Waiting?
    then SetCommand(c, c.pending[key.value], c.commands[c.pending[key.value]].(outcome := outcome))
    else c
  }

  /** The caller leaves _send_command(), its finally block included. */
  function Leave(c: ClientState, x: nat, outcome: Outcome, phase: Phase): ClientState
    requires x < |c.commands|
  {
    SetCommand(c, x, c.commands[x].(outcome := outcome, phase := phase)).(pending := c.pending - {c.commands[x].key})
  }

  function Abandon(c: ClientState, x: nat): Command
    requires x < |c.commands|
  {
    if c.commands[x].outcome.Waiting? && x in c.pending.Values then c.commands[x].(outcome := Abandoned)
    else c.commands[x]
  }

  /** _fail_pending_commands() */
  function Reset(c: ClientState): ClientState {
    c.(pending := map[], commands := seq(|c.commands|, x requires 0 <= x < |c.commands| => Abandon(c, x)))
  }

  /** The waiter table and the commands agree; ids are never reused. */
  ghost predicate TableMatches(c: ClientState) {
    && (forall x | 0 <= x < |c.commands| :: c.commands[x].key <= c.requestId)
    && (forall x, y | 0 <= x < y < |c.commands| :: c.commands[x].key != c.commands[y].key)
    && (forall key | key in c.pending ::
          c.pending[key] < |c.commands| && c.commands[c.pending[key]].key == key && Unfinished(c.commands[c.pending[key]]))
    && (forall x | 0 <= x < |c.commands| :: Unfinished(c.commands[x]) && c.commands[x].outcome.Waiting? ==>
          c.commands[x].key in c.pending && c.pending[c.commands[x].key] == x)
    && (forall x | 0 <= x < |c.commands| :: c.commands[x].phase.Returned? ==> c.commands[x].outcome.Accepted?)
  }

  // ---- Handling one frame ----

  function Refuse(c: ClientState, error: Fatal): ClientState { c.(flags := Fail(c.flags, error)) }

  function HandleHello(c: ClientState, serial: Option<string>): ClientState {
    if serial.None? || serial.value == "" then Refuse(c, Transient)
    else if c.serial != "" && c.serial != serial.value then Refuse(c, Final)
    else c.(serial := serial.value)
  }

  function HandleAuthRequired(c: ClientState, tokensUsable: bool, hash: HashField): ClientState {
    if c.serial == "" || !tokensUsable || hash.UnusableHash? then Refuse(c, Transient)
    else if hash.UnknownHash? then Refuse(c, Final)
    else c
  }

  function HandleResponse(c: ClientState, key: Option<nat>, success: bool, status: Option<Status>): ClientState {
    if success then Settle(if status.Some? then ApplyStatus(c, status.value) else c, key, Accepted)
    else Settle(c, key, Rejected)
  }

  function Handle(c: ClientState, frame: Frame): ClientState {
    match frame
    case Hello(serial) => HandleHello(c, serial)
    case AuthRequired(tokensUsable, hash) => HandleAuthRequired(c, tokensUsable, hash)
    case AuthSuccess => c.(flags := SetAuthenticated(c.flags, true))
    case AuthError => Refuse(c, Final)
    case FullStatusFrame(None, _) => c
    case FullStatusFrame(Some(status), partial) =>
      ApplyStatus(c, status).(flags := FullStatusFlags(c.flags, partial))
    case DeltaStatusFrame(None) => c
    case DeltaStatusFrame(Some(status)) => ApplyStatus(c.(flags := DeltaStatusFlags(c.flags)), status)
    case Response(key, success, status) => HandleResponse(c, key, success, status)
    case Unhandled => c
  }

  // ---- Events ----

  datatype ClientEvent =
    | FrameRead(frame: Frame)
    | Begun  // begin(): a new connection
    | Closed  // the last block of _close()
    | SignedOut  // the reader's frames or the reader itself ended
    | PropertySet(waits: bool)
    | SendDone(x: nat)
    | SendRaised(x: nat)
    | CallerWoken(x: nat)
    | TimedOut(x: nat)
    | CallerCancelled(x: nat)

  predicate ClientEnabled(c: ClientState, e: ClientEvent) {
    match e
    case SendDone(x) => x < |c.commands| && c.commands[x].phase.Sending?
    case SendRaised(x) => x < |c.commands| && c.commands[x].phase.Sending?
    case CallerWoken(x) => x < |c.commands| && c.commands[x].phase.Awaiting? && !c.commands[x].outcome.Waiting?
    case TimedOut(x) => x < |c.commands| && c.commands[x].phase.Awaiting? && c.commands[x].outcome.Waiting?
    case CallerCancelled(x) => x < |c.commands| && Unfinished(c.commands[x])
    case _ => true
  }

  function ClientApply(c: ClientState, e: ClientEvent): ClientState
    requires ClientEnabled(c, e)
  {
    match e
    case FrameRead(frame) => if c.flags.fatal.Usable? then Handle(c, frame) else c
    case Begun => Reset(c).(flags := ResetFlags(c.flags))
    case Closed => Reset(c).(flags := CloseFlags(c.flags))
    case SignedOut => c.(flags := SetAuthenticated(c.flags, false))
    case PropertySet(waits) => SetProperty(c, waits)
    case SendDone(x) => SetCommand(c, x, c.commands[x].(phase := Awaiting))
    case SendRaised(x) => Leave(c, x, c.commands[x].outcome, Raised)
    case CallerWoken(x) =>
      Leave(c, x, c.commands[x].outcome, if c.commands[x].outcome.Accepted? then Returned else Raised)
    case TimedOut(x) => Leave(c, x, GivenUp, Raised)
    case CallerCancelled(x) =>
      var givenUp := c.commands[x].phase.Awaiting? && c.commands[x].outcome.Waiting?;
      Leave(c, x, if givenUp then GivenUp else c.commands[x].outcome, Raised)
  }

  predicate ClientStepAt(states: seq<ClientState>, events: seq<ClientEvent>, i: nat)
    requires |states| == |events| + 1
  {
    i < |events| ==> ClientEnabled(states[i], events[i]) && states[i + 1] == ClientApply(states[i], events[i])
  }

  ghost predicate IsClientRun(states: seq<ClientState>, events: seq<ClientEvent>) {
    && |states| == |events| + 1
    && states[0] == Fresh(states[0].serial)
    && forall i: nat :: ClientStepAt(states, events, i)
  }

  // ---- The reader's view of a frame ----

  /** What the lifecycle sees of a frame. */
  function EffectOf(c: ClientState, frame: Frame): FrameEffect {
    match frame
    case Hello(serial) =>
      if serial.None? || serial.value == "" then Refused(false)
      else if c.serial != "" && c.serial != serial.value then Refused(true)
      else NoEffect
    case AuthRequired(tokensUsable, hash) =>
      if c.serial == "" || !tokensUsable || hash.UnusableHash? then Refused(false)
      else if hash.UnknownHash? then Refused(true)
      else NoEffect
    case AuthSuccess => SignedIn
    case AuthError => Refused(true)
    case FullStatusFrame(Some(_), partial) => FullStatus(partial)
    case DeltaStatusFrame(Some(_)) => DeltaStatus
    case _ => NoEffect
  }

  function EffectFlags(f: Flags, effect: FrameEffect): Flags {
    match effect
    case NoEffect => f
    case SignedIn => SetAuthenticated(f, true)
    case FullStatus(partial) => FullStatusFlags(f, partial)
    case DeltaStatus => DeltaStatusFlags(f)
    case Refused(final) => Fail(f, if final then Final else Transient)
  }

  lemma ReaderMovesFlags(s: State, r: nat, effect: FrameEffect)
    requires r < |s.readers| && s.readers[r].pc.Reading?
    ensures ReaderHandles(s, r, effect).flags == EffectFlags(s.flags, effect)
  {
  }

  lemma ClientMovesFlags(c: ClientState, frame: Frame)
    ensures Handle(c, frame).flags == EffectFlags(c.flags, EffectOf(c, frame))
  {
  }

  /** Handling a frame moves the flags exactly as the lifecycle's reader step does. */
  lemma HandlingIsAReaderStep(c: ClientState, frame: Frame, s: State, r: nat)
    requires r < |s.readers| && s.readers[r].pc.Reading? && s.flags == c.flags
    ensures Handle(c, frame).flags == ReaderHandles(s, r, EffectOf(c, frame)).flags
  {
    ReaderMovesFlags(s, r, EffectOf(c, frame));
    ClientMovesFlags(c, frame);
  }
}
