/** The answer to a command comes over the socket it was sent on. */
module SameSocket {
  import opened Wrappers
  import opened Lifecycle
  import opened LifecycleInvariant
  import opened LifecycleSafety
  import opened Client
  import opened CommandTheorems
  import opened Joint
  import opened JointRuns
  import opened Chunks

  predicate NoReset(calls: seq<ClientEvent>) {
    forall i | 0 <= i < |calls| :: !IsReset(calls[i])
  }

  lemma ResetsAreResets(site: CloseSite, failing: bool)
    ensures !NoReset(ClosedCalls(site, failing)) && !NoReset([Closed]) && !NoReset([Begun])
  {
    assert ClosedCalls(site, failing)[0] == [Closed][0] == Closed && [Begun][0] == Begun;
  }

  /** Nobody is about to be handed a socket. */
  ghost predicate NobodyConnects(s: State) {
    && !s.attempt.pc.Connecting?
    && (forall r | 0 <= r < |s.readers| :: Live(s, r) ==> !s.readers[r].pc.Reconnecting?)
  }

  lemma OpenMeansNobodyConnects(s: State)
    requires Inv(s) && s.open != {}
    ensures s.socket.Some? && NobodyConnects(s)
  {
  }

  /** The socket stays, and still nobody connects. */
  ghost predicate KeepsSocket(s: State, t: State) {
    t.socket == s.socket && NobodyConnects(t)
  }

  lemma ClosesSocketKeeps(s: State, site: CloseSite, failing: bool)
    requires NobodyConnects(s) && NoReset(ClosesSocketCalls(s, site, failing))
    ensures KeepsSocket(s, AttemptClosesSocket(s, site, failing))
  {
    ResetsAreResets(site, failing);
  }

  lemma ClosesKeeps(s: State, site: CloseSite)
    requires NobodyConnects(s) && NoReset(ClosesCalls(s, site))
    ensures KeepsSocket(s, AttemptCloses(s, site))
  {
    if s.messageLoopTask.None? { ClosesSocketKeeps(StopReader(s), site, false); }
  }

  lemma CancelledKeeps(s: State)
    requires NobodyConnects(s) && NoReset(CancelledCalls(s))
    ensures KeepsSocket(s, AttemptCancelled(s))
  {
    var s1 := s.(attempt := s.attempt.(cancelled := false));
    match s.attempt.pc
    case StoppingReader(site, _) => ClosesSocketKeeps(s1, site, true);
    case ClosingSocket(site, t, _) => ResetsAreResets(site, true);
    case Finishing => ClosesKeeps(s1, CleaningUp);
    case AwaitAuth => ClosesKeeps(s1, CleaningUp);
    case AwaitInit => ClosesKeeps(s1, CleaningUp);
    case _ =>
  }

  lemma AttemptKeeps(s: State, e: AttemptEvent)
    requires AttemptEnabled(s, e) && NobodyConnects(s) && NoReset(AttemptCalls(s, e))
    ensures KeepsSocket(s, AttemptApply(s, e))
  {
    var pc := s.attempt.pc;
    match e
    case Started => BeginsKeeps(s);
    case Woken => if !s.flags.fatal.Usable? { ClosesKeeps(s, CleaningUp); }
    case TimedOut => ClosesKeeps(s, CleaningUp);
    case SawReaderEnd => ClosesSocketKeeps(s, pc.site, false);
    case SawSocketClosed(raised) => ResetsAreResets(pc.site, pc.failing || raised);
    case SawCancel => CancelledKeeps(s);
    case Forgotten =>
  }

  lemma BeginsKeeps(s: State)
    requires NobodyConnects(s) && NoReset(BeginsCalls(s))
    ensures KeepsSocket(s, AttemptBegins(s))
  {
    ResetsAreResets(Replacing, false);
    if !s.flags.authenticated && s.messageLoopTask.Some? {
      ClosesKeeps(s.(attempt := s.attempt.(hadReader := true)), Replacing);
    }
  }

  lemma ClosingKeeps(s: State, e: ClosingEvent)
    requires ClosingEnabled(s, e) && NobodyConnects(s) && NoReset(ClosingCalls(s, e))
    ensures KeepsSocket(s, ClosingApply(s, e))
  {
    ResetsAreResets(Replacing, false);
  }

  lemma ReaderKeeps(s: State, r: nat, e: ReaderEvent, frame: Frame)
    requires ReaderEnabled(s, r, e) && NobodyConnects(s) && NoReset(ReaderCalls(s, r, e, frame))
    ensures KeepsSocket(s, ReaderApply(s, r, e))
  {
    ResetsAreResets(Replacing, false);
  }

  lemma StepKeepsSocket(s: State, e: Event, frame: Frame)
    requires Enabled(s, e) && NobodyConnects(s) && NoReset(Calls(s, e, frame))
    ensures KeepsSocket(s, Apply(s, e))
  {
    match e
    case InAttempt(a) => AttemptKeeps(s, a);
    case InClosing(c) => ClosingKeeps(s, c);
    case InReader(r, x) => ReaderKeeps(s, r, x, frame);
    case _ => OutsidersKeep(s, e);
  }

  lemma OutsidersKeep(s: State, e: Event)
    requires Enabled(s, e) && (e.Caller? || e.InGuard? || e.PeerClosed?) && NobodyConnects(s)
    ensures KeepsSocket(s, Apply(s, e))
  {
  }

  // ---- Over a joint run ----

  lemma {:induction false} JointRunKeepsInv(states: seq<Pair>, events: seq<JointEvent>, i: nat)
    requires IsJointRun(states, events) && i < |states|
    ensures Inv(states[i].connection)
  {
    if i == 0 {
      InitialInv(states[0].connection.config);
    } else {
      JointRunKeepsInv(states, events, i - 1);
      assert JointStepAt(states, events, i - 1);
      if events[i - 1].OfConnection? { StepKeepsInv(states[i - 1].connection, events[i - 1].e); }
    }
  }

  lemma JointStepKeepsSocket(p: Pair, e: JointEvent)
    requires JointEnabled(p, e) && NobodyConnects(p.connection) && NoReset(JointCalls(p, e))
    ensures KeepsSocket(p.connection, JointApply(p, e).connection)
  {
    if e.OfConnection? { StepKeepsSocket(p.connection, e.e, e.frame); }
  }

  lemma SocketStaysOnce(states: seq<Pair>, events: seq<JointEvent>, i: nat)
    requires IsJointRun(states, events) && i < |events| && NobodyConnects(states[i].connection)
    requires NoReset(ClientEvents(states, events)[i])
    ensures KeepsSocket(states[i].connection, states[i + 1].connection)
  {
    ClientEventsAt(states, events, i);
    JointStepKeepsSocket(states[i], events[i]);
  }

  /** With no reset from `i` on, the connection keeps the socket that was open there. */
  lemma {:induction false} SocketStays(states: seq<Pair>, events: seq<JointEvent>, i: nat, j: nat)
    requires IsJointRun(states, events) && i <= j < |states| && states[i].connection.open != {}
    requires forall m | i <= m < j :: NoReset(ClientEvents(states, events)[m])
    ensures states[i].connection.socket.Some? && KeepsSocket(states[i].connection, states[j].connection)
  {
    if i == j {
      JointRunKeepsInv(states, events, i);
      OpenMeansNobodyConnects(states[i].connection);
    } else {
      SocketStays(states, events, i, j - 1);
      SocketStaysOnce(states, events, j - 1);
    }
  }

  /** Handling a frame, a reader reads the current socket. */
  lemma FrameIsOfTheSocket(states: seq<Pair>, events: seq<JointEvent>, i: nat, r: nat, effect: FrameEffect, frame: Frame)
    requires IsJointRun(states, events) && i < |events|
    requires events[i] == OfConnection(InReader(r, FrameHandled(effect)), frame)
    ensures var s := states[i].connection;
            r < |s.readers| && s.readers[r].pc.Reading? && s.socket == Some(s.readers[r].pc.sock)
  {
    assert JointStepAt(states, events, i);
    JointRunKeepsInv(states, events, i);
    assert Live(states[i].connection, r);
  }

  // ---- Sent and answered ----

  lemma OnlyCallersSend(p: Pair, e: JointEvent, z: nat)
    requires JointEnabled(p, e) && z < |JointCalls(p, e)| && JointCalls(p, e)[z] == PropertySet(true)
    ensures e == OfCaller(PropertySet(true)) && z == 0
  {
  }

  lemma OnlyReadersHandle(p: Pair, e: JointEvent, z: nat)
    requires JointEnabled(p, e) && z < |JointCalls(p, e)| && JointCalls(p, e)[z].FrameRead?
    ensures e.OfConnection? && e.e.InReader? && e.e.reader.FrameHandled? && z == 0
    ensures JointCalls(p, e)[z] == FrameRead(e.frame)
  {
  }

  /** The command `x` is sent in this step. */
  predicate SentIn(p: Pair, e: JointEvent, x: nat) {
    e == OfCaller(PropertySet(true)) && |p.client.commands| == x
  }

  /** A reader handles an accepting answer with that key. */
  predicate AcceptedIn(e: JointEvent, key: nat) {
    && e.OfConnection? && e.e.InReader? && e.e.reader.FrameHandled?
    && e.frame.Response? && e.frame.key == Some(key) && e.frame.success
  }

  /** What the client takes of the first `n` steps, step by step. */
  ghost function Taken(states: seq<Pair>, events: seq<JointEvent>, n: nat): seq<seq<ClientEvent>>
    requires IsJointRun(states, events) && n <= |events|
  {
    ClientEvents(states, events)[..n]
  }

  lemma LocateSend(states: seq<Pair>, events: seq<JointEvent>, n: nat, side: seq<ClientState>, p: nat, x: nat)
    returns (sent: nat)
    requires IsJointRun(states, events) && n <= |events|
    requires PassesThrough(side, Taken(states, events, n), Clients(states)[..n + 1])
    requires p < |Flat(Taken(states, events, n))| && Sends(side[p], Flat(Taken(states, events, n))[p], x)
    ensures sent < n && Place(Taken(states, events, n), sent) == p
    ensures SentIn(states[sent], events[sent], x)
    ensures ClientEvents(states, events)[sent] == [PropertySet(true)]
  {
    sent := Locate(Taken(states, events, n), p);
    ClientEventsAt(states, events, sent);
    OnlyCallersSend(states[sent], events[sent], p - Place(Taken(states, events, n), sent));
  }

  lemma LocateAnswer(states: seq<Pair>, events: seq<JointEvent>, n: nat, c: ClientState, q: nat, key: nat)
    returns (answered: nat)
    requires IsJointRun(states, events) && n <= |events|
    requires q < |Flat(Taken(states, events, n))| && Answers(c, Flat(Taken(states, events, n))[q], key, true)
    ensures answered < n && Place(Taken(states, events, n), answered) == q
    ensures AcceptedIn(events[answered], key)
  {
    answered := Locate(Taken(states, events, n), q);
    ClientEventsAt(states, events, answered);
    OnlyReadersHandle(states[answered], events[answered], q - Place(Taken(states, events, n), answered));
  }

  lemma NoResetBetween(chunks: seq<seq<ClientEvent>>, a: nat, b: nat, p: nat, q: nat, m: nat)
    requires a < m < b < |chunks|
    requires p < Place(chunks, a) + |chunks[a]| && Place(chunks, b) <= q < |Flat(chunks)|
    requires forall k | p < k < q :: !IsReset(Flat(chunks)[k])
    ensures NoReset(chunks[m])
  {
    forall z | 0 <= z < |chunks[m]| ensures !IsReset(chunks[m][z]) {
      LiesBetween(chunks, a, b, p, q, m, z);
    }
  }

  lemma NoResetsBetween(chunks: seq<seq<ClientEvent>>, a: nat, b: nat, p: nat, q: nat)
    requires a < b < |chunks| && chunks[a] != [] && Place(chunks, a) == p && Place(chunks, b) == q && p < q < |Flat(chunks)|
    requires forall k | p < k < q :: !IsReset(Flat(chunks)[k])
    ensures forall m | a < m < b :: NoReset(chunks[m])
  {
    forall m | a < m < b ensures NoReset(chunks[m]) {
      NoResetBetween(chunks, a, b, p, q, m);
    }
  }

  /**
   Where the steps of a returned command lie in a joint run: the client's own run says which of its
   events they are, and no reset lies between those.
   */
  lemma SentAndAnswered(states: seq<Pair>, events: seq<JointEvent>, j: nat, x: nat) returns (sent: nat, answered: nat)
    requires IsJointRun(states, events) && j < |states| && x < |states[j].client.commands|
    requires states[j].client.commands[x].phase.Returned?
    ensures sent < answered < j && SentIn(states[sent], events[sent], x)
    ensures AcceptedIn(events[answered], states[j].client.commands[x].key)
    ensures forall m | sent <= m < answered :: NoReset(ClientEvents(states, events)[m])
  {
    var chunks := Taken(states, events, j);
    var side := ClientSide(states, events, j);
    PassesToTheEnd(side, chunks, Clients(states)[..j + 1]);
    var p, q := ReturnMeansAccepted(side, Flat(chunks), |Flat(chunks)|, x);
    sent := LocateSend(states, events, j, side, p, x);
    answered := LocateAnswer(states, events, j, side[q], q, states[j].client.commands[x].key);
    if answered <= sent { PlacesAscend(chunks, answered, sent); }
    NoResetsBetween(chunks, sent, answered, p, q);
  }

  /**
   A caller returns normally only from a command whose accepting answer a reader handled; and if a
   socket was open when it was sent, that reader read this very socket.
   */
  lemma AcceptedOverItsSocket(states: seq<Pair>, events: seq<JointEvent>, j: nat, x: nat)
    returns (sent: nat, answered: nat)
    requires IsJointRun(states, events) && j < |states| && x < |states[j].client.commands|
    requires states[j].client.commands[x].phase.Returned?
    ensures sent < answered < j && SentIn(states[sent], events[sent], x)
    ensures AcceptedIn(events[answered], states[j].client.commands[x].key)
    ensures var s, t, r := states[sent].connection, states[answered].connection, events[answered].e.r;
            && r < |t.readers| && t.readers[r].pc.Reading?
            && (s.open != {} ==> s.socket == Some(t.readers[r].pc.sock))
  {
    sent, answered := SentAndAnswered(states, events, j, x);
    var e := events[answered];
    FrameIsOfTheSocket(states, events, answered, e.e.r, e.e.reader.effect, e.frame);
    if states[sent].connection.open != {} { SocketStays(states, events, sent, answered); }
  }
}
