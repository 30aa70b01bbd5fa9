/**
 Joint runs and the runs of their two sides; and what that says of a command: its answer comes over
 the socket it was sent on.
 */
module JointRuns {
  import opened Wrappers
  import opened Lifecycle
  import opened Client
  import opened Joint
  import opened Chunks

  // ---- Every run of the connection has its client ----

  /** A frame that has this effect on any client. */
  function FrameFor(effect: FrameEffect): Frame {
    match effect
    case NoEffect => Unhandled
    case SignedIn => AuthSuccess
    case FullStatus(partial) => FullStatusFrame(Some([]), partial)
    case DeltaStatus => DeltaStatusFrame(Some([]))
    case Refused(final) => if final then AuthError else Hello(None)
  }

  lemma FrameForHasEffect(c: ClientState, effect: FrameEffect)
    ensures EffectOf(c, FrameFor(effect)) == effect
  {
  }

  function WithFrame(e: Event): JointEvent {
    OfConnection(e, if e.InReader? && e.reader.FrameHandled? then FrameFor(e.reader.effect) else Unhandled)
  }

  lemma JointRunGrows(states: seq<Pair>, events: seq<JointEvent>, e: JointEvent)
    requires IsJointRun(states, events) && JointEnabled(states[|events|], e)
    ensures IsJointRun(states + [JointApply(states[|events|], e)], events + [e])
  {
    var grown, more := states + [JointApply(states[|events|], e)], events + [e];
    forall i: nat ensures JointStepAt(grown, more, i) {
      assert JointStepAt(states, events, i);
    }
  }

  /** The first `n` steps of a run, with a client that has that serial. */
  lemma {:induction false} RunHasItsClient(states: seq<State>, events: seq<Event>, serial: string, n: nat)
    returns (pairs: seq<Pair>, joint: seq<JointEvent>)
    requires IsRun(states, events) && n <= |events|
    ensures IsJointRun(pairs, joint) && |joint| == n && pairs[0].client == Fresh(serial)
    ensures forall i | 0 <= i < n :: joint[i] == WithFrame(events[i])
    ensures forall i | 0 <= i <= n :: pairs[i].connection == states[i]
  {
    if n == 0 {
      pairs, joint := [Pair(states[0], Fresh(serial))], [];
    } else {
      pairs, joint := RunHasItsClient(states, events, serial, n - 1);
      var e := WithFrame(events[n - 1]);
      if events[n - 1].InReader? && events[n - 1].reader.FrameHandled? {
        FrameForHasEffect(pairs[n - 1].client, events[n - 1].reader.effect);
      }
      assert JointEnabled(pairs[n - 1], e);
      JointRunGrows(pairs, joint, e);
      pairs, joint := pairs + [JointApply(pairs[n - 1], e)], joint + [e];
    }
  }

  // ---- The two sides of a joint run ----

  function ConnectionEvents(events: seq<JointEvent>): seq<Event> {
    if events == [] then []
    else
      var last := events[|events| - 1];
      ConnectionEvents(events[..|events| - 1]) + if last.OfConnection? then [last.e] else []
  }

  /** What each step calls the client for. */
  ghost function ClientEvents(states: seq<Pair>, events: seq<JointEvent>): seq<seq<ClientEvent>>
    requires IsJointRun(states, events)
  {
    seq(|events|, m requires 0 <= m < |events| => assert JointStepAt(states, events, m); JointCalls(states[m], events[m]))
  }

  lemma ClientEventsAt(states: seq<Pair>, events: seq<JointEvent>, m: nat)
    requires IsJointRun(states, events) && m < |events|
    ensures JointEnabled(states[m], events[m]) && states[m + 1] == JointApply(states[m], events[m])
    ensures ClientEvents(states, events)[m] == JointCalls(states[m], events[m])
  {
    assert JointStepAt(states, events, m);
  }

  function Clients(states: seq<Pair>): seq<ClientState> {
    seq(|states|, m requires 0 <= m < |states| => states[m].client)
  }

  lemma RunGrows(states: seq<State>, events: seq<Event>, e: Event)
    requires IsRun(states, events) && Enabled(states[|events|], e)
    ensures IsRun(states + [Apply(states[|events|], e)], events + [e])
  {
  }

  /** The connection's events of a joint run, by themselves, are a run to the same state. */
  lemma {:induction false} ConnectionSide(states: seq<Pair>, events: seq<JointEvent>, n: nat) returns (side: seq<State>)
    requires IsJointRun(states, events) && n <= |events|
    ensures IsRun(side, ConnectionEvents(events[..n])) && side[|side| - 1] == states[n].connection
  {
    if n == 0 {
      side := [states[0].connection];
    } else {
      side := ConnectionSide(states, events, n - 1);
      assert events[..n][..n - 1] == events[..n - 1];
      assert JointStepAt(states, events, n - 1);
      var e := events[n - 1];
      if e.OfConnection? {
        RunGrows(side, ConnectionEvents(events[..n - 1]), e.e);
        side := side + [states[n].connection];
      }
    }
  }

  lemma ClientRunGrows(states: seq<ClientState>, events: seq<ClientEvent>, e: ClientEvent)
    requires IsClientRun(states, events) && ClientEnabled(states[|events|], e)
    ensures IsClientRun(states + [ClientApply(states[|events|], e)], events + [e])
  {
    var grown, more := states + [ClientApply(states[|events|], e)], events + [e];
    forall i: nat ensures ClientStepAt(grown, more, i) {
      assert ClientStepAt(states, events, i);
    }
  }

  lemma {:induction false} TakingRuns(states: seq<ClientState>, events: seq<ClientEvent>, calls: seq<ClientEvent>)
    returns (grown: seq<ClientState>)
    requires IsClientRun(states, events) && AllFromConnection(calls)
    ensures IsClientRun(grown, events + calls) && states <= grown
    ensures grown[|grown| - 1] == TakeAll(states[|events|], calls)
    decreases |calls|
  {
    if calls == [] {
      assert events + calls == events;
      grown := states;
    } else {
      ClientRunGrows(states, events, calls[0]);
      grown := TakingRuns(states + [ClientApply(states[|events|], calls[0])], events + [calls[0]], calls[1..]);
      assert events + [calls[0]] + calls[1..] == events + calls;
    }
  }

  lemma SideGrows(p: Pair, e: JointEvent, side: seq<ClientState>, so: seq<ClientEvent>) returns (grown: seq<ClientState>)
    requires JointEnabled(p, e) && IsClientRun(side, so) && side[|so|] == p.client
    ensures IsClientRun(grown, so + JointCalls(p, e)) && side <= grown
    ensures grown[|grown| - 1] == JointApply(p, e).client
  {
    match e
    case OfConnection(x, frame) => grown := TakingRuns(side, so, Calls(p.connection, x, frame));
    case OfCaller(call) => ClientRunGrows(side, so, call); grown := side + [ClientApply(p.client, call)];
  }

  /** What the client takes of a joint run is a run of the client, through the client of each joint state. */
  lemma {:induction false} ClientSide(states: seq<Pair>, events: seq<JointEvent>, n: nat) returns (side: seq<ClientState>)
    requires IsJointRun(states, events) && n <= |events|
    ensures IsClientRun(side, Flat(ClientEvents(states, events)[..n]))
    ensures PassesThrough(side, ClientEvents(states, events)[..n], Clients(states)[..n + 1])
  {
    var chunks, clients := ClientEvents(states, events), Clients(states);
    if n == 0 {
      PassesAtFirst(chunks, clients);
      side := [states[0].client];
    } else {
      var before := ClientSide(states, events, n - 1);
      assert JointStepAt(states, events, n - 1);
      PassesToTheEnd(before, chunks[..n - 1], clients[..n]);
      side := SideGrows(states[n - 1], events[n - 1], before, Flat(chunks[..n - 1]));
      PassesFurther(before, chunks, clients, n - 1, side);
    }
  }
}
