/** Identity, initialisation and cache: the client's promises over whole runs. */
module ClientTheorems {
  import opened Lifecycle
  import opened Client

  lemma StepAt(states: seq<ClientState>, events: seq<ClientEvent>, i: nat)
    requires IsClientRun(states, events) && i < |events|
    ensures ClientEnabled(states[i], events[i]) && states[i + 1] == ClientApply(states[i], events[i])
  {
    assert ClientStepAt(states, events, i);
  }

  // ---- Refusal and identity ----

  /** A serial once known is the client's for good, whatever answers at its address later. */
  lemma {:induction false} SerialNeverChanges(states: seq<ClientState>, events: seq<ClientEvent>, i: nat, j: nat)
    requires IsClientRun(states, events) && i <= j < |states| && states[i].serial != ""
    ensures states[j].serial == states[i].serial
  {
    if i < j {
      SerialNeverChanges(states, events, i, j - 1);
      StepAt(states, events, j - 1);
    }
  }

  /** The serial that a handled hello reports, or none. */
  function Reported(c: ClientState, e: ClientEvent): string {
    if Handled(c, e) && e.frame.Hello? && e.frame.serial.Some? then e.frame.serial.value else ""
  }

  /** The serial given at the start, or else the first one reported. */
  function FirstSerial(states: seq<ClientState>, events: seq<ClientEvent>, i: nat): string
    requires |states| == |events| + 1 && i <= |events|
  {
    if i == 0 then states[0].serial
    else if FirstSerial(states, events, i - 1) != "" then FirstSerial(states, events, i - 1)
    else Reported(states[i - 1], events[i - 1])
  }

  lemma SerialStep(c: ClientState, e: ClientEvent)
    requires ClientEnabled(c, e)
    ensures ClientApply(c, e).serial == if c.serial != "" then c.serial else Reported(c, e)
  {
  }

  /** The client's serial is the one given, or else the first one a charger reported. */
  lemma {:induction false} SerialIsTheFirst(states: seq<ClientState>, events: seq<ClientEvent>, i: nat)
    requires IsClientRun(states, events) && i < |states|
    ensures states[i].serial == FirstSerial(states, events, i)
  {
    if i > 0 {
      SerialIsTheFirst(states, events, i - 1);
      StepAt(states, events, i - 1);
      SerialStep(states[i - 1], events[i - 1]);
    }
  }

  /** A hello that this client cannot go on with: no serial, or another charger's. */
  predicate BadHello(c: ClientState, frame: Frame) {
    && frame.Hello?
    && (frame.serial.None? || frame.serial.value == "" || (c.serial != "" && frame.serial.value != c.serial))
  }

  /** A request to sign in that it cannot answer: no serial yet, tokens or a hash that cannot be used or is unknown. */
  predicate BadAuthRequest(c: ClientState, frame: Frame) {
    && frame.AuthRequired?
    && (c.serial == "" || !frame.tokensUsable || frame.hash.UnusableHash? || frame.hash.UnknownHash?)
  }

  lemma EffectSigns(f: Flags, effect: FrameEffect)
    ensures EffectFlags(f, effect).authenticated <==> effect.SignedIn? || (f.authenticated && !effect.Refused?)
    ensures EffectFlags(f, effect).fatal ==
              if effect.Refused? then (if effect.final then Final else Transient) else f.fatal
  {
  }

  lemma EffectIs(c: ClientState, frame: Frame)
    ensures EffectOf(c, frame).SignedIn? <==> frame.AuthSuccess?
    ensures EffectOf(c, frame).Refused? <==> BadHello(c, frame) || BadAuthRequest(c, frame) || frame.AuthError?
    ensures EffectOf(c, frame) == Refused(true) <==>
              || (BadHello(c, frame) && frame.serial.Some? && frame.serial.value != "")
              || (BadAuthRequest(c, frame) && c.serial != "" && frame.tokensUsable && frame.hash.UnknownHash?)
              || frame.AuthError?
  {
  }

  /**
   Which handled frames refuse the connection, and which of those for good: another charger's serial,
   an unknown hash in a request that is usable otherwise, and rejected credentials.
   */
  lemma RefusesExactly(c: ClientState, e: ClientEvent)
    requires Handled(c, e)
    ensures var fatal := ClientApply(c, e).flags.fatal;
            && (!fatal.Usable? <==> BadHello(c, e.frame) || BadAuthRequest(c, e.frame) || e.frame.AuthError?)
            && (fatal.Final? <==>
                  || (BadHello(c, e.frame) && e.frame.serial.Some? && e.frame.serial.value != "")
                  || (BadAuthRequest(c, e.frame) && c.serial != "" && e.frame.tokensUsable && e.frame.hash.UnknownHash?)
                  || e.frame.AuthError?)
  {
    ClientMovesFlags(c, e.frame);
    EffectSigns(c.flags, EffectOf(c, e.frame));
    EffectIs(c, e.frame);
  }

  /** A handled frame that refuses the connection. */
  predicate Refuses(c: ClientState, e: ClientEvent) {
    Handled(c, e) && (BadHello(c, e.frame) || BadAuthRequest(c, e.frame) || e.frame.AuthError?)
  }

  /** A step that ends the sign-in. */
  predicate SignsOut(c: ClientState, e: ClientEvent) {
    e.Closed? || e.SignedOut? || Refuses(c, e)
  }

  predicate SignsIn(c: ClientState, e: ClientEvent) { Handled(c, e) && e.frame.AuthSuccess? }

  /** Some step before `i` signed in, and none since ended that. */
  ghost predicate SignedInSince(states: seq<ClientState>, events: seq<ClientEvent>, i: nat)
    requires |states| == |events| + 1 && i <= |events|
  {
    exists j | 0 <= j < i :: SignsIn(states[j], events[j]) && forall k | j < k < i :: !SignsOut(states[k], events[k])
  }

  lemma SignedInSinceStep(states: seq<ClientState>, events: seq<ClientEvent>, i: nat)
    requires |states| == |events| + 1 && 0 < i <= |events|
    ensures var c, e := states[i - 1], events[i - 1];
            SignedInSince(states, events, i) <==>
              SignsIn(c, e) || (SignedInSince(states, events, i - 1) && !SignsOut(c, e))
  {
    if SignedInSince(states, events, i - 1) && !SignsOut(states[i - 1], events[i - 1]) {
      var j :| 0 <= j < i - 1 && SignsIn(states[j], events[j])
        && forall k | j < k < i - 1 :: !SignsOut(states[k], events[k]);
      assert SignsIn(states[j], events[j]) && forall k | j < k < i :: !SignsOut(states[k], events[k]);
    }
  }

  lemma SignInStep(c: ClientState, e: ClientEvent)
    requires ClientEnabled(c, e)
    ensures ClientApply(c, e).flags.authenticated <==> SignsIn(c, e) || (c.flags.authenticated && !SignsOut(c, e))
  {
    if Handled(c, e) {
      ClientMovesFlags(c, e.frame);
      EffectSigns(c.flags, EffectOf(c, e.frame));
      EffectIs(c, e.frame);
    }
  }

  /** The client is signed in exactly if its credentials were accepted and nothing has ended that since. */
  lemma {:induction false} SignedInExactly(states: seq<ClientState>, events: seq<ClientEvent>, i: nat)
    requires IsClientRun(states, events) && i < |states|
    ensures states[i].flags.authenticated <==> SignedInSince(states, events, i)
  {
    if i > 0 {
      SignedInExactly(states, events, i - 1);
      StepAt(states, events, i - 1);
      SignInStep(states[i - 1], events[i - 1]);
      SignedInSinceStep(states, events, i);
    }
  }

  // ---- The events ----

  /** A handled status that completes: a chunk that is the last, or a delta outside a stream. */
  predicate Completes(c: ClientState, e: ClientEvent) {
    (Chunk(c, e) && !e.frame.partial) || (Delta(c, e) && !c.flags.streaming)
  }

  /**
   The events that waiters wait on: a sign-in sets the first, a complete status the second, a refusal
   both; begin() and a close clear both, and a sign-out the first.
   */
  lemma EventsStep(c: ClientState, e: ClientEvent)
    requires ClientEnabled(c, e)
    ensures var f, g := c.flags, ClientApply(c, e).flags;
            && g.authEvent == (if SignsIn(c, e) || Refuses(c, e) then true
                               else f.authEvent && !e.Begun? && !e.Closed? && !e.SignedOut?)
            && g.initEvent == (if Completes(c, e) || Refuses(c, e) then true
                               else f.initEvent && !e.Begun? && !e.Closed?)
            && (f.disconnectedEvent == !f.authenticated ==> g.disconnectedEvent == !g.authenticated)
  {
    if Handled(c, e) {
      ClientMovesFlags(c, e.frame);
      EffectSetsEvents(c.flags, EffectOf(c, e.frame));
      EffectIs(c, e.frame);
    }
  }

  lemma EffectSetsEvents(f: Flags, effect: FrameEffect)
    ensures var g := EffectFlags(f, effect);
            && g.authEvent == (f.authEvent || effect.SignedIn? || effect.Refused?)
            && g.initEvent == (f.initEvent || effect.Refused? || effect == FullStatus(false)
                               || (effect.DeltaStatus? && !f.streaming))
            && (f.disconnectedEvent == !f.authenticated ==> g.disconnectedEvent == !g.authenticated)
  {
  }

  /** From a recorded refusal until the next begin(), frames change nothing at all. */
  lemma {:induction false} RefusalHoldsUntilBegin(states: seq<ClientState>, events: seq<ClientEvent>, i: nat, j: nat)
    requires IsClientRun(states, events) && i <= j < |states| && !states[i].flags.fatal.Usable?
    requires forall k | i <= k < j :: events[k] != Begun
    ensures states[j].flags.fatal == states[i].flags.fatal && !states[j].flags.authenticated
    ensures states[j].cache == states[i].cache && states[j].serial == states[i].serial
  {
    if i == j {
      RefusedMeansSignedOut(states, events, i);
    } else {
      RefusalHoldsUntilBegin(states, events, i, j - 1);
      StepAt(states, events, j - 1);
    }
  }

  lemma {:induction false} RefusedMeansSignedOut(states: seq<ClientState>, events: seq<ClientEvent>, i: nat)
    requires IsClientRun(states, events) && i < |states|
    ensures !states[i].flags.fatal.Usable? ==> !states[i].flags.authenticated
  {
    if i > 0 {
      RefusedMeansSignedOut(states, events, i - 1);
      StepAt(states, events, i - 1);
      RefusalStep(states[i - 1], events[i - 1]);
    }
  }

  // ---- Initialisation ----

  /** The frame is handled, not dropped after a refusal. */
  predicate Handled(c: ClientState, e: ClientEvent) { e.FrameRead? && c.flags.fatal.Usable? }

  /** A chunk of the full status that can be read. */
  predicate Chunk(c: ClientState, e: ClientEvent) {
    Handled(c, e) && e.frame.FullStatusFrame? && e.frame.status.Some?
  }

  predicate Delta(c: ClientState, e: ClientEvent) {
    Handled(c, e) && e.frame.DeltaStatusFrame? && e.frame.status.Some?
  }

  /** How a status moves the flags: what the stream is after it, and whether it completes the status. */
  lemma FrameFlags(f: Flags, effect: FrameEffect)
    ensures var g := EffectFlags(f, effect);
            && g.streaming == (if effect.FullStatus? then effect.partial else f.streaming)
            && g.initialized == (f.initialized || effect == FullStatus(false) || (effect.DeltaStatus? && !f.streaming))
  {
  }

  /** One step's effect on the flags that a status moves. */
  lemma FlagsStep(c: ClientState, e: ClientEvent)
    requires ClientEnabled(c, e)
    ensures var f, g := c.flags, ClientApply(c, e).flags;
            && g.streaming == (if e.Begun? then false else if Chunk(c, e) then e.frame.partial else f.streaming)
            && g.initialized == (!e.Begun? &&
                 (f.initialized || (Chunk(c, e) && !e.frame.partial) || (Delta(c, e) && !f.streaming)))
  {
    if Handled(c, e) {
      ClientMovesFlags(c, e.frame);
      FrameFlags(c.flags, EffectOf(c, e.frame));
    }
  }

  lemma RefusalStep(c: ClientState, e: ClientEvent)
    requires ClientEnabled(c, e) && (!c.flags.fatal.Usable? ==> !c.flags.authenticated)
    ensures !ClientApply(c, e).flags.fatal.Usable? ==> !ClientApply(c, e).flags.authenticated
  {
    if Handled(c, e) { ClientMovesFlags(c, e.frame); }
  }

  /** Whether, at `i`, the latest chunk since begin() announced more to come. */
  ghost predicate StreamOpen(states: seq<ClientState>, events: seq<ClientEvent>, i: nat)
    requires |states| == |events| + 1 && i <= |events|
  {
    exists j | 0 <= j < i ::
      && Chunk(states[j], events[j]) && events[j].frame.partial
      && (forall k | j < k < i :: !events[k].Begun? && !Chunk(states[k], events[k]))
  }

  /** The frame that makes the status complete. */
  ghost predicate CompletesAt(states: seq<ClientState>, events: seq<ClientEvent>, i: nat)
    requires |states| == |events| + 1 && i < |events|
  {
    || (Chunk(states[i], events[i]) && !events[i].frame.partial)
    || (Delta(states[i], events[i]) && !StreamOpen(states, events, i))
  }

  /** The trace up to `i`: a stream is open if the last step opened it, or it was open and still is. */
  lemma StreamOpenStep(states: seq<ClientState>, events: seq<ClientEvent>, i: nat)
    requires |states| == |events| + 1 && 0 < i <= |events|
    ensures var c, e := states[i - 1], events[i - 1];
            StreamOpen(states, events, i) <==>
              if Chunk(c, e) then e.frame.partial else !e.Begun? && StreamOpen(states, events, i - 1)
  {
    var c, e := states[i - 1], events[i - 1];
    if !e.Begun? && !Chunk(c, e) && StreamOpen(states, events, i - 1) {
      var j :| 0 <= j < i - 1 && Chunk(states[j], events[j]) && events[j].frame.partial
        && (forall k | j < k < i - 1 :: !events[k].Begun? && !Chunk(states[k], events[k]));
      assert Chunk(states[j], events[j]) && forall k | j < k < i :: !events[k].Begun? && !Chunk(states[k], events[k]);
    }
  }

  lemma {:induction false} StreamingIsStreamOpen(states: seq<ClientState>, events: seq<ClientEvent>, i: nat)
    requires IsClientRun(states, events) && i < |states|
    ensures states[i].flags.streaming <==> StreamOpen(states, events, i)
  {
    if i > 0 {
      StreamingIsStreamOpen(states, events, i - 1);
      StepAt(states, events, i - 1);
      FlagsStep(states[i - 1], events[i - 1]);
      StreamOpenStep(states, events, i);
    }
  }

  /** Since the latest begin() before `i`, some frame completed the status. */
  ghost predicate Completed(states: seq<ClientState>, events: seq<ClientEvent>, i: nat)
    requires |states| == |events| + 1 && i <= |events|
  {
    exists j | 0 <= j < i :: CompletesAt(states, events, j) && forall k | j < k < i :: !events[k].Begun?
  }

  lemma CompletedStep(states: seq<ClientState>, events: seq<ClientEvent>, i: nat)
    requires |states| == |events| + 1 && 0 < i <= |events|
    ensures Completed(states, events, i) <==>
              CompletesAt(states, events, i - 1) || (!events[i - 1].Begun? && Completed(states, events, i - 1))
  {
    if !events[i - 1].Begun? && Completed(states, events, i - 1) {
      var j :| 0 <= j < i - 1 && CompletesAt(states, events, j) && forall k | j < k < i - 1 :: !events[k].Begun?;
      assert CompletesAt(states, events, j) && forall k | j < k < i :: !events[k].Begun?;
    }
  }

  /**
   `initialized` holds exactly when, since the latest begin(), a final status chunk was handled,
   or a delta while no partial stream was open.
   */
  lemma {:induction false} InitializedExactly(states: seq<ClientState>, events: seq<ClientEvent>, i: nat)
    requires IsClientRun(states, events) && i < |states|
    ensures states[i].flags.initialized <==> Completed(states, events, i)
  {
    if i > 0 {
      InitializedExactly(states, events, i - 1);
      StreamingIsStreamOpen(states, events, i - 1);
      StepAt(states, events, i - 1);
      FlagsStep(states[i - 1], events[i - 1]);
      CompletedStep(states, events, i);
    }
  }

  // ---- The cache ----

  /** The readable pairs a step applies to the cache. */
  function Applied(c: ClientState, e: ClientEvent): seq<(string, int)> {
    if !Handled(c, e) then []
    else match e.frame
      case FullStatusFrame(Some(status), _) => Readables(status)
      case DeltaStatusFrame(Some(status)) => Readables(status)
      case Response(_, true, Some(status)) => Readables(status)
      case _ => []
  }

  function Flatten(parts: seq<seq<(string, int)>>): seq<(string, int)> {
    if parts == [] then [] else Flatten(parts[..|parts| - 1]) + parts[|parts| - 1]
  }

  /** Every readable pair of every frame handled so far, frame by frame. */
  function Parts(states: seq<ClientState>, events: seq<ClientEvent>, i: nat): seq<seq<(string, int)>>
    requires |states| == |events| + 1 && i <= |events|
  {
    seq(i, k requires 0 <= k < i => Applied(states[k], events[k]))
  }

  function Updates(states: seq<ClientState>, events: seq<ClientEvent>, i: nat): seq<(string, int)>
    requires |states| == |events| + 1 && i <= |events|
  {
    Flatten(Parts(states, events, i))
  }

  lemma UpdatesGrow(states: seq<ClientState>, events: seq<ClientEvent>, i: nat)
    requires |states| == |events| + 1 && i < |events|
    ensures Updates(states, events, i + 1) == Updates(states, events, i) + Applied(states[i], events[i])
  {
    assert Parts(states, events, i + 1)[..i] == Parts(states, events, i);
  }

  lemma {:induction false} OverlayHoldsNewest(cache: map<string, int>, before: seq<(string, int)>,
                                              updates: seq<(string, int)>)
    requires HoldsNewest(cache, before)
    ensures HoldsNewest(Overlay(cache, updates), before + updates)
    decreases |updates|
  {
    if updates == [] {
      assert before + updates == before;
    } else {
      var cache1, before1 := cache[updates[0].0 := updates[0].1], before + [updates[0]];
      assert before1[..|before1| - 1] == before;
      assert before1 + updates[1..] == before + updates;
      OverlayHoldsNewest(cache1, before1, updates[1..]);
    }
  }

  lemma CacheStep(c: ClientState, e: ClientEvent)
    requires ClientEnabled(c, e)
    ensures ClientApply(c, e).cache == Overlay(c.cache, Applied(c, e))
  {
  }

  lemma {:induction false} CacheHoldsNewest(states: seq<ClientState>, events: seq<ClientEvent>, i: nat)
    requires IsClientRun(states, events) && i < |states|
    ensures HoldsNewest(states[i].cache, Updates(states, events, i))
  {
    if i > 0 {
      CacheHoldsNewest(states, events, i - 1);
      StepAt(states, events, i - 1);
      CacheStep(states[i - 1], events[i - 1]);
      UpdatesGrow(states, events, i - 1);
      OverlayHoldsNewest(states[i - 1].cache, Updates(states, events, i - 1), Applied(states[i - 1], events[i - 1]));
    }
  }

  lemma {:induction false} ReadablesHas(status: Status, p: nat)
    requires p < |status| && status[p].1.Readable?
    ensures (status[p].0, status[p].1.value) in Readables(status)
  {
    if p > 0 {
      ReadablesHas(status[1..], p - 1);
    }
  }

  lemma {:induction false} FlattenHas(parts: seq<seq<(string, int)>>, j: nat, pair: (string, int))
    requires j < |parts| && pair in parts[j]
    ensures pair in Flatten(parts)
  {
    var n := |parts| - 1;
    if j < n { FlattenHas(parts[..n], j, pair); }
  }

  lemma {:induction false} MemberHasNewest(updates: seq<(string, int)>, pair: (string, int))
    requires pair in updates
    ensures Newest(updates, pair.0).Some?
  {
    var last := updates[|updates| - 1];
    if last.0 != pair.0 {
      assert updates == updates[..|updates| - 1] + [last];
      MemberHasNewest(updates[..|updates| - 1], pair);
    }
  }

  /**
   When the status is complete, every key of every chunk handled before is in the cache; a value
   that could not be read took none of its neighbours with it.
   */
  lemma NoNeighbourIsLost(states: seq<ClientState>, events: seq<ClientEvent>, j: nat, i: nat, p: nat)
    requires IsClientRun(states, events) && j < i < |states|
    requires Chunk(states[j], events[j]) && p < |events[j].frame.status.value|
    requires events[j].frame.status.value[p].1.Readable?
    ensures events[j].frame.status.value[p].0 in states[i].cache
  {
    var status := events[j].frame.status.value;
    ReadablesHas(status, p);
    FlattenHas(Parts(states, events, i), j, (status[p].0, status[p].1.value));
    MemberHasNewest(Updates(states, events, i), (status[p].0, status[p].1.value));
    CacheHoldsNewest(states, events, i);
  }
}
