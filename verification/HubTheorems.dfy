/** Coalescing loses nothing, and availability is announced without flapping. */
module HubTheorems {
  import opened Wrappers
  import opened Hub

  lemma HubStep(states: seq<World>, events: seq<HubEvent>, i: nat)
    requires IsHubRun(states, events) && i < |events|
    ensures HubEnabled(states[i], events[i]) && states[i + 1] == HubApply(states[i], events[i])
  {
    assert HubStepAt(states, events, i);
  }

  // ---- The buffer ----

  lemma {:induction false} PutFinds(pending: seq<(string, int)>, key: string, value: int, other: string)
    ensures Find(Put(pending, key, value), other) == if other == key then Some(value) else Find(pending, other)
  {
    if pending != [] && pending[0].0 != key {
      PutFinds(pending[1..], key, value, other);
      assert ([pending[0]] + Put(pending[1..], key, value))[1..] == Put(pending[1..], key, value);
    }
  }

  lemma {:induction false} PutKeys(pending: seq<(string, int)>, key: string, value: int)
    ensures forall pair :: pair in Put(pending, key, value) ==> pair == (key, value) || (pair in pending && pair.0 != key)
    requires OnePerKey(pending)
    ensures OnePerKey(Put(pending, key, value))
  {
    if pending == [] {
    } else if pending[0].0 == key {
      assert forall i | 0 < i < |pending| :: pending[i].0 != key;
    } else {
      PutKeys(pending[1..], key, value);
      var rest := Put(pending[1..], key, value);
      forall i | 0 <= i < |rest| ensures rest[i].0 != pending[0].0 {
        assert rest[i] in rest;
      }
    }
  }

  lemma {:induction false} FindMember(pending: seq<(string, int)>, i: nat)
    requires OnePerKey(pending) && i < |pending|
    ensures Find(pending, pending[i].0) == Some(pending[i].1)
  {
    if i > 0 { FindMember(pending[1..], i - 1); }
  }

  lemma {:induction false} FindIsMember(pending: seq<(string, int)>, key: string)
    ensures Find(pending, key).Some? ==> (key, Find(pending, key).value) in pending
    ensures Find(pending, key).None? ==> forall i | 0 <= i < |pending| :: pending[i].0 != key
  {
    if pending != [] && pending[0].0 != key { FindIsMember(pending[1..], key); }
  }

  // ---- A flush ----

  function Signals(items: seq<(string, int)>): seq<Signal> {
    seq(|items|, i requires 0 <= i < |items| => Property(items[i].0, items[i].1))
  }

  /** What delivering a list of pairs does: one signal each, in order, and nothing but entities change. */
  lemma {:induction false} DeliverAllSends(w: World, items: seq<(string, int)>)
    ensures var t := DeliverAll(w, items);
            && t.sent == w.sent + Signals(items)
            && |t.entities| == |w.entities|
            && t == w.(entities := t.entities, sent := t.sent)
    decreases |items|
  {
    if items == [] {
      assert w.sent + Signals(items) == w.sent;
    } else {
      var w1 := Deliver(w, items[0].0, items[0].1);
      DeliverAllSends(w1, items[1..]);
      assert Signals(items) == [Property(items[0].0, items[0].1)] + Signals(items[1..]);
      assert w1.sent + Signals(items[1..]) == w.sent + Signals(items);
    }
  }

  /** An entity that was to agree once its pair arrives agrees when all pairs have arrived. */
  lemma {:induction false} DeliverAllReaches(w: World, items: seq<(string, int)>, i: nat)
    requires i < |w.entities|
    requires forall j | 0 <= j < |items| :: Lookup(w.charger.cache, items[j].0) == Some(items[j].1)
    requires Upcoming(w.entities[i], items) == Lookup(w.charger.cache, w.entities[i].key)
    ensures i < |DeliverAll(w, items).entities|
    ensures var after := DeliverAll(w, items).entities[i];
            after.key == w.entities[i].key && after.value == Lookup(w.charger.cache, after.key)
    decreases |items|
  {
    if items != [] {
      var w1 := Deliver(w, items[0].0, items[0].1);
      var entity, entity1 := w.entities[i], w1.entities[i];
      assert entity1 == Receive(entity, w.charger.cache, items[0].0, items[0].1);
      FindIsMember(items[1..], entity.key);
      if Find(items[1..], entity.key).Some? {
        var pair := (entity.key, Find(items[1..], entity.key).value);
        assert pair in items;
      }
      DeliverAllReaches(w1, items[1..], i);
    }
  }

  /** A flush delivers every buffered key exactly once, with its newest value, and empties the buffer. */
  lemma FlushDelivers(w: World)
    requires BufferIsFresh(w)
    ensures var t := FlushPending(w);
            && t.pending == [] && BufferIsFresh(t)
            && t.sent == w.sent + Signals(w.pending)
            && |t.entities| == |w.entities|
            && t == w.(pending := [], entities := t.entities, sent := t.sent)
  {
    DeliverAllSends(w.(pending := []), w.pending);
  }

  /** After a flush whoever agreed with the client shows its value. */
  lemma FlushShowsTheCache(w: World, i: nat)
    requires BufferIsFresh(w) && i < |w.entities|
    requires Upcoming(w.entities[i], w.pending) == Lookup(w.charger.cache, w.entities[i].key)
    ensures i < |FlushPending(w).entities|
    ensures var after := FlushPending(w).entities[i];
            after.key == w.entities[i].key && after.value == Lookup(w.charger.cache, after.key)
  {
    DeliverAllReaches(w.(pending := []), w.pending, i);
  }

  lemma {:induction false} DeliverAllKeepsKeys(w: World, items: seq<(string, int)>, i: nat)
    requires i < |w.entities|
    ensures i < |DeliverAll(w, items).entities| && DeliverAll(w, items).entities[i].key == w.entities[i].key
    decreases |items|
  {
    if items != [] { DeliverAllKeepsKeys(Deliver(w, items[0].0, items[0].1), items[1..], i); }
  }

  lemma FlushKeepsAgreement(w: World, behind: iset<nat>)
    requires BufferIsFresh(w) && AgreesExcept(w, behind)
    ensures AgreesExcept(FlushPending(w), behind)
  {
    FlushDelivers(w);
    var t := FlushPending(w);
    forall i | 0 <= i < |t.entities| && i !in behind
      ensures Upcoming(t.entities[i], t.pending) == Lookup(t.charger.cache, t.entities[i].key)
    {
      DeliverAllKeepsKeys(w.(pending := []), w.pending, i);
      FlushShowsTheCache(w, i);
    }
  }

  // ---- Coalescing agrees with the client ----

  /** What every state keeps: a fresh buffer, and agreement at all places not behind. */
  ghost predicate Agrees(w: World, behind: iset<nat>) {
    BufferIsFresh(w) && AgreesExcept(w, behind) && forall i | i in behind :: i < |w.entities|
  }

  lemma UpdateKeepsAgreement(w: World, up: bool, behind: iset<nat>)
    requires Agrees(w, behind)
    ensures Agrees(UpdateAvailability(w, up), behind)
  {
    var w1 := w.(lastAvailable := Some(up));
    FlushDelivers(w1);
    FlushKeepsAgreement(w1, behind);
  }

  /** The places of the entities that show this key. */
  ghost function Showing(w: World, key: string): iset<nat> {
    iset i: nat | i < |w.entities| && w.entities[i].key == key
  }

  /** The places of the entities whose key is buffered. */
  ghost function Buffered(w: World): iset<nat> {
    iset i: nat | i < |w.entities| && Find(w.pending, w.entities[i].key).Some?
  }

  lemma PushAgrees(w: World, key: string, value: int, behind: iset<nat>)
    requires Agrees(w, behind) && w.controls.subscribed
    ensures Agrees(HubApply(w, Pushed(key, value)), behind - Showing(w, key))
  {
    var w1 := Store(w, key, value);
    var w2 := if w.coalesces then w1.(pending := Put(w.pending, key, value)) else Deliver(w1, key, value);
    PutKeys(w.pending, key, value);
    forall i | 0 <= i < |w2.pending| ensures Lookup(w2.charger.cache, w2.pending[i].0) == Some(w2.pending[i].1) {
      if w.coalesces && w2.pending[i] != (key, value) { assert w2.pending[i] in w.pending; }
    }
    forall i | 0 <= i < |w2.entities| && i !in behind - Showing(w, key)
      ensures Upcoming(w2.entities[i], w2.pending) == Lookup(w2.charger.cache, w2.entities[i].key)
    {
      PutFinds(w.pending, key, value, w.entities[i].key);
      assert !w.coalesces ==> w2.entities[i] == Receive(w.entities[i], w1.charger.cache, key, value);
    }
    UpdateKeepsAgreement(w2, Available(w2), behind - Showing(w, key));
  }

  lemma DisconnectAgrees(w: World, behind: iset<nat>)
    requires Agrees(w, behind)
    ensures Agrees(Disconnect(w), behind + Buffered(w))
  {
  }

  lemma AddedAgrees(w: World, key: string, companion: Option<string>, behind: iset<nat>)
    requires Agrees(w, behind)
    ensures Agrees(HubApply(w, EntityAdded(key, companion)), behind)
  {
    FindIsMember(w.pending, key);
    if Find(w.pending, key).Some? {
      var pair := (key, Find(w.pending, key).value);
      assert pair in w.pending;
    }
  }

  /**
   The places behind after one more event: a push nobody is subscribed to leaves the entities of its
   key behind, a disconnect those whose key it drops from the buffer; a push under a subscription
   catches up with its key; an entity that is added is never behind.
   */
  ghost function BehindAfter(w: World, e: HubEvent, behind: iset<nat>): iset<nat> {
    match e
    case Pushed(key, _) => if w.controls.subscribed then behind - Showing(w, key) else behind + Showing(w, key)
    case Disconnected => behind + Buffered(w)
    case ShutDown => behind + Buffered(w)
    case _ => behind
  }

  /** Which entities may have fallen behind the client. */
  ghost function Behind(states: seq<World>, events: seq<HubEvent>, i: nat): iset<nat>
    requires |states| == |events| + 1 && i <= |events|
  {
    if i == 0 then iset{} else BehindAfter(states[i - 1], events[i - 1], Behind(states, events, i - 1))
  }

  lemma StepAgrees(w: World, e: HubEvent, behind: iset<nat>)
    requires Agrees(w, behind) && HubEnabled(w, e)
    ensures Agrees(HubApply(w, e), BehindAfter(w, e, behind))
  {
    match e
    case Pushed(key, value) => if w.controls.subscribed { PushAgrees(w, key, value, behind); }
    case ConnectDone => UpdateKeepsAgreement(EndConnect(w), true, behind);
    case DisconnectEnded => UpdateKeepsAgreement(EndDisconnect(w), false, behind);
    case Checked => UpdateKeepsAgreement(w, Available(w), behind);
    case Flushed => FlushDelivers(w); FlushKeepsAgreement(w, behind);
    case Disconnected => DisconnectAgrees(w, behind);
    case ShutDown => DisconnectAgrees(w.(controls := w.controls.(retired := true)), behind);
    case EntityAdded(key, companion) => AddedAgrees(w, key, companion, behind);
    case _ =>
  }

  /**
   In every state of every run, each entity's value overlaid with the buffer is the client's value --
   save for those left behind by a push without a subscription or by a dropped buffer.
   */
  lemma {:induction false} CoalescingAgrees(states: seq<World>, events: seq<HubEvent>, i: nat)
    requires IsHubRun(states, events) && i < |states|
    ensures Agrees(states[i], Behind(states, events, i))
  {
    if i > 0 {
      CoalescingAgrees(states, events, i - 1);
      HubStep(states, events, i - 1);
      StepAgrees(states[i - 1], events[i - 1], Behind(states, events, i - 1));
    }
  }

  // ---- Who is not behind ----

  lemma UpdateKeepsKeys(w: World, up: bool, x: nat)
    requires x < |w.entities|
    ensures UpdateAvailability(w, up).entities[x].key == w.entities[x].key
  {
    DeliverAllKeepsKeys(w.(lastAvailable := Some(up), pending := []), w.pending, x);
  }

  /** An entity keeps its place and its key. */
  lemma StepKeepsKeys(w: World, e: HubEvent, x: nat)
    requires HubEnabled(w, e) && x < |w.entities|
    ensures x < |HubApply(w, e).entities| && HubApply(w, e).entities[x].key == w.entities[x].key
  {
    match e
    case Pushed(key, value) =>
      if w.controls.subscribed {
        var w1 := Store(w, key, value);
        var w2 := if w.coalesces then w1.(pending := Put(w.pending, key, value)) else Deliver(w1, key, value);
        UpdateKeepsKeys(w2, Available(w2), x);
      }
    case ConnectDone => UpdateKeepsKeys(EndConnect(w), true, x);
    case DisconnectEnded => UpdateKeepsKeys(EndDisconnect(w), false, x);
    case Checked => UpdateKeepsKeys(w, Available(w), x);
    case Flushed => DeliverAllKeepsKeys(w.(pending := []), w.pending, x);
    case _ =>
  }

  /** Neither a disconnect, nor a push of this key that nobody is subscribed to. */
  predicate Undisturbed(w: World, e: HubEvent, key: string) {
    !e.Disconnected? && !e.ShutDown? && (e.Pushed? && e.key == key ==> w.controls.subscribed)
  }

  /**
   An entity added at any moment, before or after dispatch starts, holds the client's value, or has
   it waiting in the buffer, in every state until it is disturbed.
   */
  lemma {:induction false} AddedAtAnyMoment(states: seq<World>, events: seq<HubEvent>, m: nat, i: nat)
    requires IsHubRun(states, events) && m < i < |states| && events[m].EntityAdded?
    requires forall k | m < k < i :: Undisturbed(states[k], events[k], events[m].key)
    ensures var x, s := |states[m].entities|, states[i];
            && x < |s.entities| && s.entities[x].key == events[m].key
            && Upcoming(s.entities[x], s.pending) == Lookup(s.charger.cache, events[m].key)
            && x !in Behind(states, events, i)
  {
    HubStep(states, events, i - 1);
    CoalescingAgrees(states, events, m);
    if m < i - 1 {
      AddedAtAnyMoment(states, events, m, i - 1);
      StepKeepsKeys(states[i - 1], events[i - 1], |states[m].entities|);
    }
    CoalescingAgrees(states, events, i);
  }

  /** After a key was replayed under a subscription no entity of it is behind, until the subscription ends. */
  lemma {:induction false} ReplayRestores(states: seq<World>, events: seq<HubEvent>, m: nat, i: nat, key: string)
    requires IsHubRun(states, events) && m < i < |states|
    requires events[m].Pushed? && events[m].key == key && states[m].controls.subscribed
    requires forall k | m < k < i :: !events[k].Disconnected? && !events[k].ShutDown?
    ensures states[i].controls.subscribed
    ensures forall x: nat | x in Behind(states, events, i) :: x < |states[i].entities| && states[i].entities[x].key != key
  {
    HubStep(states, events, i - 1);
    if m < i - 1 { ReplayRestores(states, events, m, i - 1, key); }
    StaysSubscribed(states[i - 1], events[i - 1]);
    CoalescingAgrees(states, events, i - 1);
    forall x: nat | x in Behind(states, events, i)
      ensures x < |states[i].entities| && states[i].entities[x].key != key
    {
      StepKeepsKeys(states[i - 1], events[i - 1], x);
    }
  }

  lemma StaysSubscribed(w: World, e: HubEvent)
    requires HubEnabled(w, e) && w.controls.subscribed && !e.Disconnected? && !e.ShutDown?
    ensures HubApply(w, e).controls.subscribed
  {
  }

  // ---- Coalescing refines pass-through ----

  /** The hub without a buffer, fed the same events; it has no flush timer. */
  ghost function PassThrough(events: seq<HubEvent>, i: nat): World
    requires i <= |events|
  {
    if i == 0 then Created(false)
    else
      var w, e := PassThrough(events, i - 1), events[i - 1];
      if e.Flushed? || !HubEnabled(w, e) then w else HubApply(w, e)
  }

  /** The same client, the same controls, the same entities -- the values shown apart. */
  ghost predicate InStep(w: World, p: World) {
    && !p.coalesces
    && p.charger == w.charger && p.controls == w.controls.(flushing := false)
    && |p.entities| == |w.entities|
    && w.lastAvailable == p.lastAvailable
    && (forall i | 0 <= i < |w.entities| :: w.entities[i].key == p.entities[i].key)
    && Announcements(w.sent) == Announcements(p.sent)
  }

  lemma {:induction false} SignalsAreNoAnnouncements(sent: seq<Signal>, items: seq<(string, int)>)
    ensures Announcements(sent + Signals(items)) == Announcements(sent)
  {
    if items == [] {
      assert sent + Signals(items) == sent;
    } else {
      var all, n := sent + Signals(items), |items| - 1;
      assert all[..|all| - 1] == sent + Signals(items[..n]);
      assert all[|all| - 1] == Property(items[n].0, items[n].1);
      SignalsAreNoAnnouncements(sent, items[..n]);
    }
  }

  lemma DeliverAnnouncesNothing(w: World, key: string, value: int)
    ensures Announcements(Deliver(w, key, value).sent) == Announcements(w.sent)
  {
    SignalsAreNoAnnouncements(w.sent, [(key, value)]);
    assert Signals([(key, value)]) == [Property(key, value)];
  }

  /** What one update of the availability sends: nothing, or the buffered values and then the news. */
  lemma UpdateSends(w: World, up: bool)
    ensures var t := UpdateAvailability(w, up);
            if w.lastAvailable == Some(up) then t == w
            else
              && t.sent == w.sent + (if up then Signals(w.pending) else []) + [Availability(up)]
              && t.pending == (if up then [] else w.pending)
              && Announcements(t.sent) == Announcements(w.sent) + [up]
              && (forall i | 0 <= i < |w.entities| :: t.entities[i].key == w.entities[i].key)
  {
    var w1 := w.(lastAvailable := Some(up));
    DeliverAllSends(w1.(pending := []), w.pending);
    SignalsAreNoAnnouncements(w.sent, w.pending);
    var before := w.sent + if up then Signals(w.pending) else [];
    assert (before + [Availability(up)])[..|before|] == before;
    assert !up ==> before == w.sent;
    forall i | 0 <= i < |w.entities|
      ensures UpdateAvailability(w, up).entities[i].key == w.entities[i].key
    {
      DeliverAllKeepsKeys(w1.(pending := []), w.pending, i);
    }
  }

  lemma UpdateInStep(w: World, p: World, up: bool)
    requires InStep(w, p)
    ensures InStep(UpdateAvailability(w, up), UpdateAvailability(p, up))
  {
    UpdateSends(w, up);
    UpdateSends(p, up);
  }

  lemma PushInStep(w: World, p: World, key: string, value: int)
    requires InStep(w, p)
    ensures InStep(HubApply(w, Pushed(key, value)), HubApply(p, Pushed(key, value)))
  {
    if w.controls.subscribed {
      var w1, p1 := Store(w, key, value), Store(p, key, value);
      var w2 := if w.coalesces then w1.(pending := Put(w.pending, key, value)) else Deliver(w1, key, value);
      var p2 := Deliver(p1, key, value);
      DeliverAnnouncesNothing(w1, key, value);
      DeliverAnnouncesNothing(p1, key, value);
      UpdateInStep(w2, p2, Available(w2));
    }
  }

  lemma FlushInStep(w: World, p: World)
    requires InStep(w, p)
    ensures InStep(FlushPending(w), p)
  {
    DeliverAllSends(w.(pending := []), w.pending);
    SignalsAreNoAnnouncements(w.sent, w.pending);
    forall i | 0 <= i < |w.entities| ensures FlushPending(w).entities[i].key == w.entities[i].key {
      DeliverAllKeepsKeys(w.(pending := []), w.pending, i);
    }
  }

  /** The steps that neither deliver nor announce anything. */
  predicate Silent(e: HubEvent) {
    !e.Pushed? && !e.ConnectDone? && !e.DisconnectEnded? && !e.Checked? && !e.Flushed?
  }

  lemma SilentInStep(w: World, p: World, e: HubEvent)
    requires InStep(w, p) && HubEnabled(w, e) && Silent(e)
    ensures HubEnabled(p, e) && InStep(HubApply(w, e), HubApply(p, e))
  {
    SilentSendsNothing(w, e);
    SilentSendsNothing(p, e);
    SilentControls(w, p, e);
    SilentEntities(w, e);
    SilentEntities(p, e);
  }

  lemma SilentControls(w: World, p: World, e: HubEvent)
    requires p.controls == w.controls.(flushing := false) && p.charger == w.charger && !p.coalesces
    requires HubEnabled(w, e) && Silent(e)
    ensures HubEnabled(p, e)
    ensures HubApply(p, e).controls == HubApply(w, e).controls.(flushing := false)
    ensures HubApply(p, e).charger == HubApply(w, e).charger
  {
  }

  lemma SilentEntities(w: World, e: HubEvent)
    requires HubEnabled(w, e) && Silent(e)
    ensures if e.EntityAdded?
            then HubApply(w, e).entities == w.entities + [Entity(e.key, e.companion, Lookup(w.charger.cache, e.key))]
            else HubApply(w, e).entities == w.entities
  {
  }

  lemma SilentSendsNothing(w: World, e: HubEvent)
    requires HubEnabled(w, e) && Silent(e)
    ensures HubApply(w, e).sent == w.sent && HubApply(w, e).lastAvailable == w.lastAvailable
    ensures HubApply(w, e).coalesces == w.coalesces
  {
  }

  lemma StepInStep(w: World, p: World, e: HubEvent)
    requires InStep(w, p) && HubEnabled(w, e)
    ensures if e.Flushed? then InStep(HubApply(w, e), p) else HubEnabled(p, e) && InStep(HubApply(w, e), HubApply(p, e))
  {
    match e
    case Pushed(key, value) => PushInStep(w, p, key, value);
    case ConnectDone => UpdateInStep(EndConnect(w), EndConnect(p), true);
    case DisconnectEnded => UpdateInStep(EndDisconnect(w), EndDisconnect(p), false);
    case Checked => UpdateInStep(w, p, Available(w));
    case Flushed => FlushInStep(w, p);
    case _ => SilentInStep(w, p, e);
  }

  lemma StepPassThroughAgrees(w: World, p: World, e: HubEvent, behind: iset<nat>)
    requires InStep(w, p) && HubEnabled(w, e) && HubEnabled(p, e) && Agrees(p, behind)
    ensures Agrees(HubApply(p, e), BehindAfter(w, e, behind))
  {
    StepAgrees(p, e, behind);
    if e.Pushed? { assert Showing(w, e.key) == Showing(p, e.key); }
  }

  /**
   Fed the same events, the coalescing hub makes the same announcements as the hub that passes every
   push on, and the value of an entity not left behind, overlaid with the buffer, is the value the
   other hub's entity shows.
   */
  lemma {:induction false} CoalescingRefinesPassThrough(states: seq<World>, events: seq<HubEvent>, i: nat)
    requires IsHubRun(states, events) && i < |states|
    ensures var w, p, behind := states[i], PassThrough(events, i), Behind(states, events, i);
            && InStep(w, p) && Agrees(p, behind)
            && (forall x | 0 <= x < |w.entities| ::
                  x !in behind ==> Upcoming(w.entities[x], w.pending) == p.entities[x].value)
  {
    if i > 0 {
      CoalescingRefinesPassThrough(states, events, i - 1);
      HubStep(states, events, i - 1);
      var w, p, e := states[i - 1], PassThrough(events, i - 1), events[i - 1];
      StepInStep(w, p, e);
      if !e.Flushed? { StepPassThroughAgrees(w, p, e, Behind(states, events, i - 1)); }
    }
    CoalescingAgrees(states, events, i);
  }
}
