/** What the hub announces about the charger, when, and what it never announces. */
module HubAvailability {
  import opened Wrappers
  import opened Hub
  import opened HubTheorems

  // ---- One step's announcement ----

  /** What a step finds out about the charger, if it asks at all. */
  function Finding(w: World, e: HubEvent): Option<bool> {
    match e
    case Pushed(_, _) => if w.controls.subscribed then Some(Available(w)) else None
    case Checked => Some(Available(w))
    case ConnectDone => Some(true)
    case DisconnectEnded => Some(false)
    case _ => None
  }

  /** The news of a step: what it finds out, unless that was the last thing announced. */
  function News(w: World, e: HubEvent): seq<bool> {
    if Finding(w, e).None? || Finding(w, e) == w.lastAvailable then [] else [Finding(w, e).value]
  }

  /** Every entity shows the client's value, save those at the places in `behind`. */
  ghost predicate ShowsTheCache(w: World, behind: iset<nat>) {
    forall i | 0 <= i < |w.entities| ::
      i !in behind ==> w.entities[i].value == Lookup(w.charger.cache, w.entities[i].key)
  }

  /** How a step that announces something ends. */
  ghost predicate Announces(w: World, t: World, up: bool) {
    && Announcements(t.sent) == Announcements(w.sent) + [up]
    && t.lastAvailable == Some(up)
    && t.sent != [] && t.sent[|t.sent| - 1] == Availability(up)
    && (up ==> t.pending == [])
  }

  ghost predicate AnnouncesNothing(w: World, t: World) {
    Announcements(t.sent) == Announcements(w.sent) && t.lastAvailable == w.lastAvailable
  }

  lemma UpdateAnnounces(w: World, up: bool)
    ensures if w.lastAvailable == Some(up) then AnnouncesNothing(w, UpdateAvailability(w, up))
            else Announces(w, UpdateAvailability(w, up), up)
  {
    UpdateSends(w, up);
  }

  lemma PushAnnounces(w: World, key: string, value: int)
    requires w.controls.subscribed
    ensures var t := HubApply(w, Pushed(key, value));
            if w.lastAvailable == Some(Available(w)) then AnnouncesNothing(w, t) else Announces(w, t, Available(w))
  {
    var w1 := Store(w, key, value);
    var w2 := if w.coalesces then w1.(pending := Put(w.pending, key, value)) else Deliver(w1, key, value);
    DeliverAnnouncesNothing(w1, key, value);
    UpdateAnnounces(w2, Available(w));
  }

  lemma FlushAnnouncesNothing(w: World)
    ensures AnnouncesNothing(w, FlushPending(w))
  {
    DeliverAllSends(w.(pending := []), w.pending);
    SignalsAreNoAnnouncements(w.sent, w.pending);
  }

  /** Every step announces its news and nothing else, after every value buffered until then. */
  lemma StepAnnounces(w: World, e: HubEvent)
    requires HubEnabled(w, e)
    ensures var t := HubApply(w, e);
            if News(w, e) == [] then AnnouncesNothing(w, t) else Announces(w, t, News(w, e)[0])
  {
    match e
    case Pushed(key, value) => if w.controls.subscribed { PushAnnounces(w, key, value); }
    case ConnectDone => UpdateAnnounces(EndConnect(w), true);
    case DisconnectEnded => UpdateAnnounces(EndDisconnect(w), false);
    case Checked => UpdateAnnounces(w, Available(w));
    case Flushed => FlushAnnouncesNothing(w);
    case _ =>
  }

  // ---- Over whole runs ----

  lemma {:induction false} AnnouncementsAlternate(states: seq<World>, events: seq<HubEvent>, i: nat)
    requires IsHubRun(states, events) && i < |states|
    ensures Alternating(states[i])
  {
    if i > 0 {
      AnnouncementsAlternate(states, events, i - 1);
      HubStep(states, events, i - 1);
      StepAnnounces(states[i - 1], events[i - 1]);
    }
  }

  /**
   Values before the news: when "available" is announced, nothing is buffered any more, the
   announcement is the last thing sent, and every entity not left behind already shows the client's value.
   */
  lemma ValuesBeforeNews(states: seq<World>, events: seq<HubEvent>, i: nat)
    requires IsHubRun(states, events) && i < |events| && News(states[i], events[i]) == [true]
    ensures var t := states[i + 1];
            && t.pending == [] && t.sent != []
            && t.sent[|t.sent| - 1] == Availability(true)
            && ShowsTheCache(t, Behind(states, events, i + 1))
  {
    HubStep(states, events, i);
    StepAnnounces(states[i], events[i]);
    CoalescingAgrees(states, events, i + 1);
    var t, behind := states[i + 1], Behind(states, events, i + 1);
    forall x | 0 <= x < |t.entities| && x !in behind
      ensures t.entities[x].value == Lookup(t.charger.cache, t.entities[x].key)
    {
      assert Upcoming(t.entities[x], t.pending) == Lookup(t.charger.cache, t.entities[x].key);
    }
  }

  /** A push or a check announces a recovery exactly when the connection stands with a complete status. */
  lemma RecoveryNeedsTheFullStatus(states: seq<World>, events: seq<HubEvent>, i: nat)
    requires IsHubRun(states, events) && i < |events|
    requires events[i].Checked? || (events[i].Pushed? && states[i].controls.subscribed)
    ensures var w, said := states[i], Announcements(states[i + 1].sent);
            said == Announcements(w.sent) + [true] <==>
              && w.lastAvailable != Some(true)
              && w.charger.connected && w.charger.initialized && !w.controls.tornDown
  {
    HubStep(states, events, i);
    StepAnnounces(states[i], events[i]);
    var said := Announcements(states[i].sent);
    assert said + [true] != said && (said + [true])[|said|] != (said + [false])[|said|];
  }

  /** The step sees the charger away, or ends a disconnect. */
  predicate SeesOutage(w: World, e: HubEvent) {
    || e.DisconnectEnded?
    || ((e.Checked? || (e.Pushed? && w.controls.subscribed)) && (w.controls.tornDown || !w.charger.connected))
  }

  /** While last announced available, a step has news exactly when it sees the charger away. */
  lemma NewsOnlyOfOutages(w: World, e: HubEvent)
    requires w.lastAvailable == Some(true)
    ensures News(w, e) == if SeesOutage(w, e) then [false] else []
  {
  }

  /**
   No flapping: drops, reconnects and half-replayed statuses announce nothing for as long as no
   push and no check meets the charger away.
   */
  lemma {:induction false} NoFlapping(states: seq<World>, events: seq<HubEvent>, i: nat, j: nat)
    requires IsHubRun(states, events) && i <= j < |states| && states[i].lastAvailable == Some(true)
    requires forall k | i <= k < j :: !SeesOutage(states[k], events[k])
    ensures Announcements(states[j].sent) == Announcements(states[i].sent) && states[j].lastAvailable == Some(true)
  {
    if i < j {
      NoFlapping(states, events, i, j - 1);
      HubStep(states, events, j - 1);
      StepAnnounces(states[j - 1], events[j - 1]);
      NewsOnlyOfOutages(states[j - 1], events[j - 1]);
    }
  }

  // ---- After a shutdown ----

  ghost predicate Gone(w: World) {
    w.controls.retired && w.controls.tornDown && !w.controls.subscribed && !w.controls.watching && !w.controls.flushing
  }

  lemma StaysGone(w: World, e: HubEvent)
    requires HubEnabled(w, e) && Gone(w)
    ensures Gone(HubApply(w, e))
  {
  }

  /** Once a shutdown has begun the hub is unavailable for good, and no timer of its own fires again. */
  lemma {:induction false} ShutdownIsFinal(states: seq<World>, events: seq<HubEvent>, i: nat, j: nat)
    requires IsHubRun(states, events) && i < j < |states| && events[i].ShutDown?
    ensures Gone(states[j]) && !Available(states[j])
    ensures j < |events| ==> !events[j].Checked? && !events[j].Flushed?
  {
    HubStep(states, events, j - 1);
    if i < j - 1 {
      ShutdownIsFinal(states, events, i, j - 1);
      StaysGone(states[j - 1], events[j - 1]);
    }
    if j < |events| { HubStep(states, events, j); }
  }

  lemma {:induction false} RetiredIsGone(states: seq<World>, events: seq<HubEvent>, i: nat)
    requires IsHubRun(states, events) && i < |states|
    ensures states[i].controls.retired ==> Gone(states[i])
  {
    if i > 0 {
      HubStep(states, events, i - 1);
      RetiredIsGone(states, events, i - 1);
      if states[i - 1].controls.retired { StaysGone(states[i - 1], events[i - 1]); }
    }
  }

  /**
   Who finds the charger available finds it connected, on a hub not shut down; and with the status
   incomplete, only because "available" was the last thing announced.
   */
  lemma AvailableMeans(states: seq<World>, events: seq<HubEvent>, i: nat)
    requires IsHubRun(states, events) && i < |states| && Available(states[i])
    ensures states[i].charger.connected && !states[i].controls.retired
    ensures var said := Announcements(states[i].sent);
            states[i].charger.initialized || (said != [] && said[|said| - 1])
  {
    RetiredIsGone(states, events, i);
    AnnouncementsAlternate(states, events, i);
  }

  // ---- The one announcement nothing checks ----

  /**
   What is remembered as announced is what `available` says after every step that finds anything
   out -- except that a connect() that returns counts as "available" unasked, and a disconnect that
   ends counts as "unavailable" unasked, even if a reconnect overtook it.
   */
  lemma AnnouncedIsAvailable(w: World, e: HubEvent)
    requires HubEnabled(w, e) && Finding(w, e).Some?
    ensures var t := HubApply(w, e);
            t.lastAvailable == Some(Available(t)) <==>
              && (e.ConnectDone? ==> w.charger.connected && !w.controls.tornDown)
              && (e.DisconnectEnded? ==> !w.charger.connected || !w.charger.initialized || w.controls.tornDown)
  {
    StepAnnounces(w, e);
  }

  const LATE_CONNECT: seq<HubEvent> :=
    [ConnectStarted, ClientMoved(true, true), ShutDown, ClientMoved(false, false), ConnectDone]

  /**
   The client signs in, but before connect() returns to the hub a shutdown begins and signs it out:
   "available" is announced, and is not true.
   */
  lemma LateConnectAnnouncesInVain(coalesces: bool) returns (states: seq<World>)
    ensures IsHubRun(states, LATE_CONNECT) && states[2].charger.connected && states[2].charger.initialized
    ensures Announcements(states[5].sent) == [true] && !Available(states[5])
  {
    var s0 := Created(coalesces);
    var s1 := HubApply(s0, ConnectStarted);
    var s2 := HubApply(s1, ClientMoved(true, true));
    var s3 := HubApply(s2, ShutDown);
    var s4 := HubApply(s3, ClientMoved(false, false));
    var s5 := HubApply(s4, ConnectDone);
    assert s4.sent == [] && s4.lastAvailable == None && s4.controls.tornDown;
    UpdateAnnounces(EndConnect(s4), true);
    states := [s0, s1, s2, s3, s4, s5];
    forall i: nat ensures HubStepAt(states, LATE_CONNECT, i) {
      assert i == 0 || i == 1 || i == 2 || i == 3 || i == 4 || i >= 5;
    }
  }
}
