/** A hub that connects again hears of everything again. */
module HubReconnect {
  import opened Wrappers
  import opened Hub
  import opened HubTheorems

  /** Subscribed, with its timers running, and not torn down. */
  predicate Up(w: World) {
    && w.controls.subscribed && w.controls.watching && w.controls.flushing == w.coalesces
    && !w.controls.tornDown
  }

  /** A reconnect subscribes before it connects, and changes nothing else; a hub shut down refuses it. */
  lemma ReconnectSubscribes(w: World)
    requires BufferIsFresh(w)
    ensures var t := HubApply(w, ReconnectStarted);
            if w.controls.retired then t == w
            else
              && Up(t) && t.controls.connecting == w.controls.connecting + 1
              && !t.controls.retired && t.controls.disconnecting == w.controls.disconnecting
              && t.charger == w.charger && t.pending == w.pending && t.entities == w.entities && t.sent == w.sent
              && t.lastAvailable == w.lastAvailable
  {
  }

  /** A push delivered: whoever shows its key shows it, and whoever it is the companion of reads the cache again. */
  lemma DeliveryReaches(w: World, key: string, value: int, x: nat)
    requires x < |w.entities| && (key in w.charger.cache ==> w.charger.cache[key] == value)
    ensures var before, after, cache := w.entities[x], Deliver(w, key, value).entities[x], w.charger.cache;
            && after.key == before.key && after.companion == before.companion
            && (before.companion == Some(key) && before.key in cache ==> after.value == Some(cache[before.key]))
            && (!(before.companion == Some(key) && before.key in cache) ==>
                  after.value == if before.key == key then Some(value) else before.value)
    ensures Deliver(w, key, value).sent == w.sent + [Property(key, value)]
  {
  }

  /** A flush leaves nothing buffered, and whoever was not left behind shows the client's value. */
  lemma FlushTimerDelivers(states: seq<World>, events: seq<HubEvent>, i: nat, x: nat)
    requires IsHubRun(states, events) && i < |events| && events[i].Flushed? && x < |states[i + 1].entities|
    ensures states[i + 1].pending == []
    ensures x !in Behind(states, events, i + 1) ==>
              states[i + 1].entities[x].value == Lookup(states[i + 1].charger.cache, states[i + 1].entities[x].key)
  {
    HubStep(states, events, i);
    CoalescingAgrees(states, events, i + 1);
  }

  /** What the hub sees of the client is what the client last reported: its state, and its stored values. */
  lemma ChargerIsTheClients(w: World, e: HubEvent)
    requires HubEnabled(w, e)
    ensures var before, after := w.charger, HubApply(w, e).charger;
            && after.connected == (if e.ClientMoved? then e.connected else before.connected)
            && after.initialized == (if e.ClientMoved? then e.initialized else before.initialized)
            && after.cache == (if e.Pushed? then before.cache[e.key := e.value] else before.cache)
  {
  }

  /** How many calls of connect() are under way. */
  lemma ConnectsAreCounted(w: World, e: HubEvent)
    requires HubEnabled(w, e)
    ensures HubApply(w, e).controls.connecting ==
              if e.ConnectStarted? || (e.ReconnectStarted? && !w.controls.retired) then w.controls.connecting + 1
              else if e.ConnectDone? || e.ConnectFailed? then w.controls.connecting - 1
              else w.controls.connecting
  {
  }

  /** And of disconnect(). */
  lemma DisconnectsAreCounted(w: World, e: HubEvent)
    requires HubEnabled(w, e)
    ensures HubApply(w, e).controls.disconnecting ==
              if e.Disconnected? || e.ShutDown? then w.controls.disconnecting + 1
              else if e.DisconnectEnded? then w.controls.disconnecting - 1
              else w.controls.disconnecting
  {
  }

  const SETUP: seq<HubEvent> := [ConnectStarted, ClientMoved(true, true), ConnectDone, DispatchStarted]

  /** The setup of a new hub: it announces the charger available, and is up. */
  lemma SetupBringsUp(coalesces: bool) returns (states: seq<World>)
    ensures IsHubRun(states, SETUP) && states[0] == Created(coalesces)
    ensures Up(states[4]) && Available(states[4]) && states[4].sent == [Availability(true)]
    ensures states[4].controls == Controls(true, true, coalesces, false, false, 0, 0)
  {
    var s0 := Created(coalesces);
    var s1 := HubApply(s0, ConnectStarted);
    var s2 := HubApply(s1, ClientMoved(true, true));
    var s3 := HubApply(s2, ConnectDone);
    var s4 := HubApply(s3, DispatchStarted);
    states := [s0, s1, s2, s3, s4];
    forall i: nat ensures HubStepAt(states, SETUP, i) {
      assert i == 0 || i == 1 || i == 2 || i == 3 || i >= 4;
    }
  }

  /** At setup the connection comes first, and then the subscription: together they bring the hub up. */
  lemma SetupSubscribes(w: World)
    requires BufferIsFresh(w) && !w.controls.retired
    ensures !HubApply(w, ConnectStarted).controls.tornDown
    ensures HubApply(w, ConnectStarted).controls.connecting == w.controls.connecting + 1
    ensures !w.controls.tornDown ==> Up(HubApply(w, DispatchStarted))
  {
  }

  /** A disconnect leaves no subscription, no timer and nothing buffered; a shutdown is one for good. */
  lemma DisconnectStops(w: World, e: HubEvent)
    requires e.Disconnected? || e.ShutDown?
    ensures var t := HubApply(w, e);
            && !t.controls.subscribed && !t.controls.watching && !t.controls.flushing && t.controls.tornDown
            && t.pending == [] && t.controls.disconnecting == w.controls.disconnecting + 1
            && (t.controls.retired <==> e.ShutDown? || w.controls.retired)
            && t.entities == w.entities && t.sent == w.sent && t.charger == w.charger
  {
  }

  lemma StaysUp(w: World, e: HubEvent)
    requires HubEnabled(w, e) && Up(w) && !e.Disconnected? && !e.ShutDown?
    ensures Up(HubApply(w, e))
  {
  }

  lemma {:induction false} UpUntilDisconnect(states: seq<World>, events: seq<HubEvent>, m: nat, i: nat)
    requires IsHubRun(states, events) && m <= i < |states| && Up(states[m])
    requires forall k | m <= k < i :: !events[k].Disconnected? && !events[k].ShutDown?
    ensures Up(states[i])
  {
    if m < i {
      UpUntilDisconnect(states, events, m, i - 1);
      HubStep(states, events, i - 1);
      StaysUp(states[i - 1], events[i - 1]);
    }
  }

  lemma ReconnectBringsUp(states: seq<World>, events: seq<HubEvent>, m: nat)
    requires IsHubRun(states, events) && m < |events| && events[m].ReconnectStarted? && !states[m].controls.retired
    ensures Up(states[m + 1])
  {
    HubStep(states, events, m);
    CoalescingAgrees(states, events, m);
    ReconnectSubscribes(states[m]);
  }

  /**
   After a reconnect of a hub that was not shut down, until a disconnect: checks can fire, and flushes
   with an interval; the charger is available exactly if it is connected, with its status complete or
   still announced available; and a key pushed since then is up to date in every entity of it.
   */
  lemma ReconnectRestores(states: seq<World>, events: seq<HubEvent>, m: nat, i: nat)
    requires IsHubRun(states, events) && m < i < |states| && events[m].ReconnectStarted? && !states[m].controls.retired
    requires forall k | m < k < i :: !events[k].Disconnected? && !events[k].ShutDown?
    ensures HubEnabled(states[i], Checked) && (HubEnabled(states[i], Flushed) <==> states[i].coalesces)
    ensures Available(states[i]) <==>
              states[i].charger.connected && (states[i].charger.initialized || states[i].lastAvailable == Some(true))
    ensures forall p, x | m < p < i && events[p].Pushed? && 0 <= x < |states[i].entities|
                          && states[i].entities[x].key == events[p].key ::
              Upcoming(states[i].entities[x], states[i].pending) == Lookup(states[i].charger.cache, events[p].key)
  {
    ReconnectBringsUp(states, events, m);
    UpUntilDisconnect(states, events, m + 1, i);
    forall p, x | m < p < i && events[p].Pushed? && 0 <= x < |states[i].entities|
                  && states[i].entities[x].key == events[p].key
      ensures Upcoming(states[i].entities[x], states[i].pending) == Lookup(states[i].charger.cache, events[p].key)
    {
      PushedIsCurrent(states, events, m, p, i, x);
    }
  }

  lemma PushedIsCurrent(states: seq<World>, events: seq<HubEvent>, m: nat, p: nat, i: nat, x: nat)
    requires IsHubRun(states, events) && m < p < i < |states|
    requires events[m].ReconnectStarted? && !states[m].controls.retired
    requires forall k | m < k < i :: !events[k].Disconnected? && !events[k].ShutDown?
    requires events[p].Pushed? && x < |states[i].entities| && states[i].entities[x].key == events[p].key
    ensures Upcoming(states[i].entities[x], states[i].pending) == Lookup(states[i].charger.cache, events[p].key)
  {
    ReconnectBringsUp(states, events, m);
    UpUntilDisconnect(states, events, m + 1, p);
    ReplayRestores(states, events, p, i, events[p].key);
    CoalescingAgrees(states, events, i);
  }
}
