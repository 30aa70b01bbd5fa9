/**
 The hub and an entity as the objects they are in the program. Whole blocks of the hub's methods
 are proved to be the steps of the model.
 */
module HubObject {
  import opened Wrappers
  import opened Hub
  import opened HubTheorems

  class WattpilotHub {
    const updateInterval: nat
    var charger: Charger
    var controls: Controls
    var lastAvailable: Option<bool>
    var pending: seq<(string, int)>
    // what the dispatcher serves, and what it was given
    var entities: seq<Entity>
    var sent: seq<Signal>

    ghost function View(): World
      reads this
    {
      World(charger, controls, updateInterval > 0, lastAvailable, pending, entities, sent)
    }

    ghost predicate Valid()
      reads this
    {
      BufferIsFresh(View())
    }

    constructor (updateInterval: nat)
      ensures Valid() && View() == Created(updateInterval > 0)
    {
      this.updateInterval := updateInterval;
      charger := Charger(map[], false, false);
      controls := Controls(false, false, false, false, false, 0, 0);
      lastAvailable, pending, entities, sent := None, [], [], [];
    }

    // ---- Lifecycle ----

    /** async_connect() up to its await. */
    method Connect()
      requires Valid() && HubEnabled(View(), ConnectStarted)
      modifies `controls
      ensures Valid() && View() == HubApply(old(View()), ConnectStarted)
    {
      controls := controls.(tornDown := false, connecting := controls.connecting + 1);
    }

    /** The client is connected: the last block of async_connect(). */
    method Connected()
      requires Valid() && controls.connecting > 0
      modifies this
      ensures Valid() && View() == HubApply(old(View()), ConnectDone)
    {
      StaysFresh(View(), ConnectDone);
      controls := controls.(connecting := controls.connecting - 1);
      UpdateAvailability(true);
    }

    method StartDispatch()
      requires Valid()
      modifies `controls
      ensures Valid() && View() == Hub.StartDispatch(old(View()))
    {
      if controls.subscribed {
        return;
      }
      controls := controls.(subscribed := true, watching := true);
      if updateInterval > 0 {
        controls := controls.(flushing := true);
      }
    }

    /** async_reconnect() up to its await: the subscription comes first, and a retired hub refuses. */
    method Reconnect() returns (refused: bool)
      requires Valid()
      modifies `controls
      ensures Valid() && refused == old(controls.retired) && View() == HubApply(old(View()), ReconnectStarted)
    {
      if controls.retired {
        return true;
      }
      StartDispatch();
      Connect();
      refused := false;
    }

    /** async_disconnect() up to its await. */
    method Disconnect()
      requires Valid()
      modifies `controls, `pending
      ensures Valid() && View() == Hub.Disconnect(old(View()))
    {
      controls := controls.(tornDown := true);
      controls := controls.(subscribed := false);
      controls := controls.(watching := false);
      controls := controls.(flushing := false);
      pending := [];
      controls := controls.(disconnecting := controls.disconnecting + 1);
    }

    /** The finally block of async_disconnect(). */
    method Disconnected()
      requires Valid() && controls.disconnecting > 0
      modifies this
      ensures Valid() && View() == HubApply(old(View()), DisconnectEnded)
    {
      StaysFresh(View(), DisconnectEnded);
      controls := controls.(disconnecting := controls.disconnecting - 1);
      UpdateAvailability(false);
    }

    /** async_shutdown() up to its await. */
    method Shutdown()
      requires Valid()
      modifies `controls, `pending
      ensures Valid() && View() == HubApply(old(View()), ShutDown)
    {
      controls := controls.(retired := true);
      Disconnect();
    }

    method Available() returns (up: bool)
      ensures up == Hub.Available(View())
    {
      up := !controls.tornDown && charger.connected && (charger.initialized || lastAvailable == Some(true));
    }

    // ---- Push handling ----

    /** The client stores a value and calls back whoever subscribed to its properties. */
    method PropertyPushed(key: string, value: int)
      requires Valid()
      modifies this
      ensures Valid() && View() == HubApply(old(View()), Pushed(key, value))
    {
      StaysFresh(View(), Pushed(key, value));
      charger := charger.(cache := charger.cache[key := value]);
      if controls.subscribed {
        HandlePropertyChange(key, value);
      }
    }

    /** The client stored a value and calls the hub back. */
    method HandlePropertyChange(key: string, value: int)
      requires key in charger.cache && charger.cache[key] == value
      modifies `pending, `entities, `sent, `lastAvailable
      ensures View() == Hub.HandlePropertyChange(old(View()), key, value)
      ensures charger == old(charger) && controls == old(controls)
    {
      if updateInterval > 0 {
        pending := Put(pending, key, value);
      } else {
        Send(key, value);
      }
      var up := Available();
      UpdateAvailability(up);
    }

    /** The dispatcher hands one value to every entity that subscribed to its key. */
    method Send(key: string, value: int)
      modifies `entities, `sent
      ensures View() == Deliver(old(View()), key, value)
    {
      entities := ReceiveAll(entities, charger.cache, key, value);
      sent := sent + [Property(key, value)];
    }

    method FlushPending()
      modifies `pending, `entities, `sent
      ensures View() == Hub.FlushPending(old(View()))
    {
      var items := pending;
      pending := [];
      var i := 0;
      while i < |items|
        invariant 0 <= i <= |items|
        invariant DeliverAll(View(), items[i..]) == Hub.FlushPending(old(View()))
        modifies `entities, `sent
      {
        assert items[i..][0] == items[i] && items[i..][1..] == items[i + 1..];
        Send(items[i].0, items[i].1);
        i := i + 1;
      }
      assert items[i..] == [];
    }

    method UpdateAvailability(up: bool)
      modifies `lastAvailable, `pending, `entities, `sent
      ensures View() == Hub.UpdateAvailability(old(View()), up)
    {
      if lastAvailable == Some(up) {
        return;
      }
      lastAvailable := Some(up);
      if up {
        FlushPending();
      }
      sent := sent + [Availability(up)];
    }

    /** The availability timer fires. */
    method CheckAvailability()
      requires Valid() && controls.watching
      modifies `lastAvailable, `pending, `entities, `sent
      ensures Valid() && View() == HubApply(old(View()), Checked)
    {
      StaysFresh(View(), Checked);
      var up := Available();
      UpdateAvailability(up);
    }
  }

  lemma StaysFresh(w: World, e: HubEvent)
    requires BufferIsFresh(w) && HubEnabled(w, e)
    ensures BufferIsFresh(HubApply(w, e))
  {
    StepAgrees(w, e, iset i: nat | i < |w.entities| && w.entities[i] in w.entities);
  }

  class WattpilotEntity {
    const key: string
    const companion: Option<string>
    var value: Option<int>
    var subscriptions: seq<string>

    ghost function View(): Entity
      reads this
    {
      Entity(key, companion, value)
    }

    constructor (key: string, companion: Option<string>)
      ensures this.key == key && this.companion == companion && value == None && subscriptions == []
    {
      this.key, this.companion, value, subscriptions := key, companion, None, [];
    }

    /** Subscribes before it reads, so that no push is lost between the two. */
    method AddedToHass(cache: map<string, int>)
      requires subscriptions == [] && value == None
      modifies this
      ensures View() == Entity(key, companion, Lookup(cache, key))
      ensures subscriptions == [key] + if companion.Some? then [companion.value] else []
    {
      subscriptions := [key];
      if key in cache {
        value := Some(cache[key]);
      }
      if companion.Some? {
        subscriptions := subscriptions + [companion.value];
      }
    }

    method HandlePush(pushed: int)
      modifies `value
      ensures value == Some(pushed)
    {
      value := Some(pushed);
    }

    method HandleCompanionPush(cache: map<string, int>)
      modifies `value
      ensures value == if key in cache then Some(cache[key]) else old(value)
    {
      if key in cache {
        value := Some(cache[key]);
      }
    }

    /** What the dispatcher calls for one signal. */
    method OnSignal(cache: map<string, int>, signal: string, pushed: int)
      requires subscriptions == [key] + if companion.Some? then [companion.value] else []
      modifies `value
      ensures View() == Receive(old(View()), cache, signal, pushed)
    {
      if subscriptions[0] == signal {
        HandlePush(pushed);
      }
      if |subscriptions| > 1 && subscriptions[1] == signal {
        HandleCompanionPush(cache);
      }
    }
  }
}
