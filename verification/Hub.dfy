/**
 The hub and the entities behind it: a coalescing buffer between the client's property pushes and
 the entities, and the availability announced beside it. One event is one uninterrupted block.
 */
module Hub {
  import opened Wrappers

  /** An entity shows one property; a push of its companion makes it read the cache again. */
  datatype Entity = Entity(key: string, companion: Option<string>, value: Option<int>)

  datatype Signal = Property(key: string, value: int) | Availability(up: bool)

  /** What the hub sees of the client: its property cache, the sign-in, the complete status. */
  datatype Charger = Charger(cache: map<string, int>, connected: bool, initialized: bool)

  /**
   The hub's subscription and timers, whether it tore itself down or was shut down for good,
   and how many calls await the client's connect() and disconnect().
   */
  datatype Controls = Controls(
    subscribed: bool,
    watching: bool,
    flushing: bool,
    tornDown: bool,
    retired: bool,
    connecting: nat,
    disconnecting: nat)

  datatype World = World(
    charger: Charger,
    controls: Controls,
    coalesces: bool,
    lastAvailable: Option<bool>,
    pending: seq<(string, int)>,  // a dictionary: one pair per key, in order of insertion
    entities: seq<Entity>,
    sent: seq<Signal>)

  function Created(coalesces: bool): World {
    World(Charger(map[], false, false), Controls(false, false, false, false, false, 0, 0), coalesces, None, [], [], [])
  }

  // ---- The buffer ----

  /** Assignment to a dictionary entry. */
  function Put(pending: seq<(string, int)>, key: string, value: int): seq<(string, int)> {
    if pending == [] then [(key, value)]
    else if pending[0].0 == key then [(key, value)] + pending[1..]
    else [pending[0]] + Put(pending[1..], key, value)
  }

  function Find(pending: seq<(string, int)>, key: string): Option<int> {
    if pending == [] then None
    else if pending[0].0 == key then Some(pending[0].1)
    else Find(pending[1..], key)
  }

  // ---- Delivery ----

  /** What delivering and announcing leave alone. */
  predicate SameControls(w: World, t: World) {
    && t.charger == w.charger && t.controls == w.controls && t.coalesces == w.coalesces
    && |t.entities| == |w.entities|
  }

  function Lookup(cache: map<string, int>, key: string): Option<int> {
    if key in cache then Some(cache[key]) else None
  }

  function Receive(entity: Entity, cache: map<string, int>, key: string, value: int): Entity {
    var pushed := if entity.key == key then entity.(value := Some(value)) else entity;
    if entity.companion == Some(key) && entity.key in cache then pushed.(value := Some(cache[entity.key])) else pushed
  }

  function ReceiveAll(entities: seq<Entity>, cache: map<string, int>, key: string, value: int): seq<Entity> {
    seq(|entities|, i requires 0 <= i < |entities| => Receive(entities[i], cache, key, value))
  }

  function Deliver(w: World, key: string, value: int): World {
    w.(entities := ReceiveAll(w.entities, w.charger.cache, key, value), sent := w.sent + [Property(key, value)])
  }

  function DeliverAll(w: World, items: seq<(string, int)>): (t: World)
    ensures SameControls(w, t) && t.lastAvailable == w.lastAvailable && t.pending == w.pending
    decreases |items|
  {
    if items == [] then w else DeliverAll(Deliver(w, items[0].0, items[0].1), items[1..])
  }

  function FlushPending(w: World): (t: World)
    ensures SameControls(w, t) && t.lastAvailable == w.lastAvailable && t.pending == []
  {
    DeliverAll(w.(pending := []), w.pending)
  }

  // ---- Availability ----

  predicate Available(w: World) {
    !w.controls.tornDown && w.charger.connected && (w.charger.initialized || w.lastAvailable == Some(true))
  }

  function Announce(w: World, up: bool): World { w.(sent := w.sent + [Availability(up)]) }

  function UpdateAvailability(w: World, up: bool): (t: World)
    ensures SameControls(w, t) && t.lastAvailable == Some(up)
  {
    if w.lastAvailable == Some(up) then w
    else
      var w1 := w.(lastAvailable := Some(up));
      Announce(if up then FlushPending(w1) else w1, up)
  }

  // ---- Events ----

  function HandlePropertyChange(w: World, key: string, value: int): World {
    var w1 := if w.coalesces then w.(pending := Put(w.pending, key, value)) else Deliver(w, key, value);
    UpdateAvailability(w1, Available(w1))
  }

  function StartDispatch(w: World): World {
    if w.controls.subscribed then w
    else w.(controls := w.controls.(subscribed := true, watching := true, flushing := w.coalesces))
  }

  function Disconnect(w: World): World {
    w.(controls := w.controls.(tornDown := true, subscribed := false, watching := false, flushing := false,
                               disconnecting := w.controls.disconnecting + 1),
       pending := [])
  }

  datatype HubEvent =
    | Pushed(key: string, value: int)  // the client stored a value and calls whoever subscribed
    | ClientMoved(connected: bool, initialized: bool)
    | DispatchStarted  // setup, once connected
    | ConnectStarted  // setup
    | ReconnectStarted
    | ConnectDone | ConnectFailed
    | Disconnected | DisconnectEnded
    | ShutDown
    | Checked  // the availability timer
    | Flushed  // the flush timer
    | EntityAdded(key: string, companion: Option<string>)

  predicate HubEnabled(w: World, e: HubEvent) {
    match e
    case ConnectStarted => !w.controls.retired
    case DispatchStarted => !w.controls.retired
    case ConnectDone => w.controls.connecting > 0
    case ConnectFailed => w.controls.connecting > 0
    case DisconnectEnded => w.controls.disconnecting > 0
    case Checked => w.controls.watching
    case Flushed => w.controls.flushing
    case _ => true
  }

  /** async_connect() up to its await. */
  function BeginConnect(w: World): World {
    w.(controls := w.controls.(tornDown := false, connecting := w.controls.connecting + 1))
  }

  function EndConnect(w: World): World
    requires w.controls.connecting > 0
  {
    w.(controls := w.controls.(connecting := w.controls.connecting - 1))
  }

  function EndDisconnect(w: World): World
    requires w.controls.disconnecting > 0
  {
    w.(controls := w.controls.(disconnecting := w.controls.disconnecting - 1))
  }

  function Store(w: World, key: string, value: int): World {
    w.(charger := w.charger.(cache := w.charger.cache[key := value]))
  }

  function HubApply(w: World, e: HubEvent): World
    requires HubEnabled(w, e)
  {
    match e
    case Pushed(key, value) =>
      if w.controls.subscribed then HandlePropertyChange(Store(w, key, value), key, value) else Store(w, key, value)
    case ClientMoved(connected, initialized) =>
      w.(charger := w.charger.(connected := connected, initialized := initialized))
    case DispatchStarted => StartDispatch(w)
    case ConnectStarted => BeginConnect(w)
    case ReconnectStarted => if w.controls.retired then w else BeginConnect(StartDispatch(w))
    case ConnectDone => UpdateAvailability(EndConnect(w), true)
    case ConnectFailed => EndConnect(w)
    case Disconnected => Disconnect(w)
    case DisconnectEnded => UpdateAvailability(EndDisconnect(w), false)
    case ShutDown => Disconnect(w.(controls := w.controls.(retired := true)))
    case Checked => UpdateAvailability(w, Available(w))
    case Flushed => FlushPending(w)
    case EntityAdded(key, companion) =>
      w.(entities := w.entities + [Entity(key, companion, Lookup(w.charger.cache, key))])
  }

  predicate HubStepAt(states: seq<World>, events: seq<HubEvent>, i: nat)
    requires |states| == |events| + 1
  {
    i < |events| ==> HubEnabled(states[i], events[i]) && states[i + 1] == HubApply(states[i], events[i])
  }

  ghost predicate IsHubRun(states: seq<World>, events: seq<HubEvent>) {
    && |states| == |events| + 1
    && states[0] == Created(states[0].coalesces)
    && forall i: nat :: HubStepAt(states, events, i)
  }

  // ---- What a state keeps ----

  ghost predicate OnePerKey(pending: seq<(string, int)>) {
    forall i, j | 0 <= i < j < |pending| :: pending[i].0 != pending[j].0
  }

  /** What is buffered is what the client holds; nothing is buffered without a subscription. */
  ghost predicate BufferIsFresh(w: World) {
    && OnePerKey(w.pending)
    && (forall i | 0 <= i < |w.pending| :: Lookup(w.charger.cache, w.pending[i].0) == Some(w.pending[i].1))
    && (!w.controls.subscribed || !w.coalesces ==> w.pending == [])
    && w.controls.flushing == (w.controls.subscribed && w.coalesces)
    && w.controls.watching == w.controls.subscribed
  }

  /** What the entity will show once the buffer is flushed. */
  function Upcoming(entity: Entity, pending: seq<(string, int)>): Option<int> {
    if Find(pending, entity.key).Some? then Find(pending, entity.key) else entity.value
  }

  /** Every entity agrees with the client, save those at the places in `behind`. */
  ghost predicate AgreesExcept(w: World, behind: iset<nat>) {
    forall i | 0 <= i < |w.entities| ::
      i !in behind ==> Upcoming(w.entities[i], w.pending) == Lookup(w.charger.cache, w.entities[i].key)
  }

  function Announcements(sent: seq<Signal>): seq<bool> {
    if sent == [] then []
    else
      var last := sent[|sent| - 1];
      Announcements(sent[..|sent| - 1]) + (if last.Availability? then [last.up] else [])
  }

  /** The announcements alternate, and the last one is the one remembered. */
  ghost predicate Alternating(w: World) {
    var said := Announcements(w.sent);
    && (forall i | 0 < i < |said| :: said[i] == !said[i - 1])
    && w.lastAvailable == (if said == [] then None else Some(said[|said| - 1]))
  }
}
