/**
 The average charging power: the charger keeps reporting the last session's average, so the
 sensor switches to 0 W after a minute without power and then distrusts the average it was left with.
 */
module AveragePower {
  import opened Wrappers

  /** The average as it is on the wire; `Unusable` is anything that is no number. */
  datatype Average = Null | Number(watts: real) | Unusable(what: nat)

  /** Live power: None without a number. The hub's cache, as the sensor reads it. */
  datatype Cache = Cache(average: Option<Average>, live: Option<real>)

  /** `handle`: a cancel handle is stored. `armed`: its timer has neither fired nor been cancelled. */
  datatype Timer = Timer(handle: bool, armed: bool)

  datatype Meter = Meter(cache: Cache, shown: Option<real>, stale: Average, timer: Timer, removed: bool)

  const CREATED := Meter(Cache(None, None), None, Null, Timer(false, false), false)

  /** What Python takes for false: unknown, or zero. */
  predicate NothingShown(m: Meter) { m.shown.None? || m.shown.value == 0.0 }

  function Cached(m: Meter): Average { if m.cache.average.Some? then m.cache.average.value else Null }

  // ---- Applying a value ----

  /** The plain sensor's part: a null shows unknown, anything unusable changes nothing. */
  function ShowAverage(m: Meter, average: Average): Meter {
    match average
    case Null => m.(shown := None)
    case Number(watts) => m.(shown := Some(watts))
    case Unusable(_) => m
  }

  function ShowLive(m: Meter, average: Average): Meter {
    if m.cache.live.None? || m.cache.live.value == 0.0 || average.Null? then ShowAverage(m, Null)
    else if average == m.stale then m.(shown := Some(0.0))
    else ShowAverage(m.(stale := Null), average)
  }

  function ShowIdle(m: Meter): Meter { m.(shown := Some(0.0), stale := Cached(m)) }

  function HoldWhileIdle(m: Meter): Meter {
    if NothingShown(m) then ShowIdle(m)
    else if !m.timer.handle then m.(timer := Timer(true, true))
    else m
  }

  predicate Idle(m: Meter) { m.cache.live.Some? && m.cache.live.value <= 0.0 }

  function ApplyAverage(m: Meter, average: Average): Meter {
    if Idle(m) then HoldWhileIdle(m) else ShowLive(m.(timer := Timer(false, false)), average)
  }

  // ---- Events ----

  datatype MeterEvent =
    | Stored(average: Average)  // the client stores an average, which the hub may still hold back
    | PowerStored(live: Option<real>)
    | Applied  // a push of the average, or of the live power, is delivered; or the entity is added
    | WentIdle  // the timer fires
    | Removed

  predicate MeterEnabled(m: Meter, e: MeterEvent) {
    !m.removed && (e.WentIdle? ==> m.timer.armed)
  }

  /** A delivered push carries the cached value; without one there is nothing to apply. */
  function MeterApply(m: Meter, e: MeterEvent): Meter
    requires MeterEnabled(m, e)
  {
    match e
    case Stored(average) => m.(cache := m.cache.(average := Some(average)))
    case PowerStored(live) => m.(cache := m.cache.(live := live))
    case Applied => if m.cache.average.Some? then ApplyAverage(m, Cached(m)) else m
    case WentIdle => ShowIdle(m.(timer := m.timer.(armed := false)))
    case Removed => m.(timer := Timer(false, false), removed := true)
  }

  predicate MeterStepAt(states: seq<Meter>, events: seq<MeterEvent>, i: nat)
    requires |states| == |events| + 1
  {
    i < |events| ==> MeterEnabled(states[i], events[i]) && states[i + 1] == MeterApply(states[i], events[i])
  }

  ghost predicate IsMeterRun(states: seq<Meter>, events: seq<MeterEvent>) {
    |states| == |events| + 1 && states[0] == CREATED && forall i: nat :: MeterStepAt(states, events, i)
  }

  /** A handle whose timer is gone is only ever left beside a sensor that shows nothing. */
  predicate TimerMatches(m: Meter) {
    && (m.timer.armed ==> m.timer.handle && !NothingShown(m))
    && (m.timer.handle && !m.timer.armed ==> NothingShown(m))
  }
}
