/** What the average power sensor guarantees over whole runs. */
module AveragePowerTheorems {
  import opened Wrappers
  import opened AveragePower

  lemma MeterStep(states: seq<Meter>, events: seq<MeterEvent>, i: nat)
    requires IsMeterRun(states, events) && i < |events|
    ensures MeterEnabled(states[i], events[i]) && states[i + 1] == MeterApply(states[i], events[i])
  {
    assert MeterStepAt(states, events, i);
  }

  lemma {:induction false} TimerAlwaysMatches(states: seq<Meter>, events: seq<MeterEvent>, i: nat)
    requires IsMeterRun(states, events) && i < |states|
    ensures TimerMatches(states[i])
  {
    if i > 0 {
      TimerAlwaysMatches(states, events, i - 1);
      MeterStep(states, events, i - 1);
    }
  }

  /**
   Every delivery without power leaves 0 on display or a timer that will really fire, and every
   one with power, or without a number for it, leaves no timer.
   */
  lemma IdleEndsAtZero(states: seq<Meter>, events: seq<MeterEvent>, i: nat)
    requires IsMeterRun(states, events) && i < |events| && events[i].Applied?
    requires states[i].cache.average.Some?
    ensures var t := states[i + 1];
            if Idle(states[i]) then t.shown == Some(0.0) || t.timer.armed else !t.timer.handle && !t.timer.armed
  {
    TimerAlwaysMatches(states, events, i);
    MeterStep(states, events, i);
  }

  /** A removed sensor has no timer left to fire, and nothing happens to it any more. */
  lemma RemovalIsTheEnd(states: seq<Meter>, events: seq<MeterEvent>, i: nat)
    requires IsMeterRun(states, events) && i < |events| && events[i].Removed?
    ensures i + 1 == |events| && states[i + 1].timer == Timer(false, false)
  {
    MeterStep(states, events, i);
    if i + 1 < |events| { MeterStep(states, events, i + 1); }
  }

  /** A timer that fires shows 0; a removed sensor has none left to fire, and nothing happens to it any more. */
  lemma TimerEnds(states: seq<Meter>, events: seq<MeterEvent>, i: nat)
    requires IsMeterRun(states, events) && i < |events|
    ensures events[i].WentIdle? ==> states[i + 1].shown == Some(0.0) && !states[i + 1].timer.armed
    ensures states[i + 1].removed ==> !states[i + 1].timer.armed && i + 1 == |events|
  {
    MeterStep(states, events, i);
    if i + 1 < |events| { MeterStep(states, events, i + 1); }
  }

  /** Power flows: there is a number for it, above zero. */
  predicate Live(m: Meter) { m.cache.live.Some? && m.cache.live.value > 0.0 }

  /**
   What a delivery shows. Under live power: the average, unless it is the stale one, which shows 0, or
   unusable, which changes nothing; unknown for a null. Without a number for the power: unknown. Without
   power: what was shown stays until the timer ends, and 0 where nothing was shown.
   */
  lemma DeliveryShows(m: Meter)
    requires !m.removed && m.cache.average.Some?
    ensures var t, average := MeterApply(m, Applied), m.cache.average.value;
            if m.cache.live.None? then t.shown == None && t.stale == m.stale
            else if !Live(m) then
              && t.shown == (if NothingShown(m) then Some(0.0) else m.shown)
              && t.stale == (if NothingShown(m) then average else m.stale)
            else match average
              case Null => t.shown == None && t.stale == m.stale
              case Number(watts) =>
                t.shown == Some(if average == m.stale then 0.0 else watts)
                && t.stale == if average == m.stale then m.stale else Null
              case Unusable(_) =>
                t.shown == (if average == m.stale then Some(0.0) else m.shown)
                && t.stale == if average == m.stale then m.stale else Null
  {
  }

  /** A timer once armed runs on, and the last average stays on display, while no power flows and nothing ends it. */
  lemma HoldsWhileIdle(m: Meter)
    requires !m.removed && m.cache.average.Some? && Idle(m) && !NothingShown(m)
    ensures var t := MeterApply(m, Applied);
            && t.shown == m.shown && t.timer.handle
            && (m.timer.handle ==> t.timer == m.timer) && (!m.timer.handle ==> t.timer.armed)
  {
  }

  /**
   Storing alone shows nothing: the hub may hold a value back until it delivers it; and without an
   average there is nothing to deliver.
   */
  lemma StoringShowsNothing(m: Meter, average: Average, live: Option<real>)
    requires !m.removed
    ensures m.cache.average.None? ==> MeterApply(m, Applied) == m
    ensures MeterApply(m, Stored(average)) == m.(cache := Cache(Some(average), m.cache.live))
    ensures MeterApply(m, PowerStored(live)) == m.(cache := Cache(m.cache.average, live))
  {
  }

  // ---- The stale average ----

  /** The step shows the sensor idle, and records the cached average as stale. */
  predicate SwitchesToIdle(m: Meter, e: MeterEvent) {
    e.WentIdle? || (e.Applied? && m.cache.average.Some? && Idle(m) && NothingShown(m))
  }

  /** Under live power arrives an average that is not the recorded one. */
  predicate FreshArrives(m: Meter, e: MeterEvent) {
    && e.Applied? && m.cache.average.Some? && !Cached(m).Null? && Cached(m) != m.stale
    && m.cache.live.Some? && m.cache.live.value > 0.0
  }

  /** The average cached at the latest switch to idle before `j`. */
  function Recorded(states: seq<Meter>, events: seq<MeterEvent>, j: nat): Average
    requires |states| == |events| + 1 && j <= |events|
  {
    if j == 0 then Null
    else if SwitchesToIdle(states[j - 1], events[j - 1]) then Cached(states[j - 1])
    else Recorded(states, events, j - 1)
  }

  lemma SwitchStep(m: Meter, e: MeterEvent)
    requires MeterEnabled(m, e)
    ensures var t := MeterApply(m, e);
            && (SwitchesToIdle(m, e) ==> t.shown == Some(0.0) && t.stale == Cached(m))
            && (!SwitchesToIdle(m, e) && !FreshArrives(m, e) ==>
                  t.stale == m.stale && (NothingShown(m) ==> NothingShown(t)))
            && (FreshArrives(m, e) ==>
                  t.stale == Null && t.shown == if Cached(m).Number? then Some(Cached(m).watts) else m.shown)
  {
  }

  /**
   From each switch to idle on, the sensor shows 0 or unknown until an average other than the one
   recorded at the latest switch arrives under live power.
   */
  lemma {:induction false} StaleIsNeverShown(states: seq<Meter>, events: seq<MeterEvent>, i: nat, j: nat)
    requires IsMeterRun(states, events) && i < j < |states| && SwitchesToIdle(states[i], events[i])
    requires forall k | i < k < j :: !FreshArrives(states[k], events[k])
    ensures NothingShown(states[j]) && states[j].stale == Recorded(states, events, j)
  {
    MeterStep(states, events, j - 1);
    SwitchStep(states[j - 1], events[j - 1]);
    if i < j - 1 { StaleIsNeverShown(states, events, i, j - 1); }
  }

  /**
   If nothing but the recorded average arrived since a switch to idle, the first thing shown is an
   average that arrives under live power and differs from the recorded one.
   */
  lemma FirstShownIsFresh(states: seq<Meter>, events: seq<MeterEvent>, i: nat, j: nat)
    requires IsMeterRun(states, events) && i < j < |events| && SwitchesToIdle(states[i], events[i])
    requires forall k | i < k < j :: !FreshArrives(states[k], events[k])
    requires !NothingShown(states[j + 1])
    ensures FreshArrives(states[j], events[j]) && Cached(states[j]).Number?
    ensures Cached(states[j]) != Recorded(states, events, j) && states[j + 1].shown == Some(Cached(states[j]).watts)
  {
    StaleIsNeverShown(states, events, i, j);
    MeterStep(states, events, j);
    SwitchStep(states[j], events[j]);
  }

  // ---- Exactly when the stale average can be shown ----

  /** A value that is no number arrives under live power. */
  predicate UnusableArrives(m: Meter, e: MeterEvent) { FreshArrives(m, e) && Cached(m).Unusable? }

  /** Since the switch at `i` the sensor stayed live or waiting, and no usable other average came. */
  ghost predicate OnlyUnusableSince(states: seq<Meter>, events: seq<MeterEvent>, i: nat, j: nat)
    requires |states| == |events| + 1 && j <= |events|
  {
    forall k | i < k < j ::
      !SwitchesToIdle(states[k], events[k]) && (FreshArrives(states[k], events[k]) ==> Cached(states[k]).Unusable?)
  }

  /** The charger reports `average`, under the live power there is. */
  function Reported(m: Meter, average: Average): Meter
    requires !m.removed
  {
    MeterApply(MeterApply(m, Stored(average)), Applied)
  }

  lemma {:induction false} StaleIsKnownExactly(states: seq<Meter>, events: seq<MeterEvent>, i: nat, j: nat)
    requires IsMeterRun(states, events) && i < j < |states| && SwitchesToIdle(states[i], events[i])
    requires OnlyUnusableSince(states, events, i, j)
    ensures NothingShown(states[j])
    ensures states[j].stale ==
              if exists k | i < k < j :: UnusableArrives(states[k], events[k]) then Null else Cached(states[i])
  {
    MeterStep(states, events, j - 1);
    SwitchStep(states[j - 1], events[j - 1]);
    if i < j - 1 {
      StaleIsKnownExactly(states, events, i, j - 1);
      if FreshArrives(states[j - 1], events[j - 1]) { assert UnusableArrives(states[j - 1], events[j - 1]); }
    }
  }

  /**
   After the latest switch to idle, with no other usable average since: when the charger reports the
   recorded average again under live power, it is shown exactly if an unusable value has arrived under
   live power since the switch, and 0 otherwise.
   */
  lemma StaleShowsExactly(states: seq<Meter>, events: seq<MeterEvent>, i: nat, j: nat)
    requires IsMeterRun(states, events) && i < j < |states| && SwitchesToIdle(states[i], events[i])
    requires OnlyUnusableSince(states, events, i, j)
    requires Cached(states[i]).Number? && !states[j].removed
    requires states[j].cache.live.Some? && states[j].cache.live.value > 0.0
    ensures Reported(states[j], Cached(states[i])).shown ==
              if exists k | i < k < j :: UnusableArrives(states[k], events[k])
              then Some(Cached(states[i]).watts) else Some(0.0)
  {
    StaleIsKnownExactly(states, events, i, j);
  }

  /** Idle on 7000 W; an unusable value under live power; then the same 7000 W are shown again. */
  lemma UnusableForgetsStale() returns (states: seq<Meter>, events: seq<MeterEvent>)
    ensures IsMeterRun(states, events) && |events| == 8
    ensures SwitchesToIdle(states[2], events[2]) && Recorded(states, events, 3) == Number(7000.0)
    ensures FreshArrives(states[5], events[5]) && Cached(states[5]).Unusable?
    ensures states[8].shown == Some(7000.0)
  {
    events := [Stored(Number(7000.0)), PowerStored(Some(0.0)), Applied,
               PowerStored(Some(3000.0)), Stored(Unusable(0)), Applied, Stored(Number(7000.0)), Applied];
    var s1 := MeterApply(CREATED, events[0]);
    var s2 := MeterApply(s1, events[1]);
    var s3 := MeterApply(s2, events[2]);
    var s4 := MeterApply(s3, events[3]);
    var s5 := MeterApply(s4, events[4]);
    var s6 := MeterApply(s5, events[5]);
    var s7 := MeterApply(s6, events[6]);
    var s8 := MeterApply(s7, events[7]);
    states := [CREATED, s1, s2, s3, s4, s5, s6, s7, s8];
    forall i: nat ensures MeterStepAt(states, events, i) {
      assert i == 0 || i == 1 || i == 2 || i == 3 || i == 4 || i == 5 || i == 6 || i == 7 || i >= 8;
    }
  }
}
