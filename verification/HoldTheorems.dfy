/** What session energy and total energy show over any sequence of pushes and reloads. */
module HoldTheorems {
  import opened Wrappers
  import opened Holds

  // ---- Readings ----

  function Readings(d: Description, pushes: seq<Push>): seq<real> {
    if pushes == [] then []
    else
      var last := pushes[|pushes| - 1];
      var before := Readings(d, pushes[..|pushes| - 1]);
      if last.Number? then before + [Reading(d, last.value)] else before
  }

  /** Whether a null came after the last number; malformed pushes do not count. */
  predicate Nulled(pushes: seq<Push>) {
    pushes != [] &&
    var last := pushes[|pushes| - 1];
    last.Null? || (last.Malformed? && Nulled(pushes[..|pushes| - 1]))
  }

  function After(d: Description, h: Hold, pushes: seq<Push>): Hold {
    if pushes == [] then h else ApplyPush(d, After(d, h, pushes[..|pushes| - 1]), pushes[|pushes| - 1])
  }

  function Max(a: real, b: real): real { if a < b then b else a }

  function Peak(readings: seq<real>): real
    requires readings != []
  {
    if |readings| == 1 then readings[0] else Max(Peak(readings[..|readings| - 1]), readings[|readings| - 1])
  }

  lemma {:induction false} PeakIsMaximum(readings: seq<real>)
    requires readings != []
    ensures Peak(readings) in readings && forall x | x in readings :: x <= Peak(readings)
  {
    var n := |readings| - 1;
    assert readings == readings[..n] + [readings[n]];
    if n > 0 { PeakIsMaximum(readings[..n]); }
  }

  // ---- One push ----

  /** What a raw number reads as: nothing negative where negatives are clamped; rounded for session energy only. */
  lemma ReadingIs(d: Description, value: real)
    ensures !d.rule.ResetTolerant? && (!d.clamps || value >= 0.0) ==> Reading(d, value) == value
    ensures !d.rule.ResetTolerant? && d.clamps && value < 0.0 ==> Reading(d, value) == 0.0
    ensures d.rule.ResetTolerant? && (!d.clamps || value >= 0.0) ==> Reading(d, value) == d.round(value)
    ensures d.rule.ResetTolerant? && d.clamps && value < 0.0 ==> Reading(d, value) == d.round(0.0)
  {
  }

  /** The last number is held against this reading: a step back of at most a tenth, or any at all for a total. */
  predicate HeldAgainst(d: Description, h: Hold, reading: real) {
    && h.last.Some? && reading < h.last.value
    && (h.restored.Some? ==> reading >= 0.9 * h.restored.value)
    && (d.rule.Monotonic? || (d.rule.ResetTolerant? && reading >= 0.9 * h.last.value))
  }

  /** One push: a number shows itself, or the last one where that is held; a null shows unknown; the rest nothing new. */
  lemma PushShows(d: Description, h: Hold, push: Push)
    ensures var t := ApplyPush(d, h, push);
            match push
            case Number(value) =>
              && t.shown == (if HeldAgainst(d, h, Reading(d, value)) then h.last else Some(Reading(d, value)))
              && t.last == t.shown && t.restored == None
            case Null => t.shown == None && t.last == h.last && t.restored == h.restored
            case Malformed => t == h
  {
  }

  /** A plain sensor shows the latest number, whatever came before; after a null it shows unknown. */
  lemma {:induction false} PlainShowsTheLatest(d: Description, pushes: seq<Push>)
    requires d.rule.Plain?
    ensures var h, readings := After(d, NEW, pushes), Readings(d, pushes);
            && h.last == (if readings == [] then None else Some(readings[|readings| - 1]))
            && h.shown == (if Nulled(pushes) then None else h.last)
            && h.restored == None
  {
    if pushes != [] { PlainShowsTheLatest(d, pushes[..|pushes| - 1]); }
  }

  /** A reload shows what was shown before it, holds it as its last number, and has yet to compare it. */
  lemma ReloadShowsTheSame(d: Description, events: seq<ChainEvent>)
    ensures var h, t := AfterAll(d, events), AfterAll(d, events + [Reloaded]);
            t.shown == h.shown && t.last == h.shown && t.restored == h.shown
  {
    assert (events + [Reloaded])[..|events|] == events;
  }

  // ---- Session energy ----

  /** Where the current stretch begins: at the latest reading below 90 % of the stretch before it. */
  function Stretch(readings: seq<real>): (start: nat)
    ensures readings != [] ==> start < |readings|
    ensures start <= |readings|
  {
    if readings == [] then 0
    else
      var before := readings[..|readings| - 1];
      var start := Stretch(before);
      if before != [] && readings[|readings| - 1] < Peak(before[start..]) * RESET_THRESHOLD_RATIO
      then |before|
      else start
  }

  /** The maximum since the last reset. */
  function SinceReset(readings: seq<real>): Option<real> {
    if readings == [] then None else Some(Peak(readings[Stretch(readings)..]))
  }

  lemma NextReading(before: seq<real>, x: real)
    ensures SinceReset(before + [x]) ==
              if before != [] && SinceReset(before).value * RESET_THRESHOLD_RATIO <= x
              then Some(Max(SinceReset(before).value, x)) else Some(x)
  {
    var readings := before + [x];
    assert readings[..|before|] == before;
    var start := Stretch(readings);
    if start < |before| {
      assert readings[start..][..|before| - start] == before[start..];
    }
  }

  lemma {:induction false} SessionHolds(d: Description, pushes: seq<Push>)
    requires d.rule.ResetTolerant?
    ensures var h := After(d, NEW, pushes);
            && h.restored == None
            && h.last == SinceReset(Readings(d, pushes))
            && h.shown == (if Nulled(pushes) then None else h.last)
  {
    if pushes != [] {
      var n := |pushes| - 1;
      SessionHolds(d, pushes[..n]);
      if pushes[n].Number? { NextReading(Readings(d, pushes[..n]), Reading(d, pushes[n].value)); }
    }
  }

  /**
   The sensor shows the maximum of the readings since the last reset, where a reset is a reading
   below 90 % of that maximum; a null shows unknown and resets nothing.
   */
  lemma SessionShowsThePeak(d: Description, pushes: seq<Push>)
    requires d.rule.ResetTolerant? && d.clamps && forall x :: x >= 0.0 ==> d.round(x) >= 0.0
    ensures var h, readings := After(d, NEW, pushes), Readings(d, pushes);
            && h.shown == (if Nulled(pushes) then None else SinceReset(readings))
            && (h.shown.Some? ==>
                  var latest := readings[|readings| - 1];
                  RESET_THRESHOLD_RATIO * h.shown.value <= latest <= h.shown.value)
  {
    SessionHolds(d, pushes);
    var readings := Readings(d, pushes);
    if readings != [] {
      ReadingsNonNegative(d, pushes, |readings| - 1);
      PeakIsMaximum(readings[Stretch(readings)..]);
      assert readings[|readings| - 1] == readings[Stretch(readings)..][|readings| - 1 - Stretch(readings)];
      LatestIsNear(readings);
    }
  }

  lemma {:induction false} ReadingsNonNegative(d: Description, pushes: seq<Push>, i: nat)
    requires d.clamps && (forall x :: x >= 0.0 ==> d.round(x) >= 0.0) && i < |Readings(d, pushes)|
    ensures Readings(d, pushes)[i] >= 0.0
  {
    if i < |Readings(d, pushes[..|pushes| - 1])| { ReadingsNonNegative(d, pushes[..|pushes| - 1], i); }
  }

  lemma LatestIsNear(readings: seq<real>)
    requires readings != [] && readings[|readings| - 1] >= 0.0
    ensures readings[|readings| - 1] >= SinceReset(readings).value * RESET_THRESHOLD_RATIO
  {
    var n := |readings| - 1;
    assert readings == readings[..n] + [readings[n]];
    NextReading(readings[..n], readings[n]);
  }

  /** Every fall of the reported number is a reset: it ends below 90 % of the number before. */
  lemma SessionFallsAreResets(d: Description, pushes: seq<Push>, push: Push)
    requires d.rule.ResetTolerant?
    ensures var before, after := After(d, NEW, pushes), After(d, NEW, pushes + [push]);
            before.last.Some? ==>
              && after.last.Some?
              && (after.last.value < before.last.value <==>
                    push.Number? && Reading(d, push.value) < before.last.value
                    && Reading(d, push.value) < before.last.value * RESET_THRESHOLD_RATIO)
  {
    assert (pushes + [push])[..|pushes|] == pushes;
    SessionHolds(d, pushes);
  }

  // ---- Total energy, one lifetime ----

  /** The readings a lifetime's maximum runs over: the restored total counts unless the first falls far below it. */
  function Compared(restored: Option<real>, readings: seq<real>): seq<real> {
    if restored.None? || (readings != [] && readings[0] < restored.value * RESET_THRESHOLD_RATIO) then readings
    else [restored.value] + readings
  }

  /** The running maximum of a lifetime. */
  function SinceRestore(restored: Option<real>, readings: seq<real>): Option<real> {
    var compared := Compared(restored, readings);
    if compared == [] then None else Some(Peak(compared))
  }

  lemma NextTotal(restored: Option<real>, before: seq<real>, x: real)
    ensures var was := SinceRestore(restored, before);
            SinceRestore(restored, before + [x]) ==
              if was.None? || (before == [] && x < was.value * RESET_THRESHOLD_RATIO) then Some(x)
              else Some(Max(was.value, x))
  {
    var was, now := Compared(restored, before), Compared(restored, before + [x]);
    if was != [] && now != [x] { assert now[..|was|] == was; }
  }

  /**
   Within one lifetime a total shows the running maximum of its readings, started from the
   restored total unless the first reading falls below 90 % of it; nulls and malformed pushes in
   between change nothing about that.
   */
  lemma {:induction false} TotalShowsThePeak(d: Description, restored: Option<real>, pushes: seq<Push>)
    requires d.rule.Monotonic?
    ensures var h, readings := After(d, Hold(restored, restored, restored), pushes), Readings(d, pushes);
            && h.last == SinceRestore(restored, readings)
            && h.shown == (if Nulled(pushes) then None else h.last)
            && h.restored == (if readings == [] then restored else None)
  {
    if pushes != [] {
      var n := |pushes| - 1;
      TotalShowsThePeak(d, restored, pushes[..n]);
      if pushes[n].Number? { NextTotal(restored, Readings(d, pushes[..n]), Reading(d, pushes[n].value)); }
    }
  }

  // ---- Total energy across reloads ----

  datatype ChainEvent = Pushed(push: Push) | Reloaded

  function AfterAll(d: Description, events: seq<ChainEvent>): Hold {
    if events == [] then NEW
    else
      var h, e := AfterAll(d, events[..|events| - 1]), events[|events| - 1];
      if e.Reloaded? then Restore(h) else ApplyPush(d, h, e.push)
  }

  predicate IsNumber(e: ChainEvent) { e.Pushed? && e.push.Number? }

  /** The last number shown, by whichever entity. */
  function LastShown(d: Description, events: seq<ChainEvent>): Option<real> {
    if events == [] then None
    else if AfterAll(d, events).shown.Some? then AfterAll(d, events).shown
    else LastShown(d, events[..|events| - 1])
  }

  /** Since the last number was read, a reload found "unknown" on display. */
  predicate Forgotten(d: Description, events: seq<ChainEvent>) {
    events != [] && !IsNumber(events[|events| - 1]) &&
    var before := events[..|events| - 1];
    Forgotten(d, before) || (events[|events| - 1].Reloaded? && AfterAll(d, before).shown.None?)
  }

  /** A reload has come since the last number was read. */
  predicate FirstIsDue(events: seq<ChainEvent>) {
    events != [] && !IsNumber(events[|events| - 1]) &&
    (events[|events| - 1].Reloaded? || FirstIsDue(events[..|events| - 1]))
  }

  lemma {:induction false} ChainHolds(d: Description, events: seq<ChainEvent>)
    requires d.rule.Monotonic?
    ensures var h, shown := AfterAll(d, events), LastShown(d, events);
            && h.last == (if Forgotten(d, events) then None else shown)
            && h.restored == (if FirstIsDue(events) then h.last else None)
            && (h.shown.Some? ==> h.shown == h.last)
  {
    if events != [] { ChainHolds(d, events[..|events| - 1]); }
  }

  /**
   Over any chain of lifetimes the shown total falls exactly when a first reading after a reload
   is below 90 % of it -- or when a reload found "unknown" on display: then nothing was restored
   and any lower reading is let through.
   */
  lemma TotalFallsExactly(d: Description, events: seq<ChainEvent>, value: real)
    requires d.rule.Monotonic? && LastShown(d, events).Some?
    ensures var was, now := LastShown(d, events).value, AfterAll(d, events + [Pushed(Number(value))]).shown;
            var reading := Reading(d, value);
            && now.Some?
            && (now.value < was <==>
                  reading < was && (Forgotten(d, events) || (FirstIsDue(events) && reading < was * RESET_THRESHOLD_RATIO)))
            && (now.value < was ==> now.value == reading)
  {
    assert (events + [Pushed(Number(value))])[..|events|] == events;
    ChainHolds(d, events);
  }

  /** A null before the reload: 500 kWh were shown, and 499 kWh are shown next. */
  lemma UnknownAtReloadForgets(d: Description)
    requires d.rule.Monotonic?
    ensures var events := [Pushed(Number(500.0)), Pushed(Null), Reloaded];
            && LastShown(d, events) == Some(500.0) && Forgotten(d, events)
            && AfterAll(d, events + [Pushed(Number(499.0))]).shown == Some(499.0)
  {
    var e1, e2 := [Pushed(Number(500.0))], [Pushed(Number(500.0)), Pushed(Null)];
    var events := [Pushed(Number(500.0)), Pushed(Null), Reloaded];
    assert e1[..0] == [] && e2[..1] == e1 && events[..2] == e2;
    assert AfterAll(d, e1) == Hold(Some(500.0), Some(500.0), None);
    assert AfterAll(d, e2) == Hold(None, Some(500.0), None);
    assert AfterAll(d, events) == NEW;
    assert LastShown(d, e1) == Some(500.0) && LastShown(d, e2) == Some(500.0);
    TotalFallsExactly(d, events, 499.0);
  }
}
