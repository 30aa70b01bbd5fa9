/**
 A number sensor's hold against steps back: session energy lets a genuine reset through, total
 energy never falls within one lifetime and is restored across a reload.
 */
module Holds {
  import opened Wrappers

  /** A push as the sensor reads it; a malformed one is logged and changes nothing. */
  datatype Push = Number(value: real) | Null | Malformed

  datatype Rule = Monotonic | ResetTolerant | Plain

  /** `round` is the rounding to the reported precision. */
  datatype Description = Description(rule: Rule, clamps: bool, round: real -> real)

  const RESET_THRESHOLD_RATIO := 0.9

  /** What is shown (None: unknown), the last number reported, and the total restored but not yet compared. */
  datatype Hold = Hold(shown: Option<real>, last: Option<real>, restored: Option<real>)

  const NEW := Hold(None, None, None)

  /** What the sensor compares and reports of a raw number. */
  function Reading(d: Description, value: real): real {
    var clamped := if d.clamps && value < 0.0 then 0.0 else value;
    if d.rule.ResetTolerant? then d.round(clamped) else clamped
  }

  predicate Suppresses(rule: Rule, h: Hold, reading: real) {
    if h.restored.Some? && reading < h.restored.value * RESET_THRESHOLD_RATIO then false
    else if h.last.None? || reading >= h.last.value then false
    else if rule.Monotonic? then true
    else rule.ResetTolerant? && reading >= h.last.value * RESET_THRESHOLD_RATIO
  }

  function Take(rule: Rule, h: Hold, reading: real): Hold {
    if Suppresses(rule, h, reading) then Hold(h.last, h.last, None)
    else Hold(Some(reading), Some(reading), None)
  }

  function ApplyPush(d: Description, h: Hold, push: Push): Hold {
    match push
    case Number(value) => Take(d.rule, h, Reading(d, value))
    case Null => h.(shown := None)
    case Malformed => h
  }

  /** A new entity takes over what the last one showed, if that was a number. */
  function Restore(h: Hold): Hold {
    if h.shown.Some? then Hold(h.shown, h.shown, h.shown) else NEW
  }

  // ---- The object ----

  class WattpilotSensor {
    const description: Description
    var nativeValue: Option<real>
    var lastNumber: Option<real>
    var restoredTotal: Option<real>

    ghost function View(): Hold
      reads this
    {
      Hold(nativeValue, lastNumber, restoredTotal)
    }

    constructor (description: Description)
      ensures this.description == description && View() == NEW
    {
      this.description := description;
      nativeValue, lastNumber, restoredTotal := None, None, None;
    }

    /** async_added_to_hass() of a total: `shown` is what the entity before it reported last. */
    method RestoreTotal(shown: Option<real>)
      requires View() == NEW
      modifies this
      ensures View() == Restore(Hold(shown, None, None))
    {
      if shown.Some? {
        nativeValue, restoredTotal := shown, shown;
        lastNumber := shown;
      }
    }

    method ApplyValue(push: Push)
      modifies this
      ensures View() == ApplyPush(description, old(View()), push)
    {
      match push
      case Malformed =>
      case Null => nativeValue := None;
      case Number(value) =>
        var held := Held(value);
        nativeValue := Some(held);
    }

    method Held(value: real) returns (held: real)
      modifies `lastNumber, `restoredTotal
      ensures View().(shown := Some(held)) == ApplyPush(description, old(View()), Number(value))
      ensures nativeValue == old(nativeValue)
    {
      var reading := value;
      if description.clamps && reading < 0.0 {
        reading := 0.0;
      }
      if description.rule.ResetTolerant? {
        reading := description.round(reading);
      }
      var suppressed := ShouldSuppressDecrease(reading);
      if suppressed {
        return lastNumber.value;
      }
      lastNumber := Some(reading);
      return reading;
    }

    method ShouldSuppressDecrease(reading: real) returns (suppressed: bool)
      modifies `restoredTotal
      ensures suppressed == Suppresses(description.rule, old(View()), reading)
      ensures restoredTotal == None
    {
      var restored := restoredTotal;
      restoredTotal := None;
      if restored.Some? && reading < restored.value * RESET_THRESHOLD_RATIO {
        return false;
      }
      if lastNumber.None? || reading >= lastNumber.value {
        return false;
      }
      if description.rule.Monotonic? {
        return true;
      }
      suppressed := description.rule.ResetTolerant? && reading >= lastNumber.value * RESET_THRESHOLD_RATIO;
    }
  }
}
