/** The average power sensor as the object it is in the program. */
module AveragePowerObject {
  import opened Wrappers
  import opened AveragePower

  class WattpilotAveragePowerSensor {
    var cache: Cache  // what the hub answers
    var nativeValue: Option<real>
    var stale: Average
    var cancelIdle: bool
    var armed: bool  // whether the event loop still holds the timer
    var removed: bool

    ghost function View(): Meter
      reads this
    {
      Meter(cache, nativeValue, stale, Timer(cancelIdle, armed), removed)
    }

    ghost predicate Valid()
      reads this
    {
      TimerMatches(View())
    }

    constructor ()
      ensures Valid() && View() == CREATED
    {
      cache, nativeValue, stale := Cache(None, None), None, Null;
      cancelIdle, armed, removed := false, false, false;
    }

    method ApplyValue(average: Average)
      requires Valid()
      modifies `nativeValue, `stale, `cancelIdle, `armed
      ensures Valid() && View() == ApplyAverage(old(View()), average)
    {
      if cache.live.None? || cache.live.value > 0.0 {
        StopIdleTimer();
        ShowLive(average);
      } else {
        HoldWhileIdle();
      }
    }

    method ShowLive(average: Average)
      modifies `nativeValue, `stale
      ensures View() == AveragePower.ShowLive(old(View()), average)
    {
      if cache.live.None? || cache.live.value == 0.0 || average.Null? {
        nativeValue := None;
        return;
      }
      if average == stale {
        nativeValue := Some(0.0);
        return;
      }
      stale := Null;
      if average.Number? {
        nativeValue := Some(average.watts);
      }
    }

    method HoldWhileIdle()
      requires Valid()
      modifies `nativeValue, `stale, `cancelIdle, `armed
      ensures Valid() && View() == AveragePower.HoldWhileIdle(old(View()))
    {
      if nativeValue.None? || nativeValue.value == 0.0 {
        ShowIdle();
      } else if !cancelIdle {
        cancelIdle, armed := true, true;
      }
    }

    /** The timer fires. */
    method WentIdle()
      requires Valid() && armed && !removed
      modifies `nativeValue, `stale, `armed
      ensures Valid() && View() == MeterApply(old(View()), MeterEvent.WentIdle)
    {
      armed := false;
      ShowIdle();
    }

    method ShowIdle()
      modifies `nativeValue, `stale
      ensures View() == AveragePower.ShowIdle(old(View()))
    {
      nativeValue := Some(0.0);
      stale := if cache.average.Some? then cache.average.value else Null;
    }

    method StopIdleTimer()
      requires Valid()
      modifies `cancelIdle, `armed
      ensures View() == old(View()).(timer := Timer(false, false))
    {
      if cancelIdle {
        armed := false;
        cancelIdle := false;
      }
    }
  }
}
