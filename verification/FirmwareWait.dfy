/** The wait for a charger that reboots into a new firmware: retries until a deadline, unless somebody closes. */
module FirmwareWait {
  import opened Wrappers

  const REBOOT_RETRY_PAUSE := 2.0

  datatype Outcome = Reached | RefusedForGood | Failed

  /**
   What one round meets: the close count when it looks, its attempt's outcome and duration, and how
   much longer than asked the pause after it took.
   */
  datatype Round = Round(closeCount: nat, outcome: Outcome, took: real, overslept: real)

  ghost predicate TimePasses(rounds: nat -> Round) {
    forall k :: rounds(k).took >= 0.0 && rounds(k).overslept >= 0.0
  }

  datatype WaitEnd = BackAgain | Refused | OutOfTime

  /** When the next round begins after one begun at `began`, if there is time for a pause. */
  function Next(round: Round, began: real, deadline: real): real {
    var ended := began + round.took;
    ended + Min(REBOOT_RETRY_PAUSE, deadline - ended) + round.overslept
  }

  /** The attempt at `starts[k]` follows a failed one, after a pause. */
  predicate Follows(rounds: nat -> Round, deadline: real, starts: seq<real>, k: nat)
    requires 0 < k < |starts|
  {
    rounds(k - 1).outcome.Failed? && starts[k] == Next(rounds(k - 1), starts[k - 1], deadline)
  }

  /** Attempts begun at `starts`, each in its round, all but the last failed. */
  ghost predicate Attempted(rounds: nat -> Round, start: real, deadline: real, starts: seq<real>) {
    && (starts != [] ==> starts[0] == start)
    && (forall k | 0 < k < |starts| :: Follows(rounds, deadline, starts, k))
  }

  /** When the round after those begun at `starts` begins. */
  function Due(rounds: nat -> Round, start: real, deadline: real, starts: seq<real>): real {
    if starts == [] then start else Next(rounds(|starts| - 1), starts[|starts| - 1], deadline)
  }

  lemma OneMoreAttempt(rounds: nat -> Round, start: real, deadline: real, starts: seq<real>)
    requires Attempted(rounds, start, deadline, starts)
    requires starts != [] ==> rounds(|starts| - 1).outcome.Failed?
    ensures Attempted(rounds, start, deadline, starts + [Due(rounds, start, deadline, starts)])
  {
    var more := starts + [Due(rounds, start, deadline, starts)];
    forall k | 0 < k < |more| ensures Follows(rounds, deadline, more, k) {
      if k < |starts| { assert Follows(rounds, deadline, starts, k); }
    }
  }

  /**
   _reconnect_before(): every attempt begins before the deadline and while the close count is still
   the one noted; one that fails is followed by a pause and another look; the wait ends by success,
   by a refusal, by another close count, or when the time is up.
   */
  method ReconnectBefore(rounds: nat -> Round, closes: nat, start: real, deadline: real)
    returns (end: WaitEnd, starts: seq<real>)
    requires TimePasses(rounds)
    ensures Attempted(rounds, start, deadline, starts)
    ensures forall k | 0 <= k < |starts| :: starts[k] < deadline
    ensures forall k | 0 <= k < |starts| :: rounds(k).closeCount == closes
    ensures end.BackAgain? ==> starts != [] && rounds(|starts| - 1).outcome.Reached?
    ensures end.Refused? ==> starts != [] && rounds(|starts| - 1).outcome.RefusedForGood?
    ensures end.OutOfTime? && starts != [] ==> rounds(|starts| - 1).outcome.Failed?
    ensures end.OutOfTime? ==>
              || rounds(|starts|).closeCount != closes
              || deadline <= Due(rounds, start, deadline, starts)
  {
    var now := start;
    starts := [];
    while rounds(|starts|).closeCount == closes
      invariant Attempted(rounds, start, deadline, starts)
      invariant forall k | 0 <= k < |starts| :: starts[k] < deadline
      invariant forall k | 0 <= k < |starts| :: rounds(k).closeCount == closes
      invariant starts != [] ==> rounds(|starts| - 1).outcome.Failed?
      invariant now == Due(rounds, start, deadline, starts)
      decreases if now < deadline then deadline - now + REBOOT_RETRY_PAUSE else 0.0
    {
      var remaining := deadline - now;
      if remaining <= 0.0 {
        return OutOfTime, starts;
      }
      var round := rounds(|starts|);
      assert round.took >= 0.0 && round.overslept >= 0.0;
      OneMoreAttempt(rounds, start, deadline, starts);
      starts := starts + [now];
      now := now + round.took;
      if round.outcome.Reached? {
        return BackAgain, starts;
      }
      if round.outcome.RefusedForGood? {
        return WaitEnd.Refused, starts;
      }
      remaining := deadline - now;
      if remaining <= 0.0 {
        return OutOfTime, starts;
      }
      now := now + Min(REBOOT_RETRY_PAUSE, remaining) + round.overslept;
    }
    end := OutOfTime;
  }

  // ---- How many attempts ----

  lemma {:induction false} AttemptsAreSpaced(rounds: nat -> Round, start: real, deadline: real, starts: seq<real>, k: nat)
    requires TimePasses(rounds) && Attempted(rounds, start, deadline, starts) && k < |starts|
    requires forall i | 0 <= i < |starts| :: starts[i] < deadline
    ensures starts[k] >= start + 2.0 * k as real
  {
    if k > 0 {
      AttemptsAreSpaced(rounds, start, deadline, starts, k - 1);
      assert Follows(rounds, deadline, starts, k) && starts[k] < deadline;
      assert rounds(k - 1).took >= 0.0;
    }
  }

  function Ceiling(x: real): int { -(-x).Floor }

  /** However the attempts go: at most one for every retry pause begun in the time there is. */
  lemma AttemptsAreBounded(rounds: nat -> Round, start: real, deadline: real, starts: seq<real>)
    requires TimePasses(rounds) && Attempted(rounds, start, deadline, starts)
    requires forall i | 0 <= i < |starts| :: starts[i] < deadline
    ensures starts != [] ==> |starts| <= Ceiling((deadline - start) / REBOOT_RETRY_PAUSE)
  {
    if starts != [] {
      AttemptsAreSpaced(rounds, start, deadline, starts, |starts| - 1);
      assert (|starts| - 1) as real < (deadline - start) / REBOOT_RETRY_PAUSE;
    }
  }
}
