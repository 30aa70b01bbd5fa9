/** close() cannot hang: whatever is under way, the tasks themselves can always end it. */
module LifecycleProgress {
  import opened Wrappers
  import opened Lifecycle
  import opened LifecycleInvariant
  import opened LifecycleSafety
  import opened LifecycleTheorems

  /** The attempt a closing task waits for can only end in failure. */
  predicate Doomed(s: State) {
    s.closing.AwaitAttempt? && AttemptUnfinished(s) ==>
      || s.attempt.cancelled
      || (s.attempt.pc.StoppingReader? && s.attempt.pc.site.CleaningUp?)
      || (s.attempt.pc.ClosingSocket? && (s.attempt.pc.site.CleaningUp? || s.attempt.pc.failing))
  }

  lemma DoomedStep(s: State, e: Event)
    requires Inv(s) && Doomed(s) && Enabled(s, e)
    ensures Doomed(Apply(s, e))
  {
    match e
    case Caller(c) => assert s.closing.AwaitAttempt? ==> !c.OpenCalled?;
    case InAttempt(a) => DoomedAttempt(s, a);
    case InClosing(c) =>
    case InReader(r, x) => DoomedReader(s, r, x);
    case InGuard(_, _) =>
    case PeerClosed(_) =>
  }

  lemma DoomedReader(s: State, r: nat, e: ReaderEvent)
    requires Doomed(s) && ReaderEnabled(s, r, e)
    ensures Doomed(ReaderApply(s, r, e))
  {
  }

  lemma DoomedAttempt(s: State, e: AttemptEvent)
    requires Inv(s) && Doomed(s) && AttemptEnabled(s, e)
    ensures Doomed(AttemptApply(s, e))
  {
  }

  lemma {:induction false} RunStaysDoomed(states: seq<State>, events: seq<Event>, i: nat)
    requires IsRun(states, events) && i < |states|
    ensures Inv(states[i]) && Doomed(states[i])
  {
    if i == 0 {
      InitialInv(states[0].config);
    } else {
      RunStaysDoomed(states, events, i - 1);
      StepKeepsInv(states[i - 1], events[i - 1]);
      DoomedStep(states[i - 1], events[i - 1]);
    }
  }

  // ---- The work left ----

  function ReaderWork(s: State, r: nat): nat {
    if r < |s.readers| && s.readers[r].pc.ReaderEnded? then 0 else 1
  }

  function AttemptWork(s: State): nat {
    match s.attempt.pc
    case NoAttempt => 0
    case AttemptEnded(_) => 0
    case ClosingSocket(_, _, _) => 2
    case StoppingReader(_, r) => 3 + ReaderWork(s, r)
    case _ => 5
  }

  function ClosingWork(s: State): nat {
    match s.closing
    case NoClosing => 0
    case ClosingEnded => 0
    case AwaitSocket(_) => 1
    case AwaitReader(r) => 2 + ReaderWork(s, r)
    case AwaitAttempt => 4 + AttemptWork(s)
    case ClosingCreated => 10
  }

  /** Steps of the connection's own tasks: no caller and no peer has to do anything. */
  predicate OwnTask(e: Event) { !e.Caller? && !e.PeerClosed? }

  lemma CancelledReaderEnds(s: State, r: nat) returns (e: Event)
    requires Inv(s) && r < |s.readers| && s.readers[r].cancelled && !s.readers[r].pc.ReaderEnded?
    ensures OwnTask(e) && Enabled(s, e)
    ensures Apply(s, e).closing == s.closing && Apply(s, e).attempt == s.attempt && ReaderWork(Apply(s, e), r) == 0
  {
    e := InReader(r, ReaderSawCancel);
  }

  lemma AttemptAdvances(s: State) returns (e: Event)
    requires Inv(s) && Doomed(s) && s.closing.AwaitAttempt? && AttemptUnfinished(s)
    ensures OwnTask(e) && Enabled(s, e)
    ensures Apply(s, e).closing == s.closing && AttemptWork(Apply(s, e)) < AttemptWork(s)
  {
    if s.attempt.cancelled {
      e := InAttempt(SawCancel);
    } else if s.attempt.pc.StoppingReader? {
      if s.readers[s.attempt.pc.task].pc.ReaderEnded? {
        e := InAttempt(SawReaderEnd);
      } else {
        e := CancelledReaderEnds(s, s.attempt.pc.task);
      }
    } else {
      e := InAttempt(SawSocketClosed(false));
    }
  }

  lemma CloseAdvances(s: State) returns (e: Event)
    requires Inv(s) && Doomed(s) && ClosingUnfinished(s)
    ensures OwnTask(e) && Enabled(s, e) && ClosingWork(Apply(s, e)) < ClosingWork(s)
  {
    match s.closing
    case ClosingCreated => e := InClosing(ClosingStarted);
    case AwaitAttempt =>
      if AttemptUnfinished(s) {
        e := AttemptAdvances(s);
      } else {
        e := InClosing(SawAttemptEnd);
      }
    case AwaitReader(r) =>
      if s.readers[r].pc.ReaderEnded? {
        e := InClosing(ClosingSawReaderEnd);
      } else {
        e := CancelledReaderEnds(s, r);
      }
    case AwaitSocket(_) => e := InClosing(ClosingSawSocketClosed);
  }

  /** The state after a sequence of steps, if each was enabled in its turn. */
  ghost function After(s: State, events: seq<Event>): Option<State>
    decreases |events|
  {
    if events == [] then Some(s)
    else if Enabled(s, events[0]) then After(Apply(s, events[0]), events[1..])
    else None
  }

  /** The events that bring a close under way to its end, and no more. */
  ghost predicate EndsTheClose(s: State, events: seq<Event>)
    decreases |events|
  {
    if events == [] then !ClosingUnfinished(s)
    else ClosingUnfinished(s) && Enabled(s, events[0]) && EndsTheClose(Apply(s, events[0]), events[1..])
  }

  lemma {:induction false} CloseFinishes(s: State) returns (events: seq<Event>)
    requires Inv(s) && Doomed(s) && s.stopped
    ensures |events| <= ClosingWork(s) && forall e | e in events :: OwnTask(e)
    ensures EndsTheClose(s, events) && After(s, events).Some? && Quiet(After(s, events).value)
    ensures After(s, events).value.closeCount == s.closeCount
    decreases ClosingWork(s)
  {
    if ClosingUnfinished(s) {
      var e := CloseAdvances(s);
      StepKeepsInv(s, e);
      DoomedStep(s, e);
      StopFlagMoves(s, e);
      var rest := CloseFinishes(Apply(s, e));
      events := [e] + rest;
      assert events[1..] == rest;
    } else {
      events := [];
    }
  }

  /**
   In any state any run can reach, a deliberate close can be brought to its end by at most ten
   steps of the connection's own tasks, and then nothing runs and nothing is open.
   */
  lemma CloseNeverHangs(states: seq<State>, events: seq<Event>, i: nat) returns (rest: seq<Event>)
    requires IsRun(states, events) && i < |states| && states[i].stopped
    ensures |rest| <= 10 && forall e | e in rest :: OwnTask(e)
    ensures After(states[i], rest).Some? && Quiet(After(states[i], rest).value)
  {
    RunStaysDoomed(states, events, i);
    rest := CloseFinishes(states[i]);
  }

  // ---- Every schedule ----

  lemma ReaderWorkNeverGrows(s: State, r: nat, e: ReaderEvent, x: nat)
    requires ReaderEnabled(s, r, e) && x < |s.readers|
    ensures x < |ReaderApply(s, r, e).readers| && ReaderWork(ReaderApply(s, r, e), x) <= ReaderWork(s, x)
    ensures ReaderApply(s, r, e).closing == s.closing && ReaderApply(s, r, e).attempt == s.attempt
  {
  }

  lemma AttemptWorkNeverGrows(s: State, e: AttemptEvent)
    requires Inv(s) && Doomed(s) && AttemptEnabled(s, e) && s.closing.AwaitAttempt?
    ensures AttemptApply(s, e).closing == s.closing && AttemptWork(AttemptApply(s, e)) <= AttemptWork(s)
  {
  }

  lemma OtherAttemptWork(s: State, e: AttemptEvent)
    requires PhasesExclude(s) && AttemptEnabled(s, e) && ClosingUnfinished(s) && !s.closing.AwaitAttempt?
    ensures ClosingWork(AttemptApply(s, e)) == ClosingWork(s)
  {
    if ClosingInClose(s) { assert e.Forgotten?; }
  }

  lemma ClosingWorkFalls(s: State, e: ClosingEvent)
    requires Inv(s) && Doomed(s) && ClosingEnabled(s, e) && ClosingUnfinished(s)
    ensures ClosingWork(ClosingApply(s, e)) < ClosingWork(s)
  {
  }

  lemma ReaderStepNeverAddsWork(s: State, r: nat, e: ReaderEvent)
    requires PhasesExclude(s) && ReaderEnabled(s, r, e) && ClosingUnfinished(s)
    ensures ClosingWork(ReaderApply(s, r, e)) <= ClosingWork(s)
  {
    ReaderWorkNeverGrows(s, r, e, r);
    if s.closing.AwaitReader? { ReaderWorkNeverGrows(s, r, e, s.closing.task); }
    if s.attempt.pc.StoppingReader? { ReaderWorkNeverGrows(s, r, e, s.attempt.pc.task); }
  }

  /** While a close is under way no step of anybody adds to the work it has left. */
  lemma ClosingWorkNeverGrows(s: State, e: Event)
    requires Inv(s) && Doomed(s) && ClosingUnfinished(s) && Enabled(s, e)
    ensures ClosingWork(Apply(s, e)) <= ClosingWork(s)
  {
    match e
    case Caller(_) =>
    case InAttempt(a) => if s.closing.AwaitAttempt? { AttemptWorkNeverGrows(s, a); } else { OtherAttemptWork(s, a); }
    case InClosing(c) => ClosingWorkFalls(s, c);
    case InReader(r, x) => ReaderStepNeverAddsWork(s, r, x);
    case InGuard(_, _) =>
    case PeerClosed(_) =>
  }

  /** How many of the steps from `i` to `j` lessened the work left. */
  ghost function Advances(states: seq<State>, i: nat, j: nat): nat
    requires i <= j < |states|
    decreases j
  {
    if i == j then 0
    else Advances(states, i, j - 1) + if ClosingWork(states[j]) < ClosingWork(states[j - 1]) then 1 else 0
  }

  lemma {:induction false} AdvancesAreFew(states: seq<State>, events: seq<Event>, i: nat, j: nat)
    requires IsRun(states, events) && i <= j < |states|
    requires forall k | i <= k <= j :: ClosingUnfinished(states[k])
    ensures Advances(states, i, j) + ClosingWork(states[j]) <= ClosingWork(states[i])
  {
    if i < j {
      AdvancesAreFew(states, events, i, j - 1);
      RunStaysDoomed(states, events, j - 1);
      ClosingWorkNeverGrows(states[j - 1], events[j - 1]);
    }
  }

  lemma WorkIsLittle(s: State)
    ensures ClosingWork(s) <= 10
  {
  }

  /**
   Under every schedule: as long as a close is under way some step of an own task is enabled that
   lessens its work, no step of anybody adds to it, and at most ten steps can lessen it before it ends.
   */
  lemma EveryScheduleEndsTheClose(states: seq<State>, events: seq<Event>, i: nat, j: nat) returns (e: Event)
    requires IsRun(states, events) && i <= j < |states|
    requires forall k | i <= k <= j :: ClosingUnfinished(states[k])
    ensures Advances(states, i, j) + ClosingWork(states[j]) <= 10
    ensures OwnTask(e) && Enabled(states[j], e) && ClosingWork(Apply(states[j], e)) < ClosingWork(states[j])
  {
    AdvancesAreFew(states, events, i, j);
    WorkIsLittle(states[i]);
    RunStaysDoomed(states, events, j);
    e := CloseAdvances(states[j]);
  }
}
