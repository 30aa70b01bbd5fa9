/** Exactly one outcome per command, and never through another command's id. */
module CommandTheorems {
  import opened Wrappers
  import opened Client
  import opened ClientTheorems

  // ---- The table ----

  predicate IsReset(e: ClientEvent) { e.Begun? || e.Closed? }

  lemma SettleKeepsTable(c: ClientState, key: Option<nat>, outcome: Outcome)
    requires TableMatches(c) && !outcome.Waiting?
    ensures TableMatches(Settle(c, key, outcome))
  {
  }

  lemma LeaveKeepsTable(c: ClientState, x: nat, outcome: Outcome, phase: Phase)
    requires TableMatches(c) && x < |c.commands| && Unfinished(c.commands[x])
    requires phase == Raised || (phase == Returned && outcome == Accepted)
    ensures TableMatches(Leave(c, x, outcome, phase))
  {
  }

  lemma SetPropertyKeepsTable(c: ClientState, waits: bool)
    requires TableMatches(c)
    ensures TableMatches(SetProperty(c, waits))
  {
  }

  lemma ResetKeepsTable(c: ClientState)
    requires TableMatches(c)
    ensures TableMatches(Reset(c)) && Reset(c).pending == map[]
  {
    var d := Reset(c);
    forall x | 0 <= x < |d.commands| && Unfinished(d.commands[x])
      ensures !d.commands[x].outcome.Waiting?
    {
      if c.commands[x].outcome.Waiting? {
        assert c.pending[c.commands[x].key] == x;
        assert x in c.pending.Values;
      }
    }
  }

  /** The table has nothing to do with flags, serial and cache. */
  lemma SameTable(c: ClientState, d: ClientState)
    requires TableMatches(c) && d.pending == c.pending && d.commands == c.commands && d.requestId == c.requestId
    ensures TableMatches(d)
  {
  }

  lemma ResponseKeepsTable(c: ClientState, key: Option<nat>, success: bool, status: Option<Status>)
    requires TableMatches(c)
    ensures TableMatches(HandleResponse(c, key, success, status))
  {
    if success {
      var c1 := if status.Some? then ApplyStatus(c, status.value) else c;
      SameTable(c, c1);
      SettleKeepsTable(c1, key, Accepted);
    } else {
      SettleKeepsTable(c, key, Rejected);
    }
  }

  lemma OtherFramesLeaveTable(c: ClientState, frame: Frame)
    requires !frame.Response?
    ensures var d := Handle(c, frame);
            d.pending == c.pending && d.commands == c.commands && d.requestId == c.requestId
  {
  }

  lemma FrameKeepsTable(c: ClientState, frame: Frame)
    requires TableMatches(c)
    ensures TableMatches(Handle(c, frame))
  {
    if frame.Response? {
      ResponseKeepsTable(c, frame.key, frame.success, frame.status);
    } else {
      OtherFramesLeaveTable(c, frame);
      SameTable(c, Handle(c, frame));
    }
  }

  lemma SendDoneKeepsTable(c: ClientState, x: nat)
    requires TableMatches(c) && x < |c.commands| && c.commands[x].phase.Sending?
    ensures TableMatches(SetCommand(c, x, c.commands[x].(phase := Awaiting)))
  {
  }

  lemma StepKeepsTable(c: ClientState, e: ClientEvent)
    requires TableMatches(c) && ClientEnabled(c, e)
    ensures TableMatches(ClientApply(c, e))
  {
    match e
    case FrameRead(frame) => FrameKeepsTable(c, frame);
    case Begun => ResetKeepsTable(c); SameTable(Reset(c), ClientApply(c, e));
    case Closed => ResetKeepsTable(c); SameTable(Reset(c), ClientApply(c, e));
    case SignedOut => SameTable(c, ClientApply(c, e));
    case PropertySet(waits) => SetPropertyKeepsTable(c, waits);
    case SendDone(x) => SendDoneKeepsTable(c, x);
    case SendRaised(x) => LeaveKeepsTable(c, x, c.commands[x].outcome, Raised);
    case CallerWoken(x) =>
      LeaveKeepsTable(c, x, c.commands[x].outcome, if c.commands[x].outcome.Accepted? then Returned else Raised);
    case TimedOut(x) => LeaveKeepsTable(c, x, GivenUp, Raised);
    case CallerCancelled(x) =>
      LeaveKeepsTable(c, x, GivenUp, Raised);
      LeaveKeepsTable(c, x, c.commands[x].outcome, Raised);
  }

  lemma {:induction false} RunKeepsTable(states: seq<ClientState>, events: seq<ClientEvent>, i: nat)
    requires IsClientRun(states, events) && i < |states|
    ensures TableMatches(states[i])
  {
    if i > 0 {
      RunKeepsTable(states, events, i - 1);
      StepAt(states, events, i - 1);
      StepKeepsTable(states[i - 1], events[i - 1]);
    }
  }

  /** A reset answers everyone: nobody is left waiting for an answer that cannot come. */
  lemma ResetLeavesNobodyWaiting(states: seq<ClientState>, events: seq<ClientEvent>, i: nat)
    requires IsClientRun(states, events) && i < |events| && IsReset(events[i])
    ensures states[i + 1].pending == map[]
    ensures forall command | command in states[i + 1].commands :: Unfinished(command) ==> !command.outcome.Waiting?
  {
    RunKeepsTable(states, events, i + 1);
    StepAt(states, events, i);
  }

  // ---- One outcome ----

  /** How one step may change one command. */
  predicate Moves(before: Command, after: Command) {
    && after.key == before.key
    && (!before.outcome.Waiting? ==> after.outcome == before.outcome)
    && (!Unfinished(before) ==> after.phase == before.phase)
    && (before.phase.Awaiting? ==> !after.phase.Sending?)
  }

  lemma StepMovesCommand(c: ClientState, e: ClientEvent, x: nat)
    requires ClientEnabled(c, e) && x < |c.commands|
    ensures x < |ClientApply(c, e).commands| && Moves(c.commands[x], ClientApply(c, e).commands[x])
  {
    if e.FrameRead? && c.flags.fatal.Usable? { FrameMovesCommand(c, e.frame, x); }
  }

  lemma FrameMovesCommand(c: ClientState, frame: Frame, x: nat)
    requires x < |c.commands|
    ensures x < |Handle(c, frame).commands| && Moves(c.commands[x], Handle(c, frame).commands[x])
  {
  }

  /** An outcome, once there, and an end, once reached, never change again. */
  lemma {:induction false} OneOutcome(states: seq<ClientState>, events: seq<ClientEvent>, i: nat, j: nat, x: nat)
    requires IsClientRun(states, events) && i <= j < |states| && x < |states[i].commands|
    ensures x < |states[j].commands| && Moves(states[i].commands[x], states[j].commands[x])
  {
    if i < j {
      OneOutcome(states, events, i, j - 1, x);
      StepAt(states, events, j - 1);
      StepMovesCommand(states[j - 1], events[j - 1], x);
    }
  }

  // ---- Sending ----

  /**
   Every command takes the next id; one that is acknowledged leaves a waiter under that id, still being
   sent, and one that never is leaves none.
   */
  lemma SendingLeavesAWaiter(c: ClientState, waits: bool)
    ensures var d, id := ClientApply(c, PropertySet(waits)), c.requestId + 1;
            && d.requestId == id && d.flags == c.flags && d.serial == c.serial && d.cache == c.cache
            && (if waits
                then d.commands == c.commands + [Command(id, Waiting, Sending)]
                     && d.pending == c.pending[id := |c.commands|]
                else d.commands == c.commands && d.pending == c.pending)
  {
  }

  // ---- An answer reaches its command ----

  /** An answer whose id is in the table settles the command waiting under it, and no other. */
  lemma AnswerSettles(c: ClientState, key: nat, success: bool, status: Option<Status>)
    requires TableMatches(c) && key in c.pending && c.commands[c.pending[key]].outcome.Waiting?
    ensures var d, x := Handle(c, Response(Some(key), success, status)), c.pending[key];
            && d.commands == c.commands[x := c.commands[x].(outcome := if success then Accepted else Rejected)]
            && d.pending == c.pending
  {
  }

  /** Any other answer settles nobody: no id, an unknown one, or one whose command is settled already. */
  lemma OtherAnswersSettleNobody(c: ClientState, key: Option<nat>, success: bool, status: Option<Status>)
    requires TableMatches(c)
    requires key.Some? && key.value in c.pending ==> !c.commands[c.pending[key.value]].outcome.Waiting?
    ensures var d := Handle(c, Response(key, success, status)); d.commands == c.commands && d.pending == c.pending
  {
  }

  /** A command that waits when its own answer is handled is settled by that very step, as the answer says. */
  lemma OwnAnswerSettlesAtOnce(states: seq<ClientState>, events: seq<ClientEvent>, i: nat, x: nat, accepted: bool)
    requires IsClientRun(states, events) && i < |events| && x < |states[i].commands|
    requires Unfinished(states[i].commands[x]) && states[i].commands[x].outcome.Waiting?
    requires Answers(states[i], events[i], states[i].commands[x].key, accepted)
    ensures |states[i + 1].commands| == |states[i].commands|
    ensures states[i + 1].commands[x].outcome == if accepted then Accepted else Rejected
    ensures forall y | 0 <= y < |states[i].commands| && y != x :: states[i + 1].commands[y] == states[i].commands[y]
  {
    RunKeepsTable(states, events, i);
    StepAt(states, events, i);
    AnswerSettles(states[i], states[i].commands[x].key, accepted, events[i].frame.status);
  }

  /** How the caller of a command ends: normally exactly if it was accepted when the caller ran again. */
  lemma CallerEnds(c: ClientState, e: ClientEvent, x: nat)
    requires ClientEnabled(c, e) && x < |c.commands| && Unfinished(c.commands[x])
    ensures var before, after := c.commands[x], ClientApply(c, e).commands[x];
            && (after.phase.Returned? <==> e == CallerWoken(x) && before.outcome.Accepted?)
            && (after.phase.Raised? <==>
                  || (e == CallerWoken(x) && !before.outcome.Accepted?)
                  || e == SendRaised(x) || e == TimedOut(x) || e == CallerCancelled(x))
            && (after.phase.Awaiting? <==>
                  || e == SendDone(x)
                  || (before.phase.Awaiting? && e != CallerWoken(x) && e != TimedOut(x) && e != CallerCancelled(x)))
            && (!Unfinished(after) ==> before.key !in ClientApply(c, e).pending)
  {
    match e
    case FrameRead(frame) => FrameKeepsPhase(c, frame, x);
    case Begun => assert Reset(c).commands[x].phase == c.commands[x].phase;
    case Closed => assert Reset(c).commands[x].phase == c.commands[x].phase;
    case _ =>
  }

  lemma FrameKeepsPhase(c: ClientState, frame: Frame, x: nat)
    requires x < |c.commands|
    ensures |Handle(c, frame).commands| == |c.commands| && Handle(c, frame).commands[x].phase == c.commands[x].phase
  {
  }

  /** A waiting command that gets another outcome than an answer's: its connection went, or it gave up itself. */
  lemma UnansweredEnds(c: ClientState, e: ClientEvent, x: nat)
    requires TableMatches(c) && ClientEnabled(c, e) && x < |c.commands|
    requires Unfinished(c.commands[x]) && c.commands[x].outcome.Waiting?
    ensures var after := ClientApply(c, e).commands[x].outcome;
            && (after.Abandoned? <==> IsReset(e))
            && (after.GivenUp? <==> e == TimedOut(x) || (e == CallerCancelled(x) && c.commands[x].phase.Awaiting?))
  {
    if IsReset(e) {
      ResetAbandons(c, x);
    } else if e.FrameRead? {
      FrameAnswers(c, e.frame, x);
    }
  }

  lemma ResetAbandons(c: ClientState, x: nat)
    requires TableMatches(c) && x < |c.commands| && Unfinished(c.commands[x]) && c.commands[x].outcome.Waiting?
    ensures Reset(c).commands[x].outcome.Abandoned?
  {
    assert c.pending[c.commands[x].key] == x;
  }

  // ---- Only its own answer ----

  /** The step that sends command `x`. */
  predicate Sends(c: ClientState, e: ClientEvent, x: nat) { e == PropertySet(true) && |c.commands| == x }

  /** The step that answers command `x`: a handled answer carrying its id. */
  predicate Answers(c: ClientState, e: ClientEvent, key: nat, accepted: bool) {
    Handled(c, e) && e.frame.Response? && e.frame.key == Some(key) && e.frame.success == accepted
  }

  lemma StepAnswers(c: ClientState, e: ClientEvent, x: nat)
    requires TableMatches(c) && ClientEnabled(c, e) && x < |c.commands|
    requires c.commands[x].outcome.Waiting?
    ensures var out := ClientApply(c, e).commands[x].outcome;
            && (out.Accepted? || out.Rejected? ==>
                  && Answers(c, e, c.commands[x].key, out.Accepted?)
                  && c.commands[x].key in c.pending && c.pending[c.commands[x].key] == x)
            && (out.Abandoned? ==> IsReset(e))
  {
    if e.FrameRead? { FrameAnswers(c, e.frame, x); }
  }

  lemma FrameAnswers(c: ClientState, frame: Frame, x: nat)
    requires TableMatches(c) && x < |c.commands| && c.commands[x].outcome.Waiting?
    ensures var d := Handle(c, frame).commands;
            && |d| == |c.commands|
            && !d[x].outcome.Abandoned? && !d[x].outcome.GivenUp?
            && (!d[x].outcome.Waiting? ==>
                  && frame.Response? && frame.key == Some(c.commands[x].key) && frame.success == d[x].outcome.Accepted?
                  && c.commands[x].key in c.pending && c.pending[c.commands[x].key] == x)
  {
  }

  /** While a command is in the table, no reset has come since it was sent. */
  lemma {:induction false} InTableSinceSent(states: seq<ClientState>, events: seq<ClientEvent>, i: nat, key: nat)
    returns (m: nat)
    requires IsClientRun(states, events) && i < |states| && key in states[i].pending
    ensures m < i && Sends(states[m], events[m], states[i].pending[key])
    ensures forall k | m < k < i :: !IsReset(events[k])
  {
    RunKeepsTable(states, events, i);
    StepAt(states, events, i - 1);
    var c, e := states[i - 1], events[i - 1];
    PendingStep(c, e, key);
    if key in c.pending && c.pending[key] == states[i].pending[key] {
      m := InTableSinceSent(states, events, i - 1, key);
    } else {
      m := i - 1;
    }
  }

  lemma PendingStep(c: ClientState, e: ClientEvent, key: nat)
    requires ClientEnabled(c, e) && key in ClientApply(c, e).pending
    ensures !IsReset(e)
    ensures || (key in c.pending && ClientApply(c, e).pending[key] == c.pending[key])
            || Sends(c, e, ClientApply(c, e).pending[key])
  {
  }

  /**
   A command counts as accepted only by an accepting answer that carries its own id, handled
   after it was sent and before any other connection began; likewise for a rejection.
   */
  lemma {:induction false} OnlyItsOwnAnswer(states: seq<ClientState>, events: seq<ClientEvent>, j: nat, x: nat)
    returns (sent: nat, answered: nat)
    requires IsClientRun(states, events) && j < |states| && x < |states[j].commands|
    requires states[j].commands[x].outcome.Accepted? || states[j].commands[x].outcome.Rejected?
    ensures sent < answered < j && Sends(states[sent], events[sent], x)
    ensures Answers(states[answered], events[answered], states[j].commands[x].key, states[j].commands[x].outcome.Accepted?)
    ensures forall k | sent < k < answered :: !IsReset(events[k])
  {
    StepAt(states, events, j - 1);
    RunKeepsTable(states, events, j - 1);
    var c, e := states[j - 1], events[j - 1];
    if x < |c.commands| {
      StepMovesCommand(c, e, x);
      if c.commands[x].outcome.Waiting? {
        StepAnswers(c, e, x);
        answered := j - 1;
        sent := InTableSinceSent(states, events, j - 1, c.commands[x].key);
      } else {
        sent, answered := OnlyItsOwnAnswer(states, events, j - 1, x);
      }
    } else {
      NewCommandWaits(c, e, x);
    }
  }

  lemma NewCommandWaits(c: ClientState, e: ClientEvent, x: nat)
    requires ClientEnabled(c, e) && |c.commands| <= x < |ClientApply(c, e).commands|
    ensures ClientApply(c, e).commands[x].outcome.Waiting?
  {
  }

  /** A caller returns normally only from a command accepted on the connection it was sent on. */
  lemma ReturnMeansAccepted(states: seq<ClientState>, events: seq<ClientEvent>, j: nat, x: nat)
    returns (sent: nat, answered: nat)
    requires IsClientRun(states, events) && j < |states| && x < |states[j].commands|
    requires states[j].commands[x].phase.Returned?
    ensures sent < answered < j && Sends(states[sent], events[sent], x)
    ensures Answers(states[answered], events[answered], states[j].commands[x].key, true)
    ensures forall k | sent < k < answered :: !IsReset(events[k])
  {
    RunKeepsTable(states, events, j);
    sent, answered := OnlyItsOwnAnswer(states, events, j, x);
  }
}
