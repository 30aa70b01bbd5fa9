/** One charger per entry, one entry per charger, whatever sequence of setups and flows. */
module IdentityTheorems {
  import opened Wrappers
  import opened Identity

  lemma IdentityStep(states: seq<Registry>, events: seq<IdentityEvent>, i: nat)
    requires IsIdentityRun(states, events) && i < |events|
    ensures IdentityEnabled(states[i], events[i]) && states[i + 1] == IdentityApply(states[i], events[i])
  {
    assert IdentityStepAt(states, events, i);
  }

  // ---- No two entries share a serial ----

  lemma CreateKeepsConsistent(r: Registry, serial: string, host: string)
    requires Consistent(r) && !OwnedBySomeone(r, serial)
    ensures Consistent(CreateLocal(r, serial, host))
  {
  }

  lemma AdoptKeepsConsistent(r: Registry, id: nat, serial: string)
    requires Consistent(r) && id in r.entries && !r.entries[id].ignored
    ensures Consistent(AdoptSerial(r, id, serial).0)
  {
  }

  lemma StepKeepsConsistent(r: Registry, e: IdentityEvent)
    requires Consistent(r) && IdentityEnabled(r, e)
    ensures Consistent(IdentityApply(r, e))
  {
    match e
    case SetUp(id, serial) => AdoptKeepsConsistent(r, id, serial);
    case FormSubmitted(host, serial) => if !OwnedBySomeone(r, serial) { CreateKeepsConsistent(r, serial, host); }
    case CardConfirmed(announced, host, serial) =>
      if serial == announced && !Configured(r, announced) { CreateKeepsConsistent(r, serial, host); }
    case _ =>
  }

  /** In every state of every run no two entries, ignored cards included, have the same serial. */
  lemma {:induction false} SerialsAreUnique(states: seq<Registry>, events: seq<IdentityEvent>, i: nat)
    requires IsIdentityRun(states, events) && i < |states|
    ensures Consistent(states[i])
  {
    if i > 0 {
      SerialsAreUnique(states, events, i - 1);
      IdentityStep(states, events, i - 1);
      StepKeepsConsistent(states[i - 1], events[i - 1]);
    }
  }

  // ---- The one-time permission ----

  /** A migrated entry that knows its charger. */
  predicate KnowsItsCharger(e: Entry) { e.version >= ENTRY_VERSION && !AwaitsSerial(e) }

  /** How a step may change an entry that stays. */
  lemma StepOnEntry(r: Registry, e: IdentityEvent, id: nat)
    requires Consistent(r) && IdentityEnabled(r, e) && id in r.entries && id in IdentityApply(r, e).entries
    ensures var before, after := r.entries[id], IdentityApply(r, e).entries[id];
            && (KnowsItsCharger(before) ==> KnowsItsCharger(after) && after.uniqueId == before.uniqueId)
            && (before.version >= ENTRY_VERSION && AwaitsSerial(before) && !AwaitsSerial(after) ==>
                  e.SetUp? && e.id == id && after.uniqueId == Some(e.serial))
            && (after.uniqueId != before.uniqueId ==> e.SetUp? && e.id == id && AwaitsSerial(before))
            && after.version >= before.version
  {
  }

  lemma NewEntry(r: Registry, e: IdentityEvent, id: nat)
    requires IdentityEnabled(r, e) && id !in r.entries && id in IdentityApply(r, e).entries
    ensures id == r.nextId && IdentityApply(r, e).nextId == r.nextId + 1
    ensures e.FormSubmitted? || e.CardConfirmed? || e.CardIgnored?
    ensures IdentityApply(r, e).entries[id].uniqueId == Some(e.serial)
  {
  }

  lemma IdsGrow(r: Registry, e: IdentityEvent)
    requires IdentityEnabled(r, e)
    ensures IdentityApply(r, e).nextId >= r.nextId
  {
  }

  /** An entry seen in two states was there all the time between. */
  lemma {:induction false} StaysBetween(states: seq<Registry>, events: seq<IdentityEvent>, i: nat, j: nat, id: nat)
    requires IsIdentityRun(states, events) && i <= j < |states| && id < states[i].nextId && id in states[j].entries
    ensures forall k | i <= k <= j :: id in states[k].entries
  {
    if i < j {
      NextIdGrows(states, events, i, j - 1);
      IdentityStep(states, events, j - 1);
      if id !in states[j - 1].entries { NewEntry(states[j - 1], events[j - 1], id); }
      StaysBetween(states, events, i, j - 1, id);
    }
  }

  lemma {:induction false} NextIdGrows(states: seq<Registry>, events: seq<IdentityEvent>, i: nat, j: nat)
    requires IsIdentityRun(states, events) && i <= j < |states|
    ensures states[i].nextId <= states[j].nextId
  {
    if i < j {
      NextIdGrows(states, events, i, j - 1);
      IdentityStep(states, events, j - 1);
      IdsGrow(states[j - 1], events[j - 1]);
    }
  }

  /**
   An entry that no longer awaits its serial never awaits one again and never changes its unique
   id, whatever setups, migrations, reconfigures, discoveries and forms come.
   */
  lemma {:induction false} IdentityIsOneTime(states: seq<Registry>, events: seq<IdentityEvent>, i: nat, j: nat, id: nat)
    requires IsIdentityRun(states, events) && i <= j < |states|
    requires id in states[i].entries && id in states[j].entries && KnowsItsCharger(states[i].entries[id])
    ensures KnowsItsCharger(states[j].entries[id]) && states[j].entries[id].uniqueId == states[i].entries[id].uniqueId
  {
    if i < j {
      SerialsAreUnique(states, events, i);
      StaysBetween(states, events, i, j, id);
      IdentityIsOneTime(states, events, i, j - 1, id);
      SerialsAreUnique(states, events, j - 1);
      IdentityStep(states, events, j - 1);
      StepOnEntry(states[j - 1], events[j - 1], id);
    }
  }

  /**
   A charger reported this serial over a connection: to the setup of this entry, or to the flow that
   made it, with the id that was next.
   */
  predicate ReportedTo(r: Registry, e: IdentityEvent, id: nat, serial: string) {
    || (e.SetUp? && e.id == id && e.serial == serial)
    || ((e.FormSubmitted? || e.CardConfirmed?) && id == r.nextId && e.serial == serial)
  }

  /**
   An entry came to know its charger in one of two ways only: it knew it when the run began, or a
   charger reported that very serial over a connection -- to its own setup, or to the flow that made it.
   */
  lemma {:induction false} SettledMeansReported(states: seq<Registry>, events: seq<IdentityEvent>, j: nat, id: nat)
    requires IsIdentityRun(states, events) && j < |states| && id in states[j].entries
    requires KnowsItsCharger(states[j].entries[id]) && !states[j].entries[id].ignored
    ensures || (id in states[0].entries && states[0].entries[id].uniqueId == states[j].entries[id].uniqueId)
            || (exists k | 0 <= k < j :: ReportedTo(states[k], events[k], id, states[j].entries[id].uniqueId.value))
  {
    if j > 0 {
      var r, e := states[j - 1], events[j - 1];
      IdentityStep(states, events, j - 1);
      SerialsAreUnique(states, events, j - 1);
      if id in r.entries {
        StepOnEntry(r, e, id);
        if KnowsItsCharger(r.entries[id]) {
          IgnoredStays(r, e, id);
          SettledMeansReported(states, events, j - 1, id);
          if k :| 0 <= k < j - 1 && ReportedTo(states[k], events[k], id, states[j - 1].entries[id].uniqueId.value) {
            assert ReportedTo(states[k], events[k], id, states[j].entries[id].uniqueId.value);
          }
        } else {
          MigrationSettlesNobody(r, e, id);
          assert ReportedTo(r, e, id, states[j].entries[id].uniqueId.value);
        }
      } else {
        NewEntry(r, e, id);
        assert ReportedTo(r, e, id, states[j].entries[id].uniqueId.value);
      }
    }
  }

  lemma IgnoredStays(r: Registry, e: IdentityEvent, id: nat)
    requires IdentityEnabled(r, e) && id in r.entries && id in IdentityApply(r, e).entries && Consistent(r)
    ensures IdentityApply(r, e).entries[id].ignored == r.entries[id].ignored
  {
  }

  /** Only a setup that adopts makes an entry know its charger. */
  lemma MigrationSettlesNobody(r: Registry, e: IdentityEvent, id: nat)
    requires IdentityEnabled(r, e) && id in r.entries && id in IdentityApply(r, e).entries && Consistent(r)
    requires !KnowsItsCharger(r.entries[id]) && KnowsItsCharger(IdentityApply(r, e).entries[id])
    ensures e.SetUp? && e.id == id && IdentityApply(r, e).entries[id].uniqueId == Some(e.serial)
  {
  }

  // ---- Reconfigure, and what setup makes of it ----

  /**
   A reconfigure leaves the unique id alone and preserves the awaiting status in both directions;
   a cloud entry becomes a local one that still awaits its serial.
   */
  lemma ReconfigurePreservesAwaiting(r: Registry, id: nat, host: string, serial: string)
    requires IdentityEnabled(r, Reconfigured(id, host, serial))
    ensures var before, after := r.entries[id], IdentityApply(r, Reconfigured(id, host, serial)).entries[id];
            && after.uniqueId == before.uniqueId
            && (AwaitsSerial(after) <==> AwaitsSerial(before))
            && (before.connection.Cloud? && after != before ==> after.connection.Local? && after.awaiting)
  {
  }

  /**
   A reconfigure that was let through is not refused by the setup after it, with the same charger
   answering and nothing in between: the entry ends up with that charger's serial, awaiting nothing.
   */
  lemma ReconfigureThenSetupSucceeds(r: Registry, id: nat, host: string, serial: string)
    requires Consistent(r) && IdentityEnabled(r, Reconfigured(id, host, serial)) && !IdentityError(r, id, serial)
    ensures var r1 := IdentityApply(r, Reconfigured(id, host, serial));
            && IdentityEnabled(r1, SetUp(id, serial))
            && AdoptSerial(r1, id, serial).1 == None
            && var e := AdoptSerial(r1, id, serial).0.entries[id];
               e.uniqueId == Some(serial) && KnowsItsCharger(e) && e.host == host
  {
    var r1 := IdentityApply(r, Reconfigured(id, host, serial));
    assert forall other | other in r1.entries && other != id :: r1.entries[other] == r.entries[other];
  }

  /**
   What a setup leaves behind. When it succeeds, the entry has the charger's serial for good and
   shares it with nobody: the same charger is welcome again and changes nothing, any other is refused.
   When it fails, nothing has changed and the same charger fails again.
   */
  lemma SetupDecidesOnce(r: Registry, id: nat, serial: string, other: string)
    requires Consistent(r) && IdentityEnabled(r, SetUp(id, serial))
    ensures var (after, error) := AdoptSerial(r, id, serial);
            && id in after.entries && !after.entries[id].ignored
            && AdoptSerial(after, id, serial) == (after, error)
            && (if error == None
                then
                  && KnowsItsCharger(after.entries[id]) && after.entries[id].uniqueId == Some(serial)
                  && (forall x | x in after.entries && x != id :: after.entries[x].uniqueId != Some(serial))
                  && (other != serial ==> AdoptSerial(after, id, other) == (after, Some(WrongCharger)))
                else after == r)
  {
    AdoptKeepsConsistent(r, id, serial);
  }
}
