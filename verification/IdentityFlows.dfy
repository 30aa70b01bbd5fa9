/** What each setup, flow and card does to the entries: when it is let through, and what it writes and leaves alone. */
module IdentityFlows {
  import opened Wrappers
  import opened Identity
  import opened IdentityTheorems

  // ---- Who has a serial ----

  /** An entry of its own, not an ignored card, has this serial. */
  ghost predicate HasEntry(r: Registry, serial: string) {
    exists id | id in r.entries :: r.entries[id].uniqueId == Some(serial) && !r.entries[id].ignored
  }

  ghost predicate HasEntryBut(r: Registry, id: nat, serial: string) {
    exists other | other in r.entries && other != id ::
      r.entries[other].uniqueId == Some(serial) && !r.entries[other].ignored
  }

  ghost predicate HasCard(r: Registry, serial: string) {
    exists id | id in r.entries :: r.entries[id].uniqueId == Some(serial) && r.entries[id].ignored
  }

  /** The entry of a charger not yet known: no id, the marker of the migration, or a cloud entry. */
  predicate Awaits(e: Entry) { e.uniqueId == None || e.awaiting || e.connection == Cloud }

  /** No entry but `id` differs. */
  ghost predicate SameBut(r: Registry, t: Registry, id: nat) {
    forall x: nat | x != id :: (x in t.entries <==> x in r.entries) && (x in r.entries ==> t.entries[x] == r.entries[x])
  }

  /** The same, but for the ignored cards of this charger, which are gone. */
  ghost predicate SameButCards(r: Registry, t: Registry, id: nat, serial: string) {
    forall x: nat | x != id ::
      && (x in t.entries <==> x in r.entries && !(r.entries[x].ignored && r.entries[x].uniqueId == Some(serial)))
      && (x in t.entries ==> t.entries[x] == r.entries[x])
  }

  // ---- Migration and setup ----

  /**
   A fork entry of the cloud becomes a cloud entry, any other a local one that has the marker; either
   keeps its unique id and awaits its serial. A later version stays as it is.
   */
  lemma MigrationWrites(r: Registry, id: nat)
    requires IdentityEnabled(r, Migrated(id))
    ensures var t, e := IdentityApply(r, Migrated(id)), r.entries[id];
            && SameBut(r, t, id) && t.nextId == r.nextId && id in t.entries
            && (e.version != 1 ==> t.entries[id] == e)
            && (e.version == 1 && e.connection == Fork(true) ==>
                  t.entries[id] == Entry(e.uniqueId, 2, Cloud, false, e.host, e.ignored))
            && (e.version == 1 && e.connection != Fork(true) ==>
                  t.entries[id] == Entry(e.uniqueId, 2, Local, true, e.host, e.ignored))
            && (e.version == 1 ==> Awaits(t.entries[id]))
  {
  }

  /**
   A setup is refused as another charger's exactly if the entry knows its charger and it is not this one,
   and as a duplicate exactly if it does not and another entry has this serial. Otherwise the entry has
   the serial and awaits nothing; the ignored cards of that charger are gone if it did not know it before.
   */
  lemma SetupWrites(r: Registry, id: nat, serial: string)
    requires IdentityEnabled(r, SetUp(id, serial))
    ensures IdentityApply(r, SetUp(id, serial)) == AdoptSerial(r, id, serial).0
    ensures var (t, error) := AdoptSerial(r, id, serial); var e := r.entries[id];
            && (error == Some(WrongCharger) <==> !Awaits(e) && e.uniqueId != Some(serial))
            && (error == Some(DuplicateDevice) <==> Awaits(e) && HasEntryBut(r, id, serial))
            && t.nextId == r.nextId && id in t.entries
            && (if error == None
                then
                  && t.entries[id] == e.(uniqueId := Some(serial), awaiting := false)
                  && (if Awaits(e) then SameButCards(r, t, id, serial) else t == r)
                else t == r)
  {
  }

  /** A migrated entry of its own is set up unless it is a cloud entry; its flows are offered all the same. */
  lemma WhoIsSetUp(r: Registry, id: nat, serial: string, host: string)
    ensures var usable := id in r.entries && !r.entries[id].ignored && r.entries[id].version == 2;
            && (IdentityEnabled(r, SetUp(id, serial)) <==> usable && r.entries[id].connection != Cloud)
            && (IdentityEnabled(r, Reconfigured(id, host, serial)) <==> usable)
            && (IdentityEnabled(r, Reauthenticated(id, serial)) <==> usable)
  {
  }

  // ---- Flows ----

  /** A reconfigure is let through exactly if the entry may be this charger's; then it is local, at that address. */
  lemma ReconfigureWrites(r: Registry, id: nat, host: string, serial: string)
    requires IdentityEnabled(r, Reconfigured(id, host, serial))
    ensures var t, e := IdentityApply(r, Reconfigured(id, host, serial)), r.entries[id];
            && SameBut(r, t, id) && t.nextId == r.nextId && id in t.entries
            && t.entries[id] == if (Awaits(e) || e.uniqueId == Some(serial)) && !HasEntryBut(r, id, serial)
                                then Entry(e.uniqueId, e.version, Local, Awaits(e), host, e.ignored) else e
  {
  }

  /** The new entry of a charger found at an address. */
  ghost predicate Creates(r: Registry, t: Registry, serial: string, host: string) {
    && t.nextId == r.nextId + 1 && r.nextId in t.entries
    && t.entries[r.nextId] == Entry(Some(serial), 2, Local, false, host, false)
    && SameButCards(r, t, r.nextId, serial)
  }

  /**
   The form makes an entry exactly if the charger has none and no entry at that address still awaits
   its serial; an ignored card does not stand in its way.
   */
  lemma FormWrites(r: Registry, host: string, serial: string)
    ensures var t := IdentityApply(r, FormSubmitted(host, serial));
            if HasEntry(r, serial)
               || exists id | id in r.entries ::
                    !r.entries[id].ignored && Awaits(r.entries[id]) && r.entries[id].host == host
            then t == r else Creates(r, t, serial, host)
  {
  }

  /** A card makes an entry exactly if the charger is the one announced and has neither an entry nor an ignored card. */
  lemma CardWrites(r: Registry, announced: string, host: string, serial: string)
    ensures var t := IdentityApply(r, CardConfirmed(announced, host, serial));
            if serial == announced && !HasEntry(r, serial) && !HasCard(r, serial)
            then Creates(r, t, serial, host) else t == r
  {
  }

  /** An announcement moves the entry of that charger to the address, where it may, and nothing else. */
  lemma DiscoveryWrites(r: Registry, serial: string, host: string, moves: bool)
    ensures var t := IdentityApply(r, Discovered(serial, host, moves));
            && t.nextId == r.nextId && t.entries.Keys == r.entries.Keys
            && forall id | id in r.entries ::
                 t.entries[id] == if moves && r.entries[id].uniqueId == Some(serial)
                                  then r.entries[id].(host := host) else r.entries[id]
  {
  }

  /** A card is ignored exactly if its charger has neither an entry nor an ignored card yet. */
  lemma IgnoringWrites(r: Registry, serial: string)
    requires r.nextId !in r.entries
    ensures var t := IdentityApply(r, CardIgnored(serial));
            if HasEntry(r, serial) || HasCard(r, serial) then t == r
            else
              && t.nextId == r.nextId + 1 && SameBut(r, t, r.nextId) && r.nextId in t.entries
              && t.entries[r.nextId] == Entry(Some(serial), 2, Local, false, "", true)
  {
  }

  /** Removing takes that entry; a new password changes no identity. */
  lemma RemovalWrites(r: Registry, id: nat, serial: string)
    ensures var t := IdentityApply(r, Removed(id)); SameBut(r, t, id) && id !in t.entries && t.nextId == r.nextId
    ensures IdentityEnabled(r, Reauthenticated(id, serial)) ==> IdentityApply(r, Reauthenticated(id, serial)) == r
  {
  }

  // ---- Over runs ----

  /** How an entry reaches its charger changes by its migration and by a reconfigure, and by nothing else. */
  lemma {:induction false} ConnectionStays(states: seq<Registry>, events: seq<IdentityEvent>, i: nat, j: nat, id: nat)
    requires IsIdentityRun(states, events) && i <= j < |states| && id in states[i].entries && id in states[j].entries
    requires forall k | i <= k < j :: !(events[k].Migrated? && events[k].id == id)
                                      && !(events[k].Reconfigured? && events[k].id == id)
    ensures states[j].entries[id].connection == states[i].entries[id].connection
  {
    if i < j {
      SerialsAreUnique(states, events, i);
      StaysBetween(states, events, i, j, id);
      ConnectionStays(states, events, i, j - 1, id);
      SerialsAreUnique(states, events, j - 1);
      IdentityStep(states, events, j - 1);
      ConnectionStep(states[j - 1], events[j - 1], id);
    }
  }

  lemma ConnectionStep(r: Registry, e: IdentityEvent, id: nat)
    requires Consistent(r) && IdentityEnabled(r, e) && id in r.entries && id in IdentityApply(r, e).entries
    requires !(e.Migrated? && e.id == id) && !(e.Reconfigured? && e.id == id)
    ensures IdentityApply(r, e).entries[id].connection == r.entries[id].connection
  {
  }
}
