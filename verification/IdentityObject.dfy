/** Setup, migration and the flows as they rewrite the list of config entries in place. */
module IdentityObject {
  import opened Wrappers
  import opened Identity
  import opened IdentityTheorems

  class ConfigEntries {
    var entries: map<nat, Entry>
    var nextId: nat

    ghost function View(): Registry
      reads this
    {
      Registry(entries, nextId)
    }

    ghost predicate Valid()
      reads this
    {
      Consistent(View())
    }

    constructor ()
      ensures Valid() && entries == map[]
    {
      entries, nextId := map[], 0;
    }

    method SerialTaken(id: nat, serial: string) returns (taken: bool)
      ensures taken == SerialTakenByOtherEntry(View(), id, serial)
    {
      var left := entries.Keys;
      while left != {}
        invariant left <= entries.Keys
        invariant forall other | other in entries && other !in left ::
                    !(other != id && !entries[other].ignored && entries[other].uniqueId == Some(serial))
        decreases left
      {
        var other :| other in left;
        if other != id && !entries[other].ignored && entries[other].uniqueId == Some(serial) {
          return true;
        }
        left := left - {other};
      }
      return false;
    }

    /** An ignored card only kept the charger from being offered; the entry does that now. */
    method RemoveIgnoredCard(serial: string)
      modifies `entries
      ensures View() == WithoutIgnoredCard(old(View()), serial)
    {
      var all := entries;
      var left := all.Keys;
      while left != {}
        invariant left <= all.Keys
        invariant entries == map id |
                    id in all && (id in left || !(all[id].ignored && all[id].uniqueId == Some(serial))) :: all[id]
        modifies `entries
        decreases left
      {
        var id :| id in left;
        if all[id].ignored && all[id].uniqueId == Some(serial) {
          entries := entries - {id};
        }
        left := left - {id};
      }
    }

    /** The identity part of setup, with the serial the connected charger reports. */
    method FinishSetup(id: nat, serial: string) returns (error: Option<SetupError>)
      requires Valid() && IdentityEnabled(View(), SetUp(id, serial))
      modifies `entries
      ensures Valid() && (View(), error) == AdoptSerial(old(View()), id, serial)
    {
      AdoptKeepsConsistent(View(), id, serial);
      if entries[id].uniqueId == Some(serial) && !AwaitsSerial(entries[id]) {
        return None;
      }
      error := Adopt(id, serial);
    }

    /** _adopt_serial(): once, and only once. */
    method Adopt(id: nat, serial: string) returns (error: Option<SetupError>)
      requires id in entries && !entries[id].ignored && (entries[id].uniqueId != Some(serial) || AwaitsSerial(entries[id]))
      modifies `entries
      ensures (View(), error) == AdoptSerial(old(View()), id, serial)
    {
      if !AwaitsSerial(entries[id]) {
        return Some(WrongCharger);
      }
      var taken := SerialTaken(id, serial);
      if taken {
        return Some(DuplicateDevice);
      }
      RemoveIgnoredCard(serial);
      entries := entries[id := entries[id].(uniqueId := Some(serial), awaiting := false)];
      return None;
    }

    method Migrate(id: nat) returns (supported: bool)
      requires Valid() && IdentityEnabled(View(), Migrated(id))
      modifies `entries
      ensures Valid() && View() == IdentityApply(old(View()), Migrated(id))
      ensures supported == (old(entries[id].version) <= ENTRY_VERSION)
    {
      StepKeepsConsistent(View(), Migrated(id));
      if entries[id].version > ENTRY_VERSION {
        return false;
      }
      if entries[id].version == 1 {
        if entries[id].connection.Fork? && entries[id].connection.cloud {
          entries := entries[id := entries[id].(connection := Cloud, awaiting := false)];
        } else {
          entries := entries[id := entries[id].(connection := Local, awaiting := true)];
        }
        entries := entries[id := entries[id].(version := ENTRY_VERSION)];
      }
      return true;
    }

    /** The end of a reconfigure: the probe reached a charger with this serial. */
    method Reconfigure(id: nat, host: string, serial: string) returns (rejected: bool)
      requires Valid() && IdentityEnabled(View(), Reconfigured(id, host, serial))
      modifies `entries
      ensures Valid() && View() == IdentityApply(old(View()), Reconfigured(id, host, serial))
      ensures rejected == IdentityError(old(View()), id, serial)
    {
      StepKeepsConsistent(View(), Reconfigured(id, host, serial));
      if !AwaitsSerial(entries[id]) && entries[id].uniqueId != Some(serial) {
        return true;
      }
      var taken := SerialTaken(id, serial);
      if taken {
        return true;
      }
      var awaiting := AwaitsSerial(entries[id]);
      entries := entries[id := entries[id].(connection := Local, host := host, awaiting := awaiting)];
      return false;
    }
  }
}
