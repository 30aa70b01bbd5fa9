/**
 Which charger a config entry belongs to. An entry may take a serial once: by adopting what the
 charger reports while it still awaits one. One event is one check together with its write.
 */
module Identity {
  import opened Wrappers

  /** `Fork`: data of the first version, which has no connection type. */
  datatype Connection = Fork(cloud: bool) | Local | Cloud

  /** `awaiting`: the one-time marker of the migration. */
  datatype Entry = Entry(
    uniqueId: Option<string>,
    version: nat,
    connection: Connection,
    awaiting: bool,
    host: string,
    ignored: bool)

  /** Ids are never used again. */
  datatype Registry = Registry(entries: map<nat, Entry>, nextId: nat)

  const ENTRY_VERSION := 2

  // ---- Queries ----

  predicate AwaitsSerial(e: Entry) {
    e.uniqueId.None? || e.awaiting || e.connection.Cloud?
  }

  predicate SerialTakenByOtherEntry(r: Registry, id: nat, serial: string) {
    exists other | other in r.entries ::
      other != id && !r.entries[other].ignored && r.entries[other].uniqueId == Some(serial)
  }

  /** Home Assistant finds an entry by its unique id, an ignored one included. */
  predicate Configured(r: Registry, serial: string) {
    exists id | id in r.entries :: r.entries[id].uniqueId == Some(serial)
  }

  predicate OwnedBySomeone(r: Registry, serial: string) {
    exists id | id in r.entries :: !r.entries[id].ignored && r.entries[id].uniqueId == Some(serial)
  }

  predicate AwaitingEntryAt(r: Registry, host: string) {
    exists id | id in r.entries :: !r.entries[id].ignored && AwaitsSerial(r.entries[id]) && r.entries[id].host == host
  }

  // ---- Migration and setup ----

  function MigrateEntry(e: Entry): Entry {
    if e.version != 1 then e
    else if e.connection.Fork? && e.connection.cloud then
      e.(version := ENTRY_VERSION, connection := Cloud, awaiting := false)
    else e.(version := ENTRY_VERSION, connection := Local, awaiting := true)
  }

  /** Everything but the ignored cards of this charger. */
  function WithoutIgnoredCard(r: Registry, serial: string): Registry {
    r.(entries := map id |
         id in r.entries && !(r.entries[id].ignored && r.entries[id].uniqueId == Some(serial)) :: r.entries[id])
  }

  datatype SetupError = WrongCharger | DuplicateDevice

  /** _finish_setup() with the serial the charger reports, up to the entry's identity. */
  function AdoptSerial(r: Registry, id: nat, serial: string): (Registry, Option<SetupError>)
    requires id in r.entries && !r.entries[id].ignored
  {
    var e := r.entries[id];
    if e.uniqueId == Some(serial) && !AwaitsSerial(e) then (r, None)
    else if !AwaitsSerial(e) then (r, Some(WrongCharger))
    else if SerialTakenByOtherEntry(r, id, serial) then (r, Some(DuplicateDevice))
    else
      var r1 := WithoutIgnoredCard(r, serial);
      (r1.(entries := r1.entries[id := e.(uniqueId := Some(serial), awaiting := false)]), None)
  }

  // ---- Flows ----

  /** Whether this entry must not be moved onto that charger. */
  predicate IdentityError(r: Registry, id: nat, serial: string)
    requires id in r.entries
  {
    (!AwaitsSerial(r.entries[id]) && r.entries[id].uniqueId != Some(serial)) || SerialTakenByOtherEntry(r, id, serial)
  }

  /** Reconfigure proves the address, never the identity. */
  function LocalEntryData(e: Entry, host: string): Entry {
    e.(connection := Local, host := host, awaiting := AwaitsSerial(e))
  }

  /** A new entry takes the place of an ignored card. */
  function CreateLocal(r: Registry, serial: string, host: string): Registry {
    var r1 := WithoutIgnoredCard(r, serial);
    Registry(r1.entries[r.nextId := Entry(Some(serial), ENTRY_VERSION, Local, false, host, false)], r.nextId + 1)
  }

  function CreateIgnored(r: Registry, serial: string): Registry {
    Registry(r.entries[r.nextId := Entry(Some(serial), ENTRY_VERSION, Local, false, "", true)], r.nextId + 1)
  }

  /** The announced address goes to the entry of that charger, if it follows announcements. */
  function DiscoveryUpdate(r: Registry, serial: string, host: string): Registry {
    r.(entries := map id | id in r.entries ::
         if r.entries[id].uniqueId == Some(serial) then r.entries[id].(host := host) else r.entries[id])
  }

  // ---- Events ----

  datatype IdentityEvent =
    | Migrated(id: nat)
    | SetUp(id: nat, serial: string)
    | Reconfigured(id: nat, host: string, serial: string)
    | Reauthenticated(id: nat, serial: string)
    | FormSubmitted(host: string, serial: string)
    | CardConfirmed(announced: string, host: string, serial: string)
    | Discovered(serial: string, host: string, moves: bool)
    | CardIgnored(serial: string)
    | Removed(id: nat)

  /** An entry that can be set up and offered its flows. */
  predicate Usable(r: Registry, id: nat) {
    id in r.entries && !r.entries[id].ignored && r.entries[id].version == ENTRY_VERSION
  }

  predicate IdentityEnabled(r: Registry, e: IdentityEvent) {
    match e
    case Migrated(id) => id in r.entries && !r.entries[id].ignored
    case SetUp(id, _) => Usable(r, id) && !r.entries[id].connection.Cloud?
    case Reconfigured(id, _, _) => Usable(r, id)
    case Reauthenticated(id, _) => Usable(r, id)
    case _ => true
  }

  function IdentityApply(r: Registry, e: IdentityEvent): Registry
    requires IdentityEnabled(r, e)
  {
    match e
    case Migrated(id) => r.(entries := r.entries[id := MigrateEntry(r.entries[id])])
    case SetUp(id, serial) => AdoptSerial(r, id, serial).0
    case Reconfigured(id, host, serial) =>
      if IdentityError(r, id, serial) then r
      else r.(entries := r.entries[id := LocalEntryData(r.entries[id], host)])
    case Reauthenticated(id, serial) => r  // the password is not part of the model
    case FormSubmitted(host, serial) =>
      if AwaitingEntryAt(r, host) || OwnedBySomeone(r, serial) then r else CreateLocal(r, serial, host)
    case CardConfirmed(announced, host, serial) =>
      if serial != announced || Configured(r, announced) then r else CreateLocal(r, serial, host)
    case Discovered(serial, host, moves) => if moves then DiscoveryUpdate(r, serial, host) else r
    case CardIgnored(serial) => if Configured(r, serial) then r else CreateIgnored(r, serial)
    case Removed(id) => r.(entries := r.entries - {id})
  }

  predicate IdentityStepAt(states: seq<Registry>, events: seq<IdentityEvent>, i: nat)
    requires |states| == |events| + 1
  {
    i < |events| ==> IdentityEnabled(states[i], events[i]) && states[i + 1] == IdentityApply(states[i], events[i])
  }

  /** Any registry Home Assistant may start from: ids below the next, no unique id twice. */
  ghost predicate Consistent(r: Registry) {
    && (forall id | id in r.entries :: id < r.nextId)
    && (forall a, b | a in r.entries && b in r.entries && a != b ::
          r.entries[a].uniqueId.Some? ==> r.entries[a].uniqueId != r.entries[b].uniqueId)
  }

  ghost predicate IsIdentityRun(states: seq<Registry>, events: seq<IdentityEvent>) {
    |states| == |events| + 1 && Consistent(states[0]) && forall i: nat :: IdentityStepAt(states, events, i)
  }
}
