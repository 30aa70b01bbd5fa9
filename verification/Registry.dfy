/**
 The one-time rewrite of legacy unique ids: whatever ends in a known suffix is re-keyed to the
 charger's serial, in place, entry by entry, without ever taking an id that is already held.
 */
module Registry {
  import opened Wrappers

  // ---- The suffix map ----

  /** A chip sensor read from the card list, its twin with a key of its own, and that key. */
  datatype Twin = Twin(fromList: string, own: string, ownKey: string)

  datatype Tables = Tables(
    ours: set<string>,
    aliases: map<string, string>,
    variant22: map<string, string>,
    twins: seq<Twin>,
    cardListKeys: set<string>)

  const SUFFIX_ALIASES := map["AccessState" := "access_state", "carConnected" := "car_connected"]
  const VARIANT_22_SUFFIXES := map["amp" := "amp_22kw"]
  const DIGITS := "0123456789"

  function ChipTwin(i: nat): Twin
    requires i < 10
  {
    Twin("cards_" + [DIGITS[i]], "chip_" + [DIGITS[i]], "c" + [DIGITS[i]] + "e")
  }

  /** `ours`: the suffixes of the description tables. */
  function WattpilotTables(ours: set<string>): Tables {
    Tables(ours, SUFFIX_ALIASES, VARIANT_22_SUFFIXES, seq(10, i requires 0 <= i < 10 => ChipTwin(i)), {"cards"})
  }

  function ChipsWithOwnKey(twins: seq<Twin>, properties: set<string>): map<string, string> {
    if twins == [] then map[]
    else
      var last := twins[|twins| - 1];
      var before := ChipsWithOwnKey(twins[..|twins| - 1], properties);
      if last.ownKey in properties then before[last.fromList := last.own] else before
  }

  /** Only a charger that stopped reporting the card list moves its chips. */
  function FlatChipSuffixes(t: Tables, properties: set<string>): map<string, string> {
    if t.cardListKeys * properties != {} then map[] else ChipsWithOwnKey(t.twins, properties)
  }

  function KnownSuffixes(t: Tables, is22: bool, properties: set<string>): map<string, string> {
    (map suffix | suffix in t.ours :: suffix) + t.aliases + (if is22 then t.variant22 else map[])
      + FlatChipSuffixes(t, properties)
  }

  predicate DashFree(suffix: string) { '-' !in suffix }

  /** What the description tables keep: dash-free suffixes, and no suffix both a destination and re-mapped. */
  ghost predicate WellFormed(t: Tables) {
    var remapped := t.aliases.Keys + t.variant22.Keys + set twin | twin in t.twins :: twin.fromList;
    var destinations := t.aliases.Values + t.variant22.Values + set twin | twin in t.twins :: twin.own;
    && (forall suffix | suffix in t.ours + remapped :: DashFree(suffix))
    && destinations <= t.ours
    && remapped !! destinations
  }

  /** A map that sends its own results to themselves. */
  ghost predicate Idempotent(suffixes: map<string, string>) {
    forall s | s in suffixes :: DashFree(s) && suffixes[s] in suffixes && suffixes[suffixes[s]] == suffixes[s]
  }

  // ---- Matching ----

  predicate EndsWith(uid: string, suffix: string) {
    |suffix| < |uid| && uid[|uid| - |suffix| - 1..] == "-" + suffix
  }

  /** The suffixes, longest first. */
  ghost predicate LongestFirst(order: seq<string>, suffixes: map<string, string>) {
    && (forall s :: s in order <==> s in suffixes)
    && forall i, j | 0 <= i < j < |order| :: |order[i]| >= |order[j]|
  }

  function FirstMatch(uid: string, order: seq<string>): (r: Option<string>)
    ensures r.Some? ==> r.value in order && EndsWith(uid, r.value)
  {
    if order == [] then None
    else if EndsWith(uid, order[0]) then Some(order[0])
    else FirstMatch(uid, order[1..])
  }

  method MatchLegacySuffix(uid: string, order: seq<string>) returns (found: Option<string>)
    ensures found == FirstMatch(uid, order)
  {
    var i := 0;
    while i < |order|
      invariant 0 <= i <= |order|
      invariant FirstMatch(uid, order) == FirstMatch(uid, order[i..])
    {
      if EndsWith(uid, order[i]) {
        return Some(order[i]);
      }
      assert order[i..][1..] == order[i + 1..];
      i := i + 1;
    }
    return None;
  }

  // ---- The rewrite ----

  datatype Entity = Entity(entityId: string, domain: string, uid: string)

  /** The charger's serial and its suffixes, longest first. */
  datatype Rename = Rename(serial: string, suffixes: map<string, string>, order: seq<string>)

  ghost predicate Usable(r: Rename) { LongestFirst(r.order, r.suffixes) }

  function Id(serial: string, suffix: string): string { serial + "-" + suffix }

  /** The id an entity should move to, if it is not there already. */
  function Target(r: Rename, uid: string): Option<string> {
    var found := FirstMatch(uid, r.order);
    if found.None? || found.value !in r.suffixes then None
    else
      var target := Id(r.serial, r.suffixes[found.value]);
      if uid == target then None else Some(target)
  }

  /** Uniqueness is per domain. */
  function Key(e: Entity): (string, string) { (e.domain, e.uid) }

  function Keys(entities: seq<Entity>): set<(string, string)> { set e | e in entities :: Key(e) }

  /** The entities with those before `n` rewritten, the ids taken, and the ids reported as collisions. */
  datatype Progress = Progress(entities: seq<Entity>, existing: set<(string, string)>, collisions: seq<string>)

  function MigrateOne(r: Rename, p: Progress, i: nat): Progress
    requires i < |p.entities|
  {
    var e := p.entities[i];
    var target := Target(r, e.uid);
    if target.None? then p
    else if (e.domain, target.value) in p.existing then p.(collisions := p.collisions + [e.entityId])
    else p.(entities := p.entities[i := e.(uid := target.value)], existing := p.existing + {(e.domain, target.value)})
  }

  function Migrated(r: Rename, entities: seq<Entity>, n: nat): (p: Progress)
    requires n <= |entities|
    ensures |p.entities| == |entities|
  {
    if n == 0 then Progress(entities, Keys(entities), [])
    else MigrateOne(r, Migrated(r, entities, n - 1), n - 1)
  }

  /** async_migrate_legacy_unique_ids(), on the registry entries of one config entry. */
  method MigrateLegacyUniqueIds(registry: array<Entity>, r: Rename) returns (collisions: seq<string>)
    requires Usable(r)
    modifies registry
    ensures Progress(registry[..], Migrated(r, old(registry[..]), registry.Length).existing, collisions)
              == Migrated(r, old(registry[..]), registry.Length)
  {
    ghost var was := registry[..];
    var existing := set e | e in registry[..] :: (e.domain, e.uid);
    collisions := [];
    var i := 0;
    while i < registry.Length
      invariant 0 <= i <= registry.Length
      invariant Progress(registry[..], existing, collisions) == Migrated(r, was, i)
    {
      var e := registry[i];
      var legacySuffix := MatchLegacySuffix(e.uid, r.order);
      if legacySuffix.Some? {
        assert legacySuffix.value in r.suffixes;
        var target := Id(r.serial, r.suffixes[legacySuffix.value]);
        if e.uid != target {
          if (e.domain, target) in existing {
            collisions := collisions + [e.entityId];
          } else {
            existing := existing + {(e.domain, target)};
            registry[i] := e.(uid := target);
          }
        }
      }
      i := i + 1;
    }
  }
}
