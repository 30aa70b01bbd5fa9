/** What the rewrite keeps, whom it moves, and that a second run changes nothing. */
module RegistryTheorems {
  import opened Wrappers
  import opened Registry

  // ---- The suffix map ----

  lemma {:induction false} ChipsAreTwins(twins: seq<Twin>, properties: set<string>)
    ensures forall s | s in ChipsWithOwnKey(twins, properties) ::
              exists twin | twin in twins :: twin.fromList == s && twin.own == ChipsWithOwnKey(twins, properties)[s]
  {
    if twins != [] {
      var n := |twins| - 1;
      ChipsAreTwins(twins[..n], properties);
      assert twins == twins[..n] + [twins[n]];
    }
  }

  /**
   For every charger, whatever its variant and whatever it reports, the suffix map is idempotent:
   what it maps to, it maps to itself.
   */
  lemma SuffixMapSettles(t: Tables, is22: bool, properties: set<string>)
    requires WellFormed(t)
    ensures Idempotent(KnownSuffixes(t, is22, properties))
  {
    ChipsAreTwins(t.twins, properties);
    var suffixes, chips := KnownSuffixes(t, is22, properties), FlatChipSuffixes(t, properties);
    forall s | s in suffixes
      ensures DashFree(s) && suffixes[s] in suffixes && suffixes[suffixes[s]] == suffixes[s]
    {
      if s in chips {
        var twin :| twin in t.twins && twin.fromList == s && twin.own == chips[s];
        NotRemapped(t, properties, twin.own);
      } else if is22 && s in t.variant22 {
        NotRemapped(t, properties, t.variant22[s]);
      } else if s in t.aliases {
        NotRemapped(t, properties, t.aliases[s]);
      }
    }
  }

  /** A destination is one of our suffixes, and maps to itself. */
  lemma NotRemapped(t: Tables, properties: set<string>, s: string)
    requires WellFormed(t)
    requires s in t.aliases.Values || s in t.variant22.Values || exists twin | twin in t.twins :: twin.own == s
    ensures s in t.ours && s !in t.aliases && s !in t.variant22 && s !in FlatChipSuffixes(t, properties)
  {
    ChipsAreTwins(t.twins, properties);
    var destinations := t.aliases.Values + t.variant22.Values + set twin | twin in t.twins :: twin.own;
    assert s in destinations;
  }

  /** What the description tables have to keep for that: every destination, and no dash. */
  ghost predicate ListsDestinations(ours: set<string>) {
    && (forall suffix | suffix in ours :: DashFree(suffix))
    && {"access_state", "car_connected", "amp_22kw"} <= ours
    && (forall i | 0 <= i < 10 :: ChipTwin(i).own in ours)
  }

  lemma WattpilotTablesAreWellFormed(ours: set<string>)
    requires ListsDestinations(ours)
    ensures WellFormed(WattpilotTables(ours))
  {
    var t := WattpilotTables(ours);
    forall twin | twin in t.twins
      ensures twin.own in ours && DashFree(twin.fromList)
      ensures twin.fromList[0] == 'c' && twin.fromList[1] == 'a' && |twin.fromList| == 7
      ensures twin.own[0] == 'c' && twin.own[1] == 'h' && |twin.own| == 6
    {
      var i :| 0 <= i < 10 && twin == ChipTwin(i);
      assert twin.own == ChipTwin(i).own;
    }
    assert SUFFIX_ALIASES.Keys == {"AccessState", "carConnected"};
    assert SUFFIX_ALIASES.Values == {"access_state", "car_connected"};
    assert VARIANT_22_SUFFIXES.Keys == {"amp"} && VARIANT_22_SUFFIXES.Values == {"amp_22kw"};
  }

  // ---- Which suffix goes where ----

  /** The character for a number below ten. */
  function Digit(i: nat): char
    requires i < 10
  {
    ('0' as int + i) as char
  }

  /** The chip moves: the charger stopped reporting the card list, and reports a key for this chip. */
  predicate ChipMoves(properties: set<string>, i: nat)
    requires i < 10
  {
    "cards" !in properties && "c" + [Digit(i)] + "e" in properties
  }

  lemma ChipTwinIs(i: nat)
    requires i < 10
    ensures ChipTwin(i) == Twin("cards_" + [Digit(i)], "chip_" + [Digit(i)], "c" + [Digit(i)] + "e")
  {
  }

  lemma {:induction false} ChipsAreExactly(twins: seq<Twin>, properties: set<string>, s: string)
    requires forall i, j | 0 <= i < j < |twins| :: twins[i].fromList != twins[j].fromList
    ensures s in ChipsWithOwnKey(twins, properties) <==>
              exists i | 0 <= i < |twins| :: twins[i].fromList == s && twins[i].ownKey in properties
    ensures forall i | 0 <= i < |twins| && twins[i].fromList == s && twins[i].ownKey in properties ::
              s in ChipsWithOwnKey(twins, properties) && ChipsWithOwnKey(twins, properties)[s] == twins[i].own
  {
    if twins != [] { ChipsAreExactly(twins[..|twins| - 1], properties, s); }
  }

  lemma FlatChipsAre(ours: set<string>, properties: set<string>, i: nat)
    requires i < 10
    ensures var chips := FlatChipSuffixes(WattpilotTables(ours), properties);
            && ("cards_" + [Digit(i)] in chips <==> ChipMoves(properties, i))
            && (ChipMoves(properties, i) ==> chips["cards_" + [Digit(i)]] == "chip_" + [Digit(i)])
  {
    var t := WattpilotTables(ours);
    ChipTwinIs(i);
    assert t.twins[i] == ChipTwin(i);
    forall j, k | 0 <= j < k < 10 ensures t.twins[j].fromList != t.twins[k].fromList {
      ChipTwinIs(j);
      ChipTwinIs(k);
      assert t.twins[j].fromList[6] != t.twins[k].fromList[6];
    }
    ChipsAreExactly(t.twins, properties, "cards_" + [Digit(i)]);
    forall j | 0 <= j < 10 && t.twins[j].fromList == "cards_" + [Digit(i)] ensures j == i {
      ChipTwinIs(j);
      assert t.twins[j].fromList[6] == Digit(i);
    }
    if "cards" in properties {
      assert "cards" in t.cardListKeys * properties;
    }
  }

  /** Everything else is no chip. */
  lemma OthersAreNoChips(ours: set<string>, properties: set<string>, s: string)
    requires forall i | 0 <= i < 10 :: s != "cards_" + [Digit(i)]
    ensures s !in FlatChipSuffixes(WattpilotTables(ours), properties)
  {
    var t := WattpilotTables(ours);
    ChipsAreTwins(t.twins, properties);
    if s in FlatChipSuffixes(t, properties) {
      var twin :| twin in t.twins && twin.fromList == s;
      var i :| 0 <= i < 10 && twin == ChipTwin(i);
      ChipTwinIs(i);
      assert false;
    }
  }

  /**
   The charger's suffix map, suffix by suffix: two renamed ones; the charging current, which a 22 kW
   charger has under another name; the chips of a charger without a card list; and every other suffix of
   the description tables as it is.
   */
  lemma SuffixesAre(ours: set<string>, is22: bool, properties: set<string>, s: string)
    ensures var known := KnownSuffixes(WattpilotTables(ours), is22, properties);
            if s == "AccessState" then s in known && known[s] == "access_state"
            else if s == "carConnected" then s in known && known[s] == "car_connected"
            else if s == "amp" && is22 then s in known && known[s] == "amp_22kw"
            else if exists i | 0 <= i < 10 :: s == "cards_" + [Digit(i)] && ChipMoves(properties, i) then
              s in known && |s| == 7 && known[s] == "chip_" + [s[6]]
            else (s in known <==> s in ours) && (s in known ==> known[s] == s)
  {
    if i :| 0 <= i < 10 && s == "cards_" + [Digit(i)] {
      FlatChipsAre(ours, properties, i);
      forall j | 0 <= j < 10 && s == "cards_" + [Digit(j)] ensures j == i {
        assert s[6] == Digit(j);
      }
      assert s[0] == 'c' && s[1] == 'a' && s[3] == 'd';
    } else {
      OthersAreNoChips(ours, properties, s);
    }
  }

  // ---- Matching ----

  /** An id ends in a suffix if something, a dash and the suffix make it up. */
  lemma EndsWithMeans(uid: string, suffix: string)
    ensures EndsWith(uid, suffix) <==> exists rest: string :: uid == rest + "-" + suffix
  {
    if EndsWith(uid, suffix) {
      var rest := uid[..|uid| - |suffix| - 1];
      assert uid == rest + uid[|rest|..] && uid == rest + "-" + suffix;
    }
    if rest: string :| uid == rest + "-" + suffix {
      assert uid[|uid| - |suffix| - 1..] == "-" + suffix;
    }
  }

  /** The suffix that counts for an id: the longest it ends in. */
  ghost predicate Counts(r: Rename, uid: string, suffix: string) {
    && suffix in r.order && EndsWith(uid, suffix)
    && forall other | other in r.order && EndsWith(uid, other) :: |other| <= |suffix|
  }

  /** The id of an entity re-keyed from `uid`: the serial, a dash, and what the suffix that counts is mapped to. */
  ghost predicate Rekeyed(r: Rename, uid: string, id: string) {
    exists suffix :: Counts(r, uid, suffix) && suffix in r.suffixes && id == r.serial + "-" + r.suffixes[suffix]
  }

  lemma OneCounts(r: Rename, uid: string, a: string, b: string)
    requires Counts(r, uid, a) && Counts(r, uid, b)
    ensures a == b
  {
    assert ("-" + a)[1..] == a && ("-" + b)[1..] == b;
  }

  /** An entity is to be moved to exactly that id, unless it has it already. */
  lemma TargetExactly(r: Rename, uid: string, id: string)
    requires Usable(r)
    ensures Target(r, uid) == Some(id) <==> Rekeyed(r, uid, id) && id != uid
  {
    MatchIsLongest(uid, r.order);
    var found := FirstMatch(uid, r.order);
    if found.Some? { assert Counts(r, uid, found.value); }
    if suffix :| Counts(r, uid, suffix) && suffix in r.suffixes && id == r.serial + "-" + r.suffixes[suffix] {
      OneCounts(r, uid, found.value, suffix);
    }
  }

  /** The match is a longest suffix of the id, and there is one if any suffix fits. */
  lemma {:induction false} MatchIsLongest(uid: string, order: seq<string>)
    requires forall i, j | 0 <= i < j < |order| :: |order[i]| >= |order[j]|
    ensures var r := FirstMatch(uid, order);
            && (r.Some? <==> exists s | s in order :: EndsWith(uid, s))
            && (r.Some? ==> forall s | s in order && EndsWith(uid, s) :: |s| <= |r.value|)
  {
    if order != [] { MatchIsLongest(uid, order[1..]); }
  }

  lemma LongerHasDash(uid: string, a: string, b: string)
    requires EndsWith(uid, a) && EndsWith(uid, b) && |a| < |b|
    ensures '-' in b
  {
    var tail := uid[|uid| - |b| - 1..];
    assert tail[|b| - |a|] == uid[|uid| - |a| - 1..][0] == '-';
    assert tail[|b| - |a|] == b[|b| - |a| - 1];
  }

  /** An id ends in one dash-free suffix only. */
  lemma OneSuffix(uid: string, a: string, b: string)
    requires EndsWith(uid, a) && EndsWith(uid, b) && DashFree(a) && DashFree(b)
    ensures a == b
  {
    if |a| < |b| {
      LongerHasDash(uid, a, b);
    } else if |b| < |a| {
      LongerHasDash(uid, b, a);
    } else {
      assert ("-" + a)[1..] == a && ("-" + b)[1..] == b;
    }
  }

  ghost predicate Sound(r: Rename) { Usable(r) && Idempotent(r.suffixes) }

  /** Whoever already has an id that others are moved to stays where it is. */
  lemma HoldersStay(r: Rename, uid: string, other: string)
    requires Sound(r) && Target(r, other) == Some(uid)
    ensures Target(r, uid) == None
  {
    var found := FirstMatch(other, r.order);
    var suffix := r.suffixes[found.value];
    assert uid[|uid| - |suffix| - 1..] == "-" + suffix;
    assert EndsWith(uid, suffix);
    MatchIsLongest(uid, r.order);
    OneSuffix(uid, suffix, FirstMatch(uid, r.order).value);
  }

  // ---- Whom a run moves ----

  /** Entity `i` wants the id `target` of its domain. */
  predicate Claims(r: Rename, entities: seq<Entity>, i: nat, domain: string, target: string)
    requires i < |entities|
  {
    entities[i].domain == domain && Target(r, entities[i].uid) == Some(target)
  }

  /** It moves if nobody holds that id and nobody before it claims it. */
  ghost predicate Moves(r: Rename, entities: seq<Entity>, i: nat)
    requires i < |entities|
  {
    var target := Target(r, entities[i].uid);
    && target.Some?
    && (forall j | 0 <= j < |entities| :: Key(entities[j]) != (entities[i].domain, target.value))
    && (forall j | 0 <= j < i :: !Claims(r, entities, j, entities[i].domain, target.value))
  }

  /** What is taken after `n` entities: every id held at the start, and every id claimed so far. */
  ghost predicate Taken(r: Rename, entities: seq<Entity>, n: nat, key: (string, string))
    requires n <= |entities|
  {
    || (exists j | 0 <= j < |entities| :: Key(entities[j]) == key)
    || (exists j | 0 <= j < n :: Claims(r, entities, j, key.0, key.1))
  }

  ghost predicate IsCollision(r: Rename, entities: seq<Entity>, i: nat)
    requires i < |entities|
  {
    Target(r, entities[i].uid).Some? && !Moves(r, entities, i)
  }

  ghost function Colliding(r: Rename, entities: seq<Entity>, n: nat): seq<string>
    requires n <= |entities|
  {
    if n == 0 then []
    else Colliding(r, entities, n - 1) + (if IsCollision(r, entities, n - 1) then [entities[n - 1].entityId] else [])
  }

  ghost function MovedOrNot(r: Rename, entities: seq<Entity>, i: nat): Entity
    requires i < |entities|
  {
    if Moves(r, entities, i) then entities[i].(uid := Target(r, entities[i].uid).value) else entities[i]
  }

  lemma TakenGrows(r: Rename, entities: seq<Entity>, n: nat, key: (string, string))
    requires 0 < n <= |entities|
    ensures Taken(r, entities, n, key) <==> Taken(r, entities, n - 1, key) || Claims(r, entities, n - 1, key.0, key.1)
  {
  }

  lemma MovesMeansNotTaken(r: Rename, entities: seq<Entity>, i: nat)
    requires i < |entities| && Target(r, entities[i].uid).Some?
    ensures Moves(r, entities, i) <==> !Taken(r, entities, i, (entities[i].domain, Target(r, entities[i].uid).value))
  {
  }

  ghost predicate ProgressAt(r: Rename, entities: seq<Entity>, n: nat, p: Progress)
    requires n <= |entities|
  {
    && |p.entities| == |entities|
    && (forall i | 0 <= i < n :: p.entities[i] == MovedOrNot(r, entities, i))
    && (forall i | n <= i < |entities| :: p.entities[i] == entities[i])
    && (forall key :: key in p.existing <==> Taken(r, entities, n, key))
    && p.collisions == Colliding(r, entities, n)
  }

  /** The run entry by entry does what the description above says of all entries at once. */
  lemma {:induction false} RunDoes(r: Rename, entities: seq<Entity>, n: nat)
    requires n <= |entities|
    ensures ProgressAt(r, entities, n, Migrated(r, entities, n))
  {
    if n > 0 {
      RunDoes(r, entities, n - 1);
      RunStep(r, entities, n, Migrated(r, entities, n - 1));
    } else {
      forall key ensures key in Keys(entities) <==> Taken(r, entities, 0, key) {
        if key in Keys(entities) {
          var e :| e in entities && Key(e) == key;
          var j :| 0 <= j < |entities| && entities[j] == e;
          assert Key(entities[j]) == key;
        }
      }
    }
  }

  lemma StepTakes(r: Rename, entities: seq<Entity>, n: nat, p: Progress, key: (string, string))
    requires 0 < n <= |entities| && ProgressAt(r, entities, n - 1, p)
    ensures key in MigrateOne(r, p, n - 1).existing <==> Taken(r, entities, n, key)
  {
    if Target(r, entities[n - 1].uid).Some? { MovesMeansNotTaken(r, entities, n - 1); }
    TakenGrows(r, entities, n, key);
  }

  lemma StepMoves(r: Rename, entities: seq<Entity>, n: nat, p: Progress)
    requires 0 < n <= |entities| && ProgressAt(r, entities, n - 1, p)
    ensures MigrateOne(r, p, n - 1).entities == p.entities[n - 1 := MovedOrNot(r, entities, n - 1)]
    ensures MigrateOne(r, p, n - 1).collisions ==
              p.collisions + (if IsCollision(r, entities, n - 1) then [entities[n - 1].entityId] else [])
  {
    if Target(r, entities[n - 1].uid).Some? { MovesMeansNotTaken(r, entities, n - 1); }
  }

  lemma RunStep(r: Rename, entities: seq<Entity>, n: nat, p: Progress)
    requires 0 < n <= |entities| && ProgressAt(r, entities, n - 1, p)
    ensures ProgressAt(r, entities, n, MigrateOne(r, p, n - 1))
  {
    StepMoves(r, entities, n, p);
    forall key ensures key in MigrateOne(r, p, n - 1).existing <==> Taken(r, entities, n, key) {
      StepTakes(r, entities, n, p, key);
    }
  }

  // ---- What a run keeps ----

  function Result(r: Rename, entities: seq<Entity>): seq<Entity> {
    Migrated(r, entities, |entities|).entities
  }

  function Reported(r: Rename, entities: seq<Entity>): seq<string> {
    Migrated(r, entities, |entities|).collisions
  }

  ghost predicate UniqueKeys(entities: seq<Entity>) {
    forall i, j | 0 <= i < j < |entities| :: Key(entities[i]) != Key(entities[j])
  }

  /**
   A run keeps every entity, its entity id and its domain, in order; it re-keys exactly those whose
   target nobody holds and nobody before them claims, and reports exactly the others that have one.
   */
  lemma RunMovesExactly(r: Rename, entities: seq<Entity>)
    ensures |Result(r, entities)| == |entities|
    ensures forall i | 0 <= i < |entities| :: Result(r, entities)[i] ==
              if Moves(r, entities, i) then entities[i].(uid := Target(r, entities[i].uid).value) else entities[i]
    ensures Reported(r, entities) == Colliding(r, entities, |entities|)
  {
    RunDoes(r, entities, |entities|);
    forall i | 0 <= i < |entities| ensures Result(r, entities)[i] == MovedOrNot(r, entities, i) {
    }
  }

  /**
   What becomes of each entity: nothing but its unique id can change, and that only to the serial, a
   dash, and what the longest suffix it ends in is mapped to.
   */
  lemma MovedIdsCarryTheSerial(r: Rename, entities: seq<Entity>)
    requires Usable(r)
    ensures |Result(r, entities)| == |entities|
    ensures forall i | 0 <= i < |entities| :: KeepsOrRekeys(r, entities[i], Result(r, entities)[i])
  {
    RunMovesExactly(r, entities);
    forall i | 0 <= i < |entities| ensures KeepsOrRekeys(r, entities[i], Result(r, entities)[i]) {
      if Moves(r, entities, i) { TargetExactly(r, entities[i].uid, Target(r, entities[i].uid).value); }
    }
  }

  ghost predicate KeepsOrRekeys(r: Rename, before: Entity, after: Entity) {
    before == after || (after == before.(uid := after.uid) && Rekeyed(r, before.uid, after.uid))
  }

  /** Unique ids stay unique per domain. */
  lemma RunKeepsKeysUnique(r: Rename, entities: seq<Entity>)
    requires UniqueKeys(entities)
    ensures UniqueKeys(Result(r, entities))
  {
    RunMovesExactly(r, entities);
    var out := Result(r, entities);
    forall i, j | 0 <= i < j < |out| ensures Key(out[i]) != Key(out[j]) {
      assert Key(entities[i]) != Key(entities[j]);
      if Moves(r, entities, j) && Moves(r, entities, i) {
        assert !Claims(r, entities, i, entities[j].domain, Target(r, entities[j].uid).value);
      }
    }
  }

  /** An id somebody claims is held in the end: by whoever held it, or by the first to claim it. */
  lemma {:induction false} ClaimIsHeld(r: Rename, entities: seq<Entity>, i: nat) returns (holder: nat)
    requires Sound(r) && i < |entities| && Target(r, entities[i].uid).Some?
    ensures holder < |Result(r, entities)|
    ensures Key(Result(r, entities)[holder]) == (entities[i].domain, Target(r, entities[i].uid).value)
  {
    RunMovesExactly(r, entities);
    var target := Target(r, entities[i].uid).value;
    if Moves(r, entities, i) {
      holder := i;
    } else if held :| 0 <= held < |entities| && Key(entities[held]) == (entities[i].domain, target) {
      HoldersStay(r, target, entities[i].uid);
      holder := held;
    } else {
      var first :| 0 <= first < i && Claims(r, entities, first, entities[i].domain, target);
      holder := ClaimIsHeld(r, entities, first);
    }
  }

  /** Every claimed target ends up held by exactly one entity of its domain. */
  lemma EveryClaimHasOneHolder(r: Rename, entities: seq<Entity>, i: nat) returns (holder: nat)
    requires Sound(r) && UniqueKeys(entities) && i < |entities| && Target(r, entities[i].uid).Some?
    ensures holder < |Result(r, entities)|
    ensures forall j | 0 <= j < |Result(r, entities)| ::
              Key(Result(r, entities)[j]) == (entities[i].domain, Target(r, entities[i].uid).value) <==> j == holder
  {
    holder := ClaimIsHeld(r, entities, i);
    RunKeepsKeysUnique(r, entities);
  }

  /** Exactly one entity has this domain and unique id. */
  ghost predicate HeldByOne(entities: seq<Entity>, key: (string, string)) {
    exists holder | 0 <= holder < |entities| :: OnlyHolder(entities, key, holder)
  }

  ghost predicate OnlyHolder(entities: seq<Entity>, key: (string, string), holder: nat) {
    forall j | 0 <= j < |entities| :: Key(entities[j]) == key <==> j == holder
  }

  /** Of all the targets claimed at once. */
  lemma ClaimsAreHeldByOne(r: Rename, entities: seq<Entity>)
    requires Sound(r) && UniqueKeys(entities)
    ensures forall i | 0 <= i < |entities| && Target(r, entities[i].uid).Some? ::
              HeldByOne(Result(r, entities), (entities[i].domain, Target(r, entities[i].uid).value))
  {
    forall i | 0 <= i < |entities| && Target(r, entities[i].uid).Some?
      ensures HeldByOne(Result(r, entities), (entities[i].domain, Target(r, entities[i].uid).value))
    {
      var holder := EveryClaimHasOneHolder(r, entities, i);
      assert OnlyHolder(Result(r, entities), (entities[i].domain, Target(r, entities[i].uid).value), holder);
    }
  }

  // ---- A second run ----

  /** After a run, whoever moved is at rest, and whoever collided still has nowhere to go. */
  lemma SecondRunOf(r: Rename, entities: seq<Entity>, i: nat)
    requires Sound(r) && i < |entities|
    ensures |Result(r, entities)| == |entities|
    ensures !Moves(r, Result(r, entities), i)
    ensures IsCollision(r, Result(r, entities), i) <==> IsCollision(r, entities, i)
  {
    RunMovesExactly(r, entities);
    if Target(r, entities[i].uid).Some? {
      if Moves(r, entities, i) {
        HoldersStay(r, Target(r, entities[i].uid).value, entities[i].uid);
      } else {
        var holder := ClaimIsHeld(r, entities, i);
        assert Key(Result(r, entities)[holder]) == (entities[i].domain, Target(r, entities[i].uid).value);
      }
    }
  }

  lemma {:induction false} SameCollisions(r: Rename, a: seq<Entity>, b: seq<Entity>, n: nat)
    requires n <= |a| == |b|
    requires forall i | 0 <= i < n :: a[i].entityId == b[i].entityId && (IsCollision(r, a, i) <==> IsCollision(r, b, i))
    ensures Colliding(r, a, n) == Colliding(r, b, n)
  {
    if n > 0 { SameCollisions(r, a, b, n - 1); }
  }

  /** A second run with the same inputs moves nothing and reports the same collisions. */
  lemma SecondRunChangesNothing(r: Rename, entities: seq<Entity>)
    requires Sound(r)
    ensures Result(r, Result(r, entities)) == Result(r, entities)
    ensures Reported(r, Result(r, entities)) == Reported(r, entities)
  {
    var out := Result(r, entities);
    RunMovesExactly(r, entities);
    RunMovesExactly(r, out);
    forall i | 0 <= i < |out|
      ensures !Moves(r, out, i) && (IsCollision(r, out, i) <==> IsCollision(r, entities, i))
    {
      SecondRunOf(r, entities, i);
    }
    SameCollisions(r, out, entities, |out|);
  }

  /**
   For the charger's own tables: whatever its variant and its properties, one run settles the
   registry of its entry -- an entity keeps everything, or takes its serial's id in place of its own;
   unique ids stay unique, every id somebody was to be moved to has exactly one holder, and the next run
   moves and reports nothing new.
   */
  lemma OneRunSettles(ours: set<string>, is22: bool, properties: set<string>, serial: string, order: seq<string>,
                      entities: seq<Entity>)
    requires ListsDestinations(ours) && UniqueKeys(entities)
    requires LongestFirst(order, KnownSuffixes(WattpilotTables(ours), is22, properties))
    ensures var r := Rename(serial, KnownSuffixes(WattpilotTables(ours), is22, properties), order);
            && |Result(r, entities)| == |entities|
            && (forall i | 0 <= i < |entities| :: KeepsOrRekeys(r, entities[i], Result(r, entities)[i]))
            && UniqueKeys(Result(r, entities))
            && (forall i | 0 <= i < |entities| && Target(r, entities[i].uid).Some? ::
                  HeldByOne(Result(r, entities), (entities[i].domain, Target(r, entities[i].uid).value)))
            && Result(r, Result(r, entities)) == Result(r, entities)
            && Reported(r, Result(r, entities)) == Reported(r, entities)
  {
    var r := Rename(serial, KnownSuffixes(WattpilotTables(ours), is22, properties), order);
    WattpilotTablesAreWellFormed(ours);
    SuffixMapSettles(WattpilotTables(ours), is22, properties);
    RunKeepsKeysUnique(r, entities);
    MovedIdsCarryTheSerial(r, entities);
    ClaimsAreHeldByOne(r, entities);
    SecondRunChangesNothing(r, entities);
  }
}
