/**
  The JSON store's migration loop, its one registered step, and opening a document of any
  version.
 */
module Migrations {
  import opened Options
  import Pigeonhole

  /** A step takes a document from one version to another. */
  datatype Migration<!D> = Migration(from: string, to: string, apply: D -> D)

  datatype Mismatch = Mismatch(expected: string, found: string)

  /** The first step that consumes version `v`. */
  function Find<D>(chain: seq<Migration<D>>, v: string): (i: Option<nat>)
    ensures i.Some? ==> i.value < |chain| && chain[i.value].from == v
    ensures i.Some? ==> forall j :: 0 <= j < i.value ==> chain[j].from != v
    ensures i.None? ==> forall j :: 0 <= j < |chain| ==> chain[j].from != v
  {
    if chain == [] then None
    else if chain[0].from == v then Some(0)
    else
      var rest := Find(chain[1..], v);
      assert forall j :: 0 < j < |chain| ==> chain[j] == chain[1..][j - 1];
      if rest.Some? then Some(rest.value + 1) else None
  }

  // ----- When the loop ends -------------------------------------------------------------

  /** The version after `n` turns of the loop, while it is still running. */
  function After<D>(chain: seq<Migration<D>>, target: string, v: string, n: nat): Option<string>
    decreases n
  {
    if n == 0 then Some(v)
    else if v == target || Find(chain, v).None? then None
    else After(chain, target, chain[Find(chain, v).value].to, n - 1)
  }

  ghost predicate Ends<D>(chain: seq<Migration<D>>, target: string, v: string) {
    exists n: nat :: After(chain, target, v, n).None?
  }

  /** The version is met after `i` turns and again after `j`. */
  predicate Repeats<D>(chain: seq<Migration<D>>, target: string, v: string, i: nat, j: nat) {
    i < j && After(chain, target, v, i).Some? && After(chain, target, v, j) == After(chain, target, v, i)
  }

  /** No version is met twice in as many turns as there are steps. */
  predicate NoRepeat<D>(chain: seq<Migration<D>>, target: string, v: string) {
    forall i: nat, j: nat :: i < j <= |chain| ==> !Repeats(chain, target, v, i, j)
  }

  lemma {:induction false} AfterAfter<D>(chain: seq<Migration<D>>, target: string, v: string, a: nat, b: nat)
    ensures After(chain, target, v, a + b) ==
            if After(chain, target, v, a).None? then None
            else After(chain, target, After(chain, target, v, a).value, b)
    decreases a
  {
    if a > 0 && v != target && Find(chain, v).Some? {
      AfterAfter(chain, target, chain[Find(chain, v).value].to, a - 1, b);
    }
  }

  /** A version met twice is met for ever: the loop never ends, and never reaches the target. */
  lemma CycleNeverEnds<D>(chain: seq<Migration<D>>, target: string, v: string, i: nat, j: nat, n: nat)
    requires Repeats(chain, target, v, i, j)
    ensures After(chain, target, v, n).Some? && After(chain, target, v, n).value != target
  {
    StillRunning(chain, target, v, i, j, n);
    StillRunning(chain, target, v, i, j, n + 1);
    AfterAfter(chain, target, v, n, 1);
  }

  lemma {:induction false} StillRunning<D>(chain: seq<Migration<D>>, target: string, v: string, i: nat, j: nat, n: nat)
    requires Repeats(chain, target, v, i, j)
    ensures After(chain, target, v, n).Some?
    decreases n
  {
    if n <= j {
      AfterAfter(chain, target, v, n, j - n);
    } else {
      StillRunning(chain, target, v, i, j, i + (n - j));
      AfterAfter(chain, target, v, i, n - j);
      AfterAfter(chain, target, v, j, n - j);
    }
  }

  /** Where the loop still runs after more turns than there are steps, some step ran twice. */
  lemma LongRunRepeats<D>(chain: seq<Migration<D>>, target: string, v: string) returns (i: nat, j: nat)
    requires After(chain, target, v, |chain| + 1).Some?
    ensures i < j <= |chain| && Repeats(chain, target, v, i, j)
  {
    var n := |chain| + 1;
    forall k | 0 <= k < n ensures Find(chain, VersionAt(chain, target, v, k)).Some? {
      StepAt(chain, target, v, k, n);
    }
    var ran := seq(n, k requires 0 <= k < n => Find(chain, VersionAt(chain, target, v, k)).value);
    i, j := Pigeonhole.Repeats(ran, |chain|);
    StepAt(chain, target, v, i, n);
    StepAt(chain, target, v, j, n);
    assert chain[ran[i]].from == VersionAt(chain, target, v, i);
  }

  function VersionAt<D>(chain: seq<Migration<D>>, target: string, v: string, k: nat): string {
    After(chain, target, v, k).GetOr(v)
  }

  /** A loop that runs on past turn `k` has a step for the version it is at. */
  lemma StepAt<D>(chain: seq<Migration<D>>, target: string, v: string, k: nat, n: nat)
    requires k < n && After(chain, target, v, n).Some?
    ensures After(chain, target, v, k) == Some(VersionAt(chain, target, v, k))
    ensures Find(chain, VersionAt(chain, target, v, k)).Some?
  {
    AfterAfter(chain, target, v, k, n - k);
  }

  /**
    For every chain, target and version: the loop ends if and only if no version is met
    twice in as many turns as the chain has steps, and then within that many turns.
   */
  lemma EndsIff<D>(chain: seq<Migration<D>>, target: string, v: string)
    ensures Ends(chain, target, v) <==> NoRepeat(chain, target, v)
    ensures NoRepeat(chain, target, v) ==> After(chain, target, v, |chain| + 1).None?
  {
    if NoRepeat(chain, target, v) && After(chain, target, v, |chain| + 1).Some? {
      var i, j := LongRunRepeats(chain, target, v);
    }
    forall i: nat, j: nat | i < j <= |chain| && Repeats(chain, target, v, i, j)
      ensures !Ends(chain, target, v)
    {
      forall n: nat ensures After(chain, target, v, n).Some? { StillRunning(chain, target, v, i, j, n); }
    }
  }

  // ----- The loop -----------------------------------------------------------------------

  /** The turns the loop takes from `v`, counted up to a limit. */
  function Turns<D>(chain: seq<Migration<D>>, target: string, v: string, limit: nat): nat
    decreases limit
  {
    if limit == 0 || v == target || Find(chain, v).None? then 0
    else 1 + Turns(chain, target, chain[Find(chain, v).value].to, limit - 1)
  }

  lemma {:induction false} TurnsSettle<D>(chain: seq<Migration<D>>, target: string, v: string, limit: nat)
    requires After(chain, target, v, limit).None?
    ensures Turns(chain, target, v, limit + 1) == Turns(chain, target, v, limit) < limit
    decreases limit
  {
    if v != target && Find(chain, v).Some? {
      TurnsSettle(chain, target, chain[Find(chain, v).value].to, limit - 1);
    }
  }

  function Left<D>(chain: seq<Migration<D>>, target: string, v: string): nat {
    Turns(chain, target, v, |chain| + 1)
  }

  /** A turn of a loop that ends leaves a loop that ends one turn sooner. */
  lemma TurnEnds<D>(chain: seq<Migration<D>>, target: string, v: string)
    requires NoRepeat(chain, target, v)
    ensures Left(chain, target, v) <= |chain|
    ensures v != target && Find(chain, v).Some? ==>
              var next := chain[Find(chain, v).value].to;
              NoRepeat(chain, target, next) && Left(chain, target, next) + 1 == Left(chain, target, v)
  {
    EndsIff(chain, target, v);
    TurnsSettle(chain, target, v, |chain| + 1);
    if v != target && Find(chain, v).Some? {
      var next := chain[Find(chain, v).value].to;
      assert After(chain, target, next, |chain|).None?;
      EndsIff(chain, target, next);
      TurnsSettle(chain, target, next, |chain|);
    }
  }

  /** Follow the chain from `v`. */
  function Migrate<D>(chain: seq<Migration<D>>, target: string, v: string, doc: D): Result<D, Mismatch>
    requires NoRepeat(chain, target, v)
    decreases Left(chain, target, v)
  {
    TurnEnds(chain, target, v);
    if v == target then Ok(doc)
    else
      match Find(chain, v)
      case None => Err(Mismatch(target, v))
      case Some(i) => Migrate(chain, target, chain[i].to, chain[i].apply(doc))
  }

  /** The migration loop, on every input it ends on; `rounds` counts its iterations. */
  method RunEmbeddedMigrations<D>(chain: seq<Migration<D>>, target: string, version: string, doc: D)
    returns (result: Result<D, Mismatch>, rounds: nat)
    requires NoRepeat(chain, target, version)
    ensures result == Migrate(chain, target, version, doc)
    ensures rounds <= |chain|
    ensures After(chain, target, version, rounds).Some? && After(chain, target, version, rounds + 1).None?
  {
    var v, d := version, doc;
    rounds := 0;
    TurnEnds(chain, target, v);
    while v != target
      invariant NoRepeat(chain, target, v)
      invariant Migrate(chain, target, v, d) == Migrate(chain, target, version, doc)
      invariant rounds + Left(chain, target, v) <= |chain|
      invariant After(chain, target, version, rounds) == Some(v)
      decreases Left(chain, target, v)
    {
      TurnEnds(chain, target, v);
      AfterAfter(chain, target, version, rounds, 1);
      var step := Find(chain, v);
      if step.None? { return Err(Mismatch(target, v)), rounds; }
      d := chain[step.value].apply(d);
      v := chain[step.value].to;
      rounds := rounds + 1;
    }
    AfterAfter(chain, target, version, rounds, 1);
    result := Ok(d);
  }

  /** The loop succeeds exactly when it comes to the target; otherwise it reports the version it is stuck at. */
  lemma {:induction false} MigratesIff<D>(chain: seq<Migration<D>>, target: string, v: string, doc: D) returns (n: nat)
    requires NoRepeat(chain, target, v)
    ensures After(chain, target, v, n).Some? && After(chain, target, v, n + 1).None?
    ensures var last := After(chain, target, v, n).value;
            && (Migrate(chain, target, v, doc).Ok? <==> last == target)
            && (last != target ==>
                  Migrate(chain, target, v, doc) == Err(Mismatch(target, last)) && Find(chain, last).None?)
    decreases Left(chain, target, v)
  {
    TurnEnds(chain, target, v);
    n := 0;
    if v != target && Find(chain, v).Some? {
      var i := Find(chain, v).value;
      var m := MigratesIff(chain, target, chain[i].to, chain[i].apply(doc));
      n := m + 1;
    }
  }

  // ----- Linked chains ------------------------------------------------------------------

  /** Each step starts where the one before ended, the last ends at the target, and no version repeats. */
  predicate Linked<D>(chain: seq<Migration<D>>, target: string) {
    && (forall i :: 0 <= i < |chain| - 1 ==> chain[i].to == chain[i + 1].from)
    && (chain != [] ==> chain[|chain| - 1].to == target)
    && (forall i, j :: 0 <= i < j < |chain| ==> chain[i].from != chain[j].from)
    && (forall i :: 0 <= i < |chain| ==> chain[i].from != target)
  }

  /** The steps from index `i` on, applied in order. */
  function Compose<D>(chain: seq<Migration<D>>, i: nat, doc: D): D
    decreases |chain| - i
  {
    if i >= |chain| then doc else Compose(chain, i + 1, chain[i].apply(doc))
  }

  lemma FindLinked<D>(chain: seq<Migration<D>>, target: string, i: nat)
    requires Linked(chain, target) && i < |chain|
    ensures Find(chain, chain[i].from) == Some(i)
  {
    var found := Find(chain, chain[i].from);
    assert found.Some? && found.value <= i;
  }

  lemma {:induction false} LinkedEnds<D>(chain: seq<Migration<D>>, target: string, i: nat)
    requires Linked(chain, target) && i < |chain|
    ensures After(chain, target, chain[i].from, |chain| - i + 1).None?
    decreases |chain| - i
  {
    FindLinked(chain, target, i);
    if i + 1 < |chain| {
      assert chain[i].to == chain[i + 1].from;
      LinkedEnds(chain, target, i + 1);
    }
  }

  lemma LinkedNoRepeat<D>(chain: seq<Migration<D>>, target: string, version: string)
    requires Linked(chain, target)
    ensures NoRepeat(chain, target, version)
  {
    if version != target && Find(chain, version).Some? {
      LinkedEnds(chain, target, Find(chain, version).value);
    } else {
      assert After(chain, target, version, 1).None?;
    }
    EndsIff(chain, target, version);
  }

  lemma {:induction false} LinkedRunsTheRest<D>(chain: seq<Migration<D>>, target: string, i: nat, doc: D)
    requires Linked(chain, target) && i < |chain|
    ensures NoRepeat(chain, target, chain[i].from)
    ensures Migrate(chain, target, chain[i].from, doc) == Ok(Compose(chain, i, doc))
    decreases |chain| - i
  {
    FindLinked(chain, target, i);
    LinkedNoRepeat(chain, target, chain[i].from);
    TurnEnds(chain, target, chain[i].from);
    var next := chain[i].apply(doc);
    assert Migrate(chain, target, chain[i].from, doc) == Migrate(chain, target, chain[i].to, next);
    if i + 1 < |chain| {
      assert chain[i].to == chain[i + 1].from;
      LinkedRunsTheRest(chain, target, i + 1, next);
    } else {
      assert chain[i].to == target;
      assert Migrate(chain, target, target, next) == Ok(Compose(chain, i + 1, next));
    }
  }

  /**
    On a linked chain the loop succeeds exactly for the target and the versions the chain
    starts from, and then applies the remaining steps in order.
   */
  lemma LinkedChainMigrates<D>(chain: seq<Migration<D>>, target: string, version: string, doc: D)
    requires Linked(chain, target)
    ensures NoRepeat(chain, target, version)
    ensures Migrate(chain, target, version, doc).Ok? <==>
            version == target || exists i :: 0 <= i < |chain| && chain[i].from == version
    ensures version == target ==> Migrate(chain, target, version, doc) == Ok(doc)
    ensures forall i :: 0 <= i < |chain| && chain[i].from == version ==>
              Migrate(chain, target, version, doc) == Ok(Compose(chain, i, doc))
    ensures Migrate(chain, target, version, doc).Err? ==>
              Migrate(chain, target, version, doc) == Err(Mismatch(target, version))
  {
    LinkedNoRepeat(chain, target, version);
    forall i | 0 <= i < |chain| && chain[i].from == version
      ensures Migrate(chain, target, version, doc) == Ok(Compose(chain, i, doc))
    {
      LinkedRunsTheRest(chain, target, i, doc);
    }
  }

  // ----- The step from v1 to v2 ---------------------------------------------------------

  datatype Json =
    | Null
    | Bool(b: bool)
    | Num(n: int)
    | Str(s: string)
    | Arr(items: seq<Json>)
    | Obj(fields: map<string, Json>)

  const V1 := "v1"
  const V2 := "v2"
  const MigrationOrg := "default"

  function FieldOr(fields: map<string, Json>, name: string, other: Json): Json {
    if name in fields then fields[name] else other
  }

  /** Nest a flat document's entries and secrets under one org. */
  function MigrateV1ToV2(doc: Json): Json {
    if !doc.Obj? then doc
    else
      var org := Obj(map["entries" := FieldOr(doc.fields, "entries", Obj(map[])),
                         "secrets" := FieldOr(doc.fields, "secrets", Obj(map[]))]);
      Obj((doc.fields - {"entries", "secrets"})["orgs" := Obj(map[MigrationOrg := org])]["version" := Str(V2)])
  }

  // ----- The typed load -----------------------------------------------------------------

  /** What the typed load keeps of an org; the kinds a v1 file predates default to empty. */
  datatype LoadedOrg = LoadedOrg(entries: map<string, Json>, secrets: map<string, Json>)

  /** Which values are an entry, and which a ciphertext. */
  datatype Shape = Shape(isEntry: Json -> bool, isSecret: Json -> bool)

  function LoadMap(fields: map<string, Json>, name: string, ok: Json -> bool): Option<map<string, Json>> {
    var v := FieldOr(fields, name, Obj(map[]));
    if v.Obj? && (forall k :: k in v.fields ==> ok(v.fields[k])) then Some(v.fields) else None
  }

  function LoadOrg(shape: Shape, v: Json): Option<LoadedOrg> {
    if !v.Obj? then None
    else
      var entries, secrets := LoadMap(v.fields, "entries", shape.isEntry), LoadMap(v.fields, "secrets", shape.isSecret);
      if entries.Some? && secrets.Some? then Some(LoadedOrg(entries.value, secrets.value)) else None
  }

  function Load(shape: Shape, doc: Json): Option<map<string, LoadedOrg>> {
    if !doc.Obj? then None
    else
      var orgs := FieldOr(doc.fields, "orgs", Obj(map[]));
      if orgs.Obj? && (forall k :: k in orgs.fields ==> LoadOrg(shape, orgs.fields[k]).Some?)
      then Some(map k | k in orgs.fields :: LoadOrg(shape, orgs.fields[k]).value)
      else None
  }

  /**
    Loading a migrated document gives exactly the flat document's entries and secrets,
    under org `default` and nowhere else; it fails exactly when the flat one is ill-typed.
   */
  lemma MigrationKeepsEverything(shape: Shape, doc: Json)
    ensures Load(shape, MigrateV1ToV2(doc)) ==
            match LoadOrg(shape, doc)
            case None => None
            case Some(flat) => Some(map["default" := flat])
  {
    if doc.Obj? {
      var migrated := MigrateV1ToV2(doc);
      var orgs := migrated.fields["orgs"];
      assert migrated.fields["orgs"].fields.Keys == {MigrationOrg};
      var org := orgs.fields[MigrationOrg];
      assert LoadOrg(shape, org) == LoadOrg(shape, doc);
      if LoadOrg(shape, doc).Some? {
        assert Load(shape, migrated).value == map[MigrationOrg := LoadOrg(shape, doc).value];
      } else {
        assert LoadOrg(shape, orgs.fields[MigrationOrg]).None?;
      }
    }
  }

  /** Everything else at the top of the document stays as it was; the flat fields are gone and the version is v2. */
  lemma MigrationKeepsOtherFields(doc: Json, name: string)
    requires doc.Obj?
    ensures MigrateV1ToV2(doc).Obj?
    ensures MigrateV1ToV2(doc).fields.Keys == doc.fields.Keys - {"entries", "secrets"} + {"orgs", "version"}
    ensures MigrateV1ToV2(doc).fields["version"] == Str("v2")
    ensures name in doc.fields && name !in {"entries", "secrets", "orgs", "version"} ==>
              MigrateV1ToV2(doc).fields[name] == doc.fields[name]
  {}

  // ----- Opening a document -------------------------------------------------------------

  datatype OpenResult = Opened(orgs: map<string, LoadedOrg>) | Corrupt | WrongVersion(found: string)

  function EmbeddedMigrations(): seq<Migration<Json>> { [Migration(V1, V2, MigrateV1ToV2)] }

  lemma EmbeddedMigrationsLinked()
    ensures Linked(EmbeddedMigrations(), V2)
  {
    assert V1[1] != V2[1];
  }

  /** Read the version tag, follow the chain, load what comes out. */
  method OpenDocument(shape: Shape, doc: Json) returns (result: OpenResult)
    ensures !(doc.Obj? && "version" in doc.fields && doc.fields["version"].Str?) ==> result == Corrupt
    ensures doc.Obj? && "version" in doc.fields && doc.fields["version"].Str? ==>
              var version := doc.fields["version"].s;
              var flat, nested := LoadOrg(shape, doc), Load(shape, doc);
              result == if version == "v1" then
                          (if flat.Some? then Opened(map["default" := flat.value]) else Corrupt)
                        else if version == "v2" then (if nested.Some? then Opened(nested.value) else Corrupt)
                        else WrongVersion(version)
  {
    if !doc.Obj? || "version" !in doc.fields || !doc.fields["version"].Str? { return Corrupt; }
    EmbeddedMigrationsLinked();
    LinkedChainMigrates(EmbeddedMigrations(), V2, doc.fields["version"].s, doc);
    var migrated, _ := RunEmbeddedMigrations(EmbeddedMigrations(), V2, doc.fields["version"].s, doc);
    MigrationKeepsEverything(shape, doc);
    assert doc.fields["version"].s == V1 ==>
             EmbeddedMigrations()[0].from == V1 && migrated == Ok(MigrateV1ToV2(doc)) by {
      assert Compose(EmbeddedMigrations(), 1, MigrateV1ToV2(doc)) == MigrateV1ToV2(doc);
      assert Compose(EmbeddedMigrations(), 0, doc) == MigrateV1ToV2(doc);
    }
    if migrated.Err? { return WrongVersion(migrated.error.found); }
    var loaded := Load(shape, migrated.value);
    if loaded.None? { return Corrupt; }
    result := Opened(loaded.value);
  }
}
