/**
 * The Gunicorn configuration file: settings taken from `GUNICORN_*`
 * environment variables, and the `on_starting` hook that dumps the gene
 * table, grouped by species, into the snapshot file `/tmp/db.json`.
 */
module Gunicorn {
  import opened Wrappers
  import opened Domain
  import opened Text

  const Prefix := "GUNICORN_"

  /** The environment variables that configure Gunicorn. */
  predicate IsGunicornVar(name: string) {
    StartsWith(name, Prefix)
  }

  /** `k.split("_", 1)[1].lower()`: the part after the first underscore, lower-cased. */
  function SettingName(name: string): (setting: string)
    requires IsGunicornVar(name)
    ensures setting == LowerAll(name[|Prefix|..])
  {
    FirstUnderscoreEndsPrefix(name);
    LowerAll(name[IndexOf(name, '_') + 1..])
  }

  /** In a `GUNICORN_*` name the first underscore is the one closing the prefix. */
  lemma FirstUnderscoreEndsPrefix(name: string)
    requires IsGunicornVar(name)
    ensures IndexOf(name, '_') == |Prefix| - 1
  {
    assert name[..|Prefix|] == Prefix;
    assert name[8] == '_' by { assert name[..|Prefix|][8] == Prefix[8]; }
  }

  lemma SettingNameWorkers()
    ensures SettingName("GUNICORN_WORKERS") == "workers"
  {
    assert "GUNICORN_WORKERS"[..9] == Prefix;
    assert "GUNICORN_WORKERS"[9..] == "WORKERS";
    assert LowerAll("WORKERS") == "workers";
  }

  lemma SettingNameMaxRequests()
    ensures SettingName("GUNICORN_MAX_REQUESTS") == "max_requests"
  {
    assert "GUNICORN_MAX_REQUESTS"[..9] == Prefix;
    assert "GUNICORN_MAX_REQUESTS"[9..] == "MAX_REQUESTS";
    assert LowerAll("MAX_REQUESTS") == "max_requests";
  }

  /**
   * The settings the loop leaves behind after visiting the environment's
   * entries in order: a later entry overwrites an earlier one with the same
   * setting name.
   */
  function Settings(env: seq<(string, string)>): map<string, string>
  {
    if env == [] then map[]
    else
      var (name, value) := env[|env| - 1];
      var earlier := Settings(env[..|env| - 1]);
      if IsGunicornVar(name) then earlier[SettingName(name) := value] else earlier
  }

  /** The setting-name loop over `os.environ.items()`. */
  method ConfigureFromEnvironment(env: seq<(string, string)>) returns (settings: map<string, string>)
    ensures settings == Settings(env)
  {
    settings := map[];
    for i := 0 to |env|
      invariant settings == Settings(env[..i])
    {
      assert env[..i + 1][..i] == env[..i];
      var (name, value) := env[i];
      if StartsWith(name, Prefix) {
        FirstUnderscoreEndsPrefix(name);
        var key := LowerAll(name[IndexOf(name, '_') + 1..]);
        settings := settings[key := value];
      }
    }
    assert env[..|env|] == env;
  }

  /** Entry `i` is a Gunicorn variable naming `setting`. */
  predicate Sets(env: seq<(string, string)>, i: int, setting: string)
    requires 0 <= i < |env|
  {
    IsGunicornVar(env[i].0) && SettingName(env[i].0) == setting
  }

  /**
   * A setting exists exactly when some `GUNICORN_*` variable names it; its
   * value is that variable's string, verbatim, from the last such entry.
   * Variables without the prefix contribute nothing.
   */
  lemma {:induction false} SettingsFromPrefixedVars(env: seq<(string, string)>, setting: string)
    ensures setting in Settings(env) <==> exists i :: 0 <= i < |env| && Sets(env, i, setting)
    ensures setting in Settings(env) ==>
      exists i :: 0 <= i < |env| && Sets(env, i, setting) && Settings(env)[setting] == env[i].1 &&
        forall j :: i < j < |env| ==> !Sets(env, j, setting)
  {
    if env != [] {
      var init := env[..|env| - 1];
      var last := |env| - 1;
      SettingsFromPrefixedVars(init, setting);
      assert forall i :: 0 <= i < |init| ==> (Sets(init, i, setting) <==> Sets(env, i, setting));
      if Sets(env, last, setting) {
        assert Settings(env)[setting] == env[last].1;
      } else if setting in Settings(init) {
        var i :| 0 <= i < |init| && Sets(init, i, setting) && Settings(init)[setting] == init[i].1 &&
          forall j :: i < j < |init| ==> !Sets(init, j, setting);
        assert Sets(env, i, setting);
      }
    }
  }

  /** A variable without the prefix changes nothing. */
  lemma OtherVarsIgnored(env: seq<(string, string)>, name: string, value: string)
    requires !IsGunicornVar(name)
    ensures Settings(env + [(name, value)]) == Settings(env)
  {
    assert (env + [(name, value)])[..|env|] == env;
  }

  /** The species -> labels mapping built from the records, in the order they arrive. */
  function Grouped(records: seq<Record>): Snapshot
  {
    if records == [] then map[]
    else
      var r := records[|records| - 1];
      var db := Grouped(records[..|records| - 1]);
      db[r.species := (if r.species in db then db[r.species] else []) + [r.displayLabel]]
  }

  /** The grouping loop of `on_starting`, appending into a `defaultdict(list)`. */
  method GroupBySpecies(records: seq<Record>) returns (db: Snapshot)
    ensures db == Grouped(records)
  {
    db := map[];
    for i := 0 to |records|
      invariant db == Grouped(records[..i])
    {
      assert records[..i + 1][..i] == records[..i];
      var record := records[i];
      var labels := if record.species in db then db[record.species] else [];
      db := db[record.species := labels + [record.displayLabel]];
    }
    assert records[..|records|] == records;
  }

  /** The labels of the records of one species, in record order. */
  function LabelsOf(records: seq<Record>, species: string): seq<string>
  {
    if records == [] then []
    else
      var r := records[|records| - 1];
      LabelsOf(records[..|records| - 1], species) + (if r.species == species then [r.displayLabel] else [])
  }

  /**
   * Each species maps to exactly the labels of its own records, in record
   * order, and the keys are exactly the species that occur, each with a
   * non-empty list.
   */
  lemma {:induction false} GroupedBySpecies(records: seq<Record>, species: string)
    ensures species in Grouped(records) <==> exists i :: 0 <= i < |records| && records[i].species == species
    ensures species in Grouped(records) ==> Grouped(records)[species] == LabelsOf(records, species)
    ensures species in Grouped(records) ==> |Grouped(records)[species]| > 0
    ensures species !in Grouped(records) ==> LabelsOf(records, species) == []
  {
    if records != [] {
      var init := records[..|records| - 1];
      GroupedBySpecies(init, species);
      assert forall i :: 0 <= i < |init| ==> init[i] == records[i];
      if records[|records| - 1].species != species && species in Grouped(records) {
        var i :| 0 <= i < |init| && init[i].species == species;
        assert records[i].species == species;
      }
    }
  }

  /** Every label of `LabelsOf(records, species)` comes from a record of that species. */
  lemma {:induction false} LabelsOfOrigin(records: seq<Record>, species: string, k: int)
    requires 0 <= k < |LabelsOf(records, species)|
    ensures exists i :: (0 <= i < |records| && records[i].species == species &&
                         records[i].displayLabel == LabelsOf(records, species)[k])
  {
    var init := records[..|records| - 1];
    var r := records[|records| - 1];
    if k < |LabelsOf(init, species)| {
      LabelsOfOrigin(init, species, k);
      var i :| 0 <= i < |init| && init[i].species == species && init[i].displayLabel == LabelsOf(init, species)[k];
      assert records[i] == init[i];
    } else {
      assert records[|records| - 1] == r;
    }
  }

  /**
   * When the records arrive sorted by label within each species (as the
   * query orders them by species, then display label, under whatever
   * collation `before` stands for), every species list is sorted too.
   */
  lemma {:induction false} GroupedKeepsOrder(records: seq<Record>, before: (string, string) -> bool, species: string)
    requires forall i, j :: 0 <= i < j < |records| && records[i].species == records[j].species ==>
      before(records[i].displayLabel, records[j].displayLabel)
    ensures forall a, b :: 0 <= a < b < |LabelsOf(records, species)| ==>
      before(LabelsOf(records, species)[a], LabelsOf(records, species)[b])
  {
    if records != [] {
      var init := records[..|records| - 1];
      var r := records[|records| - 1];
      assert forall i :: 0 <= i < |init| ==> init[i] == records[i];
      GroupedKeepsOrder(init, before, species);
      var ls := LabelsOf(records, species);
      var prev := LabelsOf(init, species);
      if r.species == species {
        forall a | 0 <= a < |prev|
          ensures before(prev[a], r.displayLabel)
        {
          LabelsOfOrigin(init, species, a);
          var i :| 0 <= i < |init| && init[i].species == species && init[i].displayLabel == prev[a];
          assert records[i].species == records[|records| - 1].species;
        }
        assert ls == prev + [r.displayLabel];
      } else {
        assert ls == prev;
      }
    }
  }

  /** The species in order of first appearance, each once. */
  function SpeciesOrder(records: seq<Record>): seq<string>
  {
    if records == [] then []
    else
      var earlier := SpeciesOrder(records[..|records| - 1]);
      var s := records[|records| - 1].species;
      if s in earlier then earlier else earlier + [s]
  }

  predicate Distinct(keys: seq<string>) {
    forall i, j :: 0 <= i < j < |keys| ==> keys[i] != keys[j]
  }

  /** The total length of the lists stored under `keys`. */
  function TotalLabels(db: Snapshot, keys: seq<string>): nat
  {
    if keys == [] then 0
    else (if keys[0] in db then |db[keys[0]]| else 0) + TotalLabels(db, keys[1..])
  }

  lemma {:induction false} TotalAppend(db: Snapshot, keys: seq<string>, k: string)
    ensures TotalLabels(db, keys + [k]) == TotalLabels(db, keys) + (if k in db then |db[k]| else 0)
  {
    if keys != [] {
      assert (keys + [k])[1..] == keys[1..] + [k];
      TotalAppend(db, keys[1..], k);
    }
  }

  /** Updating a key outside `keys` leaves their total alone. */
  lemma {:induction false} TotalOtherKey(db: Snapshot, keys: seq<string>, k: string, labels: seq<string>)
    requires k !in keys
    ensures TotalLabels(db[k := labels], keys) == TotalLabels(db, keys)
  {
    if keys != [] {
      TotalOtherKey(db, keys[1..], k, labels);
    }
  }

  /** Growing the list of one of the (distinct) keys by one label grows the total by one. */
  lemma {:induction false} TotalGrow(db: Snapshot, keys: seq<string>, k: string, l: string)
    requires Distinct(keys) && k in keys && k in db
    ensures TotalLabels(db[k := db[k] + [l]], keys) == TotalLabels(db, keys) + 1
  {
    if keys[0] == k {
      assert k !in keys[1..] by {
        forall j | 0 <= j < |keys[1..]| ensures keys[1..][j] != k {
          assert keys[1..][j] == keys[j + 1];
        }
      }
      TotalOtherKey(db, keys[1..], k, db[k] + [l]);
    } else {
      TotalGrow(db, keys[1..], k, l);
    }
  }

  /**
   * Grouping loses and duplicates nothing: the keys are the distinct species
   * and the lists together hold as many labels as there are records.
   */
  lemma {:induction false} GroupedCount(records: seq<Record>)
    ensures Distinct(SpeciesOrder(records))
    ensures forall s :: s in Grouped(records) <==> s in SpeciesOrder(records)
    ensures TotalLabels(Grouped(records), SpeciesOrder(records)) == |records|
  {
    if records != [] {
      var init := records[..|records| - 1];
      var r := records[|records| - 1];
      GroupedCount(init);
      var db := Grouped(init);
      var keys := SpeciesOrder(init);
      if r.species in keys {
        TotalGrow(db, keys, r.species, r.displayLabel);
      } else {
        assert r.species !in db;
        assert [] + [r.displayLabel] == [r.displayLabel];
        assert Grouped(records) == db[r.species := [r.displayLabel]];
        assert SpeciesOrder(records) == keys + [r.species];
        TotalOtherKey(db, keys, r.species, [r.displayLabel]);
        TotalAppend(db[r.species := [r.displayLabel]], keys, r.species);
      }
    }
  }

  /** The snapshot file `/tmp/db.json`, holding a decoded mapping once written. */
  class SnapshotFile {
    var contents: Option<Snapshot>

    constructor ()
      ensures contents == None
    {
      contents := None;
    }
  }

  /**
   * `on_starting`: unless AGGRESSIVE_CACHING is unset or empty, group the
   * records (species, display label), as the ordered query returns them,
   * and write the mapping to the snapshot file.
   */
  method OnStarting(aggressiveCaching: Option<string>, records: seq<Record>, file: SnapshotFile)
    modifies file
    ensures aggressiveCaching == None || aggressiveCaching == Some("") ==> file.contents == old(file.contents)
    ensures aggressiveCaching != None && aggressiveCaching != Some("") ==> file.contents == Some(Grouped(records))
  {
    if aggressiveCaching.None? || aggressiveCaching.value == "" {
      return;
    }
    var db := GroupBySpecies(records);
    file.contents := Some(db);
  }
}
