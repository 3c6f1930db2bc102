/**
 * Server start-up as the docstring of `on_starting` describes it: the
 * master's `on_starting` hook writes the grouped gene table to the snapshot
 * file, and each worker's `populate_cache` loads that file into its cache.
 * None of the modelled source files makes the second call: no worker hook
 * calls `populate_cache`, so this module composes the two steps the way the
 * docstring intends them.
 */
module Startup {
  import opened Wrappers
  import opened Domain
  import Gunicorn
  import Views

  /**
   * The write/load round trip: with AGGRESSIVE_CACHING set, the loading
   * cache ends up holding exactly the species -> labels mapping built from
   * the records. Without it nothing is written, and the load takes
   * whatever the file held before (failing, and keeping its cache, when
   * there is no file).
   */
  method StartServer(aggressiveCaching: Option<string>, records: seq<Record>,
                     file: Gunicorn.SnapshotFile, cache: Views.SnapshotCache)
    returns (loaded: bool)
    modifies file, cache
    ensures aggressiveCaching != None && aggressiveCaching != Some("") ==>
      file.contents == Some(Gunicorn.Grouped(records)) &&
      loaded && cache.entries == Gunicorn.Grouped(records)
    ensures aggressiveCaching == None || aggressiveCaching == Some("") ==>
      file.contents == old(file.contents) && loaded == old(file.contents).Some? &&
      cache.entries == if loaded then old(file.contents).value else old(cache.entries)
  {
    Gunicorn.OnStarting(aggressiveCaching, records, file);
    loaded := cache.Populate(file.contents);
  }

  /** A small table grouped by species: each species keeps its own labels in order. */
  lemma GroupedExample()
    ensures Gunicorn.Grouped([Record("a", "x"), Record("b", "z"), Record("a", "y")])
      == map["a" := ["x", "y"], "b" := ["z"]]
  {
    var r1 := [Record("a", "x")];
    var r2 := r1 + [Record("b", "z")];
    var rs := r2 + [Record("a", "y")];
    assert r1[..0] == [] && r2[..1] == r1 && rs[..2] == r2;
    var g0: Snapshot := map[];
    assert Gunicorn.Grouped([]) == g0;
    var g1 := g0["a" := [] + ["x"]];
    assert Gunicorn.Grouped(r1) == g1;
    var g2 := g1["b" := [] + ["z"]];
    assert Gunicorn.Grouped(r2) == g2;
    var g3 := g2["a" := g2["a"] + ["y"]];
    assert Gunicorn.Grouped(rs) == g3;
    assert g2["a"] + ["y"] == ["x", "y"] && [] + ["z"] == ["z"];
    assert g3 == map["a" := ["x", "y"], "b" := ["z"]];
  }
}
