/**
 * The autocomplete view of src/views.py: the class-level snapshot cache,
 * the cache and database lookups, and the dispatch in `get`.
 */
module Views {
  import opened Wrappers
  import opened Domain
  import opened Text
  import opened Sanitiser
  import opened Limits
  import opened Labels
  import opened Render

  /**
   * The gene table behind `Gene.display_label.contains(query)` and
   * `.limit(limit)`: given species, query and limit it yields the matching
   * display labels in the database's order.
   */
  type RecordSource = (string, string, int) -> seq<string>

  /**
   * The class attribute `CACHE`: one mapping shared by every view object,
   * replaced as a whole by `populate_cache`.
   */
  class SnapshotCache {
    var entries: Snapshot

    /** The initial `defaultdict(list)`: no species cached yet. */
    constructor ()
      ensures entries == map[]
    {
      entries := map[];
    }

    /**
     * `populate_cache`: `loaded` is the decoded snapshot file, or `None` when
     * opening or decoding it fails, in which case the exception leaves the
     * cache as it was. On success the loaded mapping replaces the old one in
     * full: no entry of the old mapping survives unless loaded again.
     */
    method Populate(loaded: Option<Snapshot>) returns (ok: bool)
      modifies this
      ensures ok <==> loaded.Some?
      ensures ok ==> entries == loaded.value
      ensures ok ==> forall s :: s in old(entries) && s !in loaded.value ==> s !in entries
      ensures !ok ==> entries == old(entries)
    {
      match loaded
      case None =>
        ok := false;
      case Some(snapshot) =>
        entries := snapshot;
        ok := true;
    }
  }

  /** The stored labels containing `query`, case-sensitively, in stored order. */
  function Matching(labels: seq<string>, query: string): (r: seq<string>)
    ensures |r| <= |labels|
    ensures forall i :: 0 <= i < |r| ==> Contains(r[i], query) && r[i] in labels
    ensures forall l :: l in labels && Contains(l, query) ==> l in r
  {
    if labels == [] then []
    else (if Contains(labels[0], query) then [labels[0]] else []) + Matching(labels[1..], query)
  }

  /**
   * The filter works label by label: filtering a concatenation is the
   * concatenation of the filtered parts, so the kept labels appear in stored
   * order, each as often as it is stored.
   */
  lemma {:induction false} MatchingAppend(a: seq<string>, b: seq<string>, query: string)
    ensures Matching(a + b, query) == Matching(a, query) + Matching(b, query)
  {
    if a == [] {
      assert [] + b == b;
    } else {
      assert (a + b)[0] == a[0];
      assert (a + b)[1..] == a[1..] + b;
      MatchingAppend(a[1..], b, query);
    }
  }

  /** One stored label is kept exactly when it contains the query. */
  lemma MatchingSingle(l: string, query: string)
    ensures Matching([l], query) == if Contains(l, query) then [l] else []
  {
    assert [l][1..] == [];
  }

  /** Every label's match is kept, so no label is lost or duplicated. */
  lemma {:induction false} MatchingAll(labels: seq<string>, query: string)
    requires forall i :: 0 <= i < |labels| ==> Contains(labels[i], query)
    ensures Matching(labels, query) == labels
  {
    if labels != [] {
      MatchingAll(labels[1..], query);
    }
  }

  /**
   * Python's `l[:k]`: the first `k` elements for `k >= 0`; for a negative
   * `k`, all but the last `-k` elements.
   */
  function PrefixSlice<T>(s: seq<T>, k: int): (r: seq<T>)
    ensures |r| == if k >= 0 then Min(k, |s|) else if |s| + k >= 0 then |s| + k else 0
    ensures r == s[..|r|]
  {
    if k >= 0 then s[..Min(k, |s|)]
    else if |s| + k >= 0 then s[..|s| + k]
    else []
  }

  /** Each label passed through `_cleanup_label`, order and count kept. */
  function CleanAll(labels: seq<string>): (r: seq<string>)
    ensures |r| == |labels|
    ensures forall i :: 0 <= i < |r| ==> r[i] == CleanupLabel(labels[i])
  {
    seq(|labels|, i requires 0 <= i < |labels| => CleanupLabel(labels[i]))
  }

  /** A list every element of which `_cleanup_label` leaves unchanged. */
  predicate AllCleaned(labels: seq<string>) {
    forall i :: 0 <= i < |labels| ==> CleanupLabel(labels[i]) == labels[i]
  }

  lemma CleanAllCleaned(labels: seq<string>)
    ensures AllCleaned(CleanAll(labels))
  {
    forall i | 0 <= i < |labels|
      ensures CleanupLabel(CleanAll(labels)[i]) == CleanAll(labels)[i]
    {
      CleanupLabelIdempotent(labels[i]);
    }
  }

  /** The labels stored for `species`; an absent species has none. */
  function Stored(entries: Snapshot, species: string): seq<string>
  {
    if species in entries then entries[species] else []
  }

  /**
   * `_get_from_cache`: the cleaned stored labels of `species` that contain
   * `query`, cut by Python's `[:limit]`; an absent species gives [].
   */
  function GetFromCache(entries: Snapshot, species: string, query: string, limit: int): (r: seq<string>)
    ensures species !in entries ==> r == []
    ensures limit >= 0 ==> |r| == Min(limit, |Matching(Stored(entries, species), query)|)
    ensures limit < 0 ==> |r| == Max0(|Matching(Stored(entries, species), query)| + limit)
    ensures forall i :: 0 <= i < |r| ==> r[i] == CleanupLabel(Matching(Stored(entries, species), query)[i])
    ensures AllCleaned(r)
  {
    var all := CleanAll(Matching(Stored(entries, species), query));
    CleanAllCleaned(Matching(Stored(entries, species), query));
    PrefixSlice(all, limit)
  }

  function Max0(n: int): nat { if n >= 0 then n else 0 }

  /**
   * Every label the cache path returns is the cleaned form of a stored
   * label of that species containing the query.
   */
  lemma GetFromCacheSound(entries: Snapshot, species: string, query: string, limit: int, i: int)
    requires 0 <= i < |GetFromCache(entries, species, query, limit)|
    ensures species in entries
    ensures exists l :: (l in entries[species] && Contains(l, query) &&
                         CleanupLabel(l) == GetFromCache(entries, species, query, limit)[i])
  {
    var m := Matching(Stored(entries, species), query);
    assert m[i] in Stored(entries, species);
  }

  /**
   * With a non-negative limit at least the number of matches, every stored
   * label containing the query is returned (cleaned).
   */
  lemma GetFromCacheComplete(entries: Snapshot, species: string, query: string, limit: int, l: string)
    requires species in entries && l in entries[species] && Contains(l, query)
    requires limit >= |entries[species]|
    ensures CleanupLabel(l) in GetFromCache(entries, species, query, limit)
  {
    var m := Matching(entries[species], query);
    var k :| 0 <= k < |m| && m[k] == l;
    assert GetFromCache(entries, species, query, limit)[k] == CleanupLabel(l);
  }

  /** `_get_from_db`: the rows of the record source, each cleaned, order and count kept. */
  function GetFromDb(db: RecordSource, species: string, query: string, limit: int): (r: seq<string>)
    ensures |r| == |db(species, query, limit)|
    ensures forall i :: 0 <= i < |r| ==> r[i] == CleanupLabel(db(species, query, limit)[i])
    ensures AllCleaned(r)
  {
    CleanAllCleaned(db(species, query, limit));
    CleanAll(db(species, query, limit))
  }

  /** Which lookup a request used. */
  datatype Source = NoLookup | CacheLookup | DatabaseLookup

  /** The suggestions `get` renders and the lookup that produced them. */
  datatype Outcome = Outcome(source: Source, suggestions: seq<string>)

  /** `_get_species`: the sanitised `species` argument. */
  function Species(args: Args): (s: string)
    ensures forall i :: 0 <= i < |s| ==> IsWordChar(s[i])
    ensures |s| <= |Param(args, "species")|
  {
    SanitiseParam(args, "species")
  }

  /** `_get_query`: the sanitised `query` argument. */
  function Query(args: Args): (q: string)
    ensures forall i :: 0 <= i < |q| ==> IsWordChar(q[i])
    ensures |q| <= |Param(args, "query")|
  {
    SanitiseParam(args, "query")
  }

  /**
   * The short-circuit condition: a query below the minimum length or an
   * empty species. Sanitising only shortens, so a raw query already below
   * the minimum, or a species without a single word character, is vague.
   */
  predicate TooVague(cfg: Config, args: Args): (v: bool)
    ensures |Param(args, "query")| < cfg.labelMinimum ==> v
    ensures (forall i :: 0 <= i < |Param(args, "species")| ==> !IsWordChar(Param(args, "species")[i])) ==> v
  {
    SanitiseNoWordChars(Param(args, "species"));
    |Query(args)| < cfg.labelMinimum || Species(args) == ""
  }

  class AutocompleteView {
    const cache: SnapshotCache
    const aggressiveCachingEnabled: bool
    const config: Config

    constructor (cache: SnapshotCache, aggressiveCachingEnabled: bool := false, config: Config := DefaultConfig)
      ensures this.cache == cache
      ensures this.aggressiveCachingEnabled == aggressiveCachingEnabled
      ensures this.config == config
    {
      this.cache := cache;
      this.aggressiveCachingEnabled := aggressiveCachingEnabled;
      this.config := config;
    }

    /**
     * The dispatch of `get`: nothing is looked up for a vague request;
     * otherwise exactly one source is consulted, the cache when aggressive
     * caching is enabled and the database when it is not, and its list is
     * passed on unchanged. Every suggestion is a normalised label.
     */
    function Suggest(args: Args, db: RecordSource): (o: Outcome)
      reads cache
      ensures TooVague(config, args) ==> o == Outcome(NoLookup, [])
      ensures o.source == CacheLookup <==> !TooVague(config, args) && aggressiveCachingEnabled
      ensures o.source == DatabaseLookup <==> !TooVague(config, args) && !aggressiveCachingEnabled
      ensures o.source == CacheLookup ==>
        o.suggestions == GetFromCache(cache.entries, Species(args), Query(args), GetLimit(config, args))
      ensures o.source == DatabaseLookup ==>
        o.suggestions == GetFromDb(db, Species(args), Query(args), GetLimit(config, args))
      ensures AllCleaned(o.suggestions)
    {
      var species := Species(args);
      var query := Query(args);
      var limit := GetLimit(config, args);
      if |query| < config.labelMinimum || species == "" then Outcome(NoLookup, [])
      else if aggressiveCachingEnabled then Outcome(CacheLookup, GetFromCache(cache.entries, species, query, limit))
      else Outcome(DatabaseLookup, GetFromDb(db, species, query, limit))
    }

    /** `get`: the suggestions rendered as a JSON array of strings with status 200. */
    function Get(args: Args, db: RecordSource): (r: Response)
      reads cache
      ensures r == RenderJson(StringArray(Suggest(args, db).suggestions))
      ensures r.status == 200 && r.headers == JsonHeaders
      ensures TooVague(config, args) ==> r.body == "[]"
    {
      RenderExample();
      RenderJson(StringArray(Suggest(args, db).suggestions))
    }
  }
  /** The cache contents the lookup tests use. */
  const AlphaCache: Snapshot := map["alpha" := ["abc", "abcde", "xyzabc"]]

  /** The filter on a three-label list, one label at a time. */
  lemma MatchingThree(a: string, b: string, c: string, query: string)
    ensures Matching([a, b, c], query) ==
      (if Contains(a, query) then [a] else []) +
      (if Contains(b, query) then [b] else []) +
      (if Contains(c, query) then [c] else [])
  {
    assert [a, b, c] == [a] + [b] + [c];
    MatchingAppend([a] + [b], [c], query);
    MatchingAppend([a], [b], query);
    MatchingSingle(a, query);
    MatchingSingle(b, query);
    MatchingSingle(c, query);
  }

  /** Which test labels contain which test queries. */
  lemma AlphaContainsAbc()
    ensures Contains("abc", "abc") && Contains("abcde", "abc") && Contains("xyzabc", "abc")
  {
    assert StartsWith("abc", "abc");
    assert StartsWith("abcde", "abc");
    assert OccursAt("xyzabc", "abc", 3);
    ContainsAt("xyzabc", "abc", 3);
  }

  lemma AlphaContainsXyz()
    ensures !Contains("abc", "xyz") && !Contains("abcde", "xyz") && Contains("xyzabc", "xyz")
  {
    MissingCharNotContained("abc", "xyz", 0);
    MissingCharNotContained("abcde", "xyz", 0);
    assert StartsWith("xyzabc", "xyz");
  }

  lemma AlphaContainsXySpaceZ()
    ensures !Contains("abc", "xy z") && !Contains("abcde", "xy z") && !Contains("xyzabc", "xy z")
  {
    MissingCharNotContained("abc", "xy z", 2);
    MissingCharNotContained("abcde", "xy z", 2);
    MissingCharNotContained("xyzabc", "xy z", 2);
  }

  lemma MatchingExamples()
    ensures Matching(["abc", "abcde", "xyzabc"], "abc") == ["abc", "abcde", "xyzabc"]
    ensures Matching(["abc", "abcde", "xyzabc"], "xyz") == ["xyzabc"]
    ensures Matching(["abc", "abcde", "xyzabc"], "xy z") == []
  {
    MatchingThree("abc", "abcde", "xyzabc", "abc");
    AlphaContainsAbc();
    MatchingThree("abc", "abcde", "xyzabc", "xyz");
    AlphaContainsXyz();
    MatchingThree("abc", "abcde", "xyzabc", "xy z");
    AlphaContainsXySpaceZ();
  }

  lemma CleanupAlphaLabels()
    ensures CleanAll(["abc", "abcde", "xyzabc"]) == ["ABC", "ABCDE", "XYZABC"]
    ensures CleanAll(["xyzabc"]) == ["XYZABC"]
  {
    CleanupWithoutSpace("abc", "ABC");
    CleanupWithoutSpace("abcde", "ABCDE");
    CleanupWithoutSpace("xyzabc", "XYZABC");
    var all := CleanAll(["abc", "abcde", "xyzabc"]);
    assert all[0] == "ABC" && all[1] == "ABCDE" && all[2] == "XYZABC";
    var one := CleanAll(["xyzabc"]);
    assert one[0] == "XYZABC";
  }

  lemma CacheLookupAbc()
    ensures CleanAll(Matching(Stored(AlphaCache, "alpha"), "abc")) == ["ABC", "ABCDE", "XYZABC"]
  {
    assert Stored(AlphaCache, "alpha") == ["abc", "abcde", "xyzabc"];
    MatchingExamples();
    CleanupAlphaLabels();
  }

  /** The lookup tests, with labels cleaned as the code does: all matches in stored order. */
  lemma GetFromCacheAllMatches()
    ensures GetFromCache(AlphaCache, "alpha", "abc", 5) == ["ABC", "ABCDE", "XYZABC"]
  {
    CacheLookupAbc();
  }

  /** Truncation to the limit keeps the first matches. */
  lemma GetFromCacheTruncates()
    ensures GetFromCache(AlphaCache, "alpha", "abc", 2) == ["ABC", "ABCDE"]
  {
    CacheLookupAbc();
    var all := CleanAll(Matching(Stored(AlphaCache, "alpha"), "abc"));
    assert GetFromCache(AlphaCache, "alpha", "abc", 2) == PrefixSlice(all, 2);
  }

  /** A match in the middle of a label counts. */
  lemma GetFromCacheInnerMatch()
    ensures GetFromCache(AlphaCache, "alpha", "xyz", 5) == ["XYZABC"]
  {
    assert Stored(AlphaCache, "alpha") == ["abc", "abcde", "xyzabc"];
    MatchingExamples();
    CleanupAlphaLabels();
    assert GetFromCache(AlphaCache, "alpha", "xyz", 5) == PrefixSlice(["XYZABC"], 5);
  }

  /** A query with a space matches nothing, and an unknown species gives []. */
  lemma GetFromCacheNoMatch()
    ensures GetFromCache(AlphaCache, "alpha", "xy z", 5) == []
    ensures GetFromCache(AlphaCache, "bravo", "abc", 5) == []
  {
    assert Stored(AlphaCache, "alpha") == ["abc", "abcde", "xyzabc"];
    MatchingExamples();
  }

  /**
   * A negative limit, which the limit resolver lets through, makes `[:limit]`
   * drop matches from the end instead of returning the default number.
   */
  lemma GetFromCacheNegativeLimit()
    ensures GetFromCache(AlphaCache, "alpha", "abc", -1) == ["ABC", "ABCDE"]
    ensures GetFromCache(AlphaCache, "alpha", "abc", 0) == []
  {
    CacheLookupAbc();
    var all := CleanAll(Matching(Stored(AlphaCache, "alpha"), "abc"));
    assert GetFromCache(AlphaCache, "alpha", "abc", -1) == PrefixSlice(all, -1);
  }

  /**
   * Under the intended limit rule the cache path never truncates from the
   * end: it returns the first `min(limit, matches)` cleaned matches, at least
   * one whenever something matches.
   */
  lemma GetFromCacheWithResolvedLimit(cfg: Config, args: Args, entries: Snapshot, species: string, query: string)
    requires 0 < cfg.defaultLimit <= cfg.maximumLimit
    ensures var matches := Matching(Stored(entries, species), query);
            var r := GetFromCache(entries, species, query, ResolveLimit(cfg, args));
            && |r| == Min(ResolveLimit(cfg, args), |matches|)
            && (|matches| > 0 ==> |r| > 0)
            && r == CleanAll(matches)[..|r|]
  {
    ResolveLimitInRange(cfg, args);
  }

  /** A record source that answers every query with one mixed-case row. */
  function FooBarSource(species: string, query: string, limit: int): seq<string> { ["foo bar"] }

  lemma GetFromDbExample()
    ensures GetFromDb(FooBarSource, "alpha", "abc", 5) == ["FOO bar"]
  {
    assert "foo bar" == "foo" + " " + "bar";
    assert "FOO bar" == "FOO" + " " + "bar";
    CleanupAtSpace("foo", "FOO", "bar");
    var r := GetFromDb(FooBarSource, "alpha", "abc", 5);
    assert |r| == 1 && r[0] == "FOO bar";
  }

  /** The arguments of a request for "abc" among "alpha" labels, with the given extra arguments. */
  function AlphaRequest(extra: Args): Args
  {
    extra["species" := "alpha"]["query" := "abc"]
  }

  lemma AlphaRequestLimit()
    ensures GetLimit(DefaultConfig, AlphaRequest(map["limit" := "-1"])) == -1
  {
    ParseFormatRoundTrip(-1);
    assert FormatInt(-1) == "-1";
    assert Param(AlphaRequest(map["limit" := "-1"]), "limit") == "-1";
  }

  lemma SuggestAlpha(view: AutocompleteView, db: RecordSource, extra: Args)
    requires view.aggressiveCachingEnabled && view.config == DefaultConfig
    requires view.cache.entries == AlphaCache
    ensures view.Suggest(AlphaRequest(extra), db).suggestions
      == GetFromCache(AlphaCache, "alpha", "abc", GetLimit(DefaultConfig, AlphaRequest(extra)))
  {
    var args := AlphaRequest(extra);
    SanitiseKeepsWords("alpha");
    SanitiseKeepsWords("abc");
    assert Species(args) == "alpha";
    assert Query(args) == "abc";
  }

  /**
   * End to end on the as-written limit: with the cache enabled and the
   * default configuration, a request for "abc" with limit "-1" gets two of
   * the three matches, where the default limit would give all three.
   */
  lemma SuggestWithNegativeLimit(view: AutocompleteView, db: RecordSource)
    requires view.aggressiveCachingEnabled && view.config == DefaultConfig
    requires view.cache.entries == AlphaCache
    ensures view.Suggest(AlphaRequest(map["limit" := "-1"]), db).suggestions == ["ABC", "ABCDE"]
  {
    SuggestAlpha(view, db, map["limit" := "-1"]);
    AlphaRequestLimit();
    GetFromCacheNegativeLimit();
  }

  lemma SuggestWithoutLimit(view: AutocompleteView, db: RecordSource)
    requires view.aggressiveCachingEnabled && view.config == DefaultConfig
    requires view.cache.entries == AlphaCache
    ensures view.Suggest(AlphaRequest(map[]), db).suggestions == ["ABC", "ABCDE", "XYZABC"]
  {
    SuggestAlpha(view, db, map[]);
    assert GetLimit(DefaultConfig, AlphaRequest(map[])) == 5;
    GetFromCacheAllMatches();
  }
}
