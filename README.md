# Assembl gene-label autocomplete, modelled in Dafny

Assembl serves one HTTP endpoint, `/gene_suggest/`. Given a species and part
of a gene's display label, it returns a bounded JSON list of matching labels.
This project models the logic behind that endpoint:

- **Input rules.** Request arguments are sanitised down to word characters
  (`Sanitiser`). The `limit` argument is parsed and capped (`Limits`).
- **Label normalisation.** `src/views.py` upper-cases a label's first token;
  `src/app.py` upper-cases the whole label (`Labels`).
- **Dispatch in `src/views.py`.** `AutocompleteView.get` returns `[]` for a
  vague request. Otherwise it consults exactly one source (`Views`):
  - the class-level snapshot cache, matched case-sensitively, cut by Python's
    `[:limit]`;
  - or the database.
- **The older view in `src/app.py`.** It always queries the database and
  upper-cases whole labels (`App`).
- **Rendering.** `_render` produces compact JSON, status 200 and a JSON
  content type (`Render`).
- **The Gunicorn configuration file.** `GUNICORN_*` environment variables
  become setting names. The `on_starting` hook groups the gene table by
  species into a snapshot file (`Gunicorn`). Its docstring
  (gunicorn.py:47-51) says the file is "sourced by each worker at server
  start time", and the docstring of `populate_cache` (src/views.py:57-60)
  points back to it. No worker hook in these files makes that call; only
  the test does (src/tests/test_views.py:61). `Startup` composes the write
  and the load as the two docstrings describe them.

Modelling choices:

- **The cache (`CACHE`).** It is a class attribute that `populate_cache`
  replaces as a whole. Here it is the class `Views.SnapshotCache`, whose
  `entries` map is reassigned by `Populate`. View objects hold a reference to
  one shared cache object.
- **The database.** It is the function parameter `RecordSource`, mapping
  (species, query, limit) to rows. The start-up hook takes its records as a
  sequence.
- **The environment.** `os.environ.items()` is a sequence of name/value pairs
  in iteration order.
- **Reused code.** `src/app.py`'s `_sanitise` (lines 116-122), `_get_limit`
  (107-111) and `_render` (89-102) run the same code as the ones in
  `src/views.py`; only their docstrings differ. Both views use the same `Sanitiser.SanitiseParam`,
  `Limits.GetLimit` and `Render.RenderJson`.
- **Where the code disagrees with its docstring (src/views.py:113) or its
  tests (src/tests/test_views.py:106-107, 127, 131), the model follows the
  code.**
  - The limit resolver accepts zero and negative numbers (see Findings).
  - For a parsed n >= MAXIMUM_LIMIT the docstring ("a number > 0 and <
    MAXIMUM_LIMIT. If not, we return the default") gives DEFAULT_LIMIT. The
    code and the test rows src/tests/test_views.py:103-104 (26→25) give
    MAXIMUM_LIMIT instead, and no test decides n == MAXIMUM_LIMIT. Both
    `Limits.GetLimit` and the corrected `Limits.ResolveLimit` cap at the
    maximum.
  - The sanitiser removes spaces and parentheses, although two rows of the
    sanitiser test (`src/tests/test_views.py:127` and `:131`) expect them to
    survive (`Sanitiser.SanitiseDropsSpaceAndParens`).

## Model

| member | source | states |
|---|---|---|
| `Sanitiser.Sanitise` | src/views.py:125-131 | the sanitised value holds only letters, digits and underscores, and is no longer than the raw value |
| `Sanitiser.SanitiseParam` | src/app.py:116-122 | a request argument is sanitised, and a missing one gives "" (same code as src/views.py:125-131) |
| `Sanitiser.SanitiseAppend` | src/views.py:131 | removing non-word characters distributes over concatenation |
| `Sanitiser.SanitiseSingle` | src/views.py:131 | a single character survives exactly when it is a word character; with SanitiseAppend this pins down the output on every input |
| `Sanitiser.SanitiseKeepsWords` | src/views.py:131 | a value made only of word characters is returned unchanged |
| `Sanitiser.SanitiseIdempotent` | src/views.py:131 | sanitising twice equals sanitising once |
| `Sanitiser.SanitiseSubsequence` | src/views.py:131 | the output is a subsequence of the input: characters are only deleted, never added or reordered |
| `Sanitiser.SanitiseKeepsEveryWordChar` | src/views.py:131 | every word character of the input appears in the output, followed by the sanitised remainder of the input after it |
| `Sanitiser.SanitiseExamples` | src/tests/test_views.py:126-132 | "asdf", "as%df", "as!df", "as'df" and "\"asdf\"" all sanitise to "asdf" |
| `Sanitiser.SanitiseDropsSpaceAndParens` | src/tests/test_views.py:127-131 | "as df" and "as(d)f" give "asdf", because the regular expression removes spaces and parentheses |
| `Limits.ParseInt` | src/views.py:118 | `int()` succeeds exactly on an optional sign followed by digits, and the sign decides the sign of the value |
| `Limits.ParseAnyLiteral` | src/views.py:118 | the value of every accepted literal: an optional sign, any number of leading zeros, then the digits of n give n, or -n after "-" (so "+5" gives 5, "007" gives 7, "-00" gives 0) |
| `Limits.ParseFormatRoundTrip` | src/views.py:118 | parsing the decimal text of any integer gives that integer back |
| `Limits.GetLimit` | src/views.py:111-120 | an unparsable or missing limit gives DEFAULT_LIMIT; a parsed one gives min(n, MAXIMUM_LIMIT) |
| `Limits.GetLimitOfInteger` | src/views.py:117-118 | for every integer n written as the limit, the result is min(n, MAXIMUM_LIMIT) |
| `Limits.GetLimitAtMostMaximum` | src/app.py:107-111 | when DEFAULT_LIMIT <= MAXIMUM_LIMIT the resolved limit never exceeds MAXIMUM_LIMIT (same code as src/views.py:117-120) |
| `Limits.GetLimitExamples` | src/tests/test_views.py:101-108 | the test rows the code meets: "10"→10, "26"→25, "1"→1, "seven"→10 (default 10, maximum 25) |
| `Limits.GetLimitNonPositiveGap` | src/views.py:112-118 | every non-positive integer limit is returned as it is: "0"→0 and "-1"→-1, whereas the docstring promises a number > 0 |
| `Limits.ResolveLimit` | src/tests/test_views.py:101-108 | the rule the test table fixes: an unparsable limit or a parsed n <= 0 gives DEFAULT_LIMIT, a parsed n > 0 gives min(n, MAXIMUM_LIMIT); the result is the default or a positive value capped at the maximum |
| `Limits.ResolveLimitInRange` | src/views.py:112-115 | with 0 < default <= maximum the intended rule always gives 1..maximum, agrees with the code whenever the code's result is positive, and gives the default for "0" and "-1" as the tests at src/tests/test_views.py:106-107 expect |
| `Text.IndexOf` | src/views.py:142 | the cut point of `split(" ", 1)` is the first space, or the end when there is none |
| `Text.ContainsIffOccurs` | src/views.py:104 | `query in label` holds exactly when the query occurs, case-sensitively, at some position of the label |
| `Labels.CleanupLabel` | src/views.py:133-144 | characters before the first space are upper-cased and all others are kept, length unchanged |
| `Labels.CleanupLabelShape` | src/views.py:142-144 | the first token comes out upper-case, and the text from the first space on is unchanged |
| `Labels.CleanupLabelKeepsSpaces` | src/views.py:142-144 | spaces stay at exactly the same positions, so the first space, and with it the first token's extent, is the same |
| `Labels.CleanupLabelIdempotent` | src/views.py:142-144 | normalising a normalised label changes nothing |
| `Labels.CleanupLabelExamples` | src/tests/test_views.py:144-148 | "asdf"→"ASDF", "as df"→"AS df", "as (df)"→"AS (df)" |
| `Labels.UpperLabel` | src/app.py:87 | the older view upper-cases every character, keeping the length, and leaves no lower-case letter |
| `Labels.UpperLabelVersusCleanup` | src/app.py:87 | upper-casing a cleaned label gives the fully upper-cased label; the two normalisers agree exactly when nothing after the first space is lower-case |
| `Labels.UpperLabelExample` | src/app.py:87 | "as df" becomes "AS DF" in the older view and "AS df" in the newer one |
| `Render.EscapeChar` | src/views.py:78 | each string character is printed as itself exactly when it is printable ASCII other than quote and backslash; every escape is printable ASCII |
| `Render.Escape` | src/views.py:78 | an escaped string is printable ASCII |
| `Render.EscapePlain` | src/views.py:78 | a string with nothing to escape is printed verbatim |
| `Render.RenderJson` | src/views.py:68-81 | `_render` returns the serialisation of the data as its body (printable ASCII), the given status (200 by default) and the header Content-Type: application/json |
| `Render.SerializePrintable` | src/views.py:77-81 | the rendered body is printable ASCII |
| `Render.Serialize` | src/views.py:78 | `json.dumps` output is delimited by its value's kind: quotes around a string, brackets around a list, braces around an object |
| `Render.SerializeCompact` | src/app.py:98-102 | the separators add no padding: when no string holds a space, the body holds none (same code as src/views.py:77-81) |
| `Render.RenderTwoItems` | src/views.py:78 | two suggestions render as ["a","b"], separated by a bare comma |
| `Render.RenderExample` | src/tests/test_views.py:65-69 | rendering {"x": "y"} gives ('{"x":"y"}', 200, {"Content-Type": "application/json"}), and an empty list renders as "[]" |
| `Views.SnapshotCache.constructor` | src/views.py:21 | the cache starts empty |
| `Views.SnapshotCache.Populate` | src/views.py:55-64 | a loaded snapshot replaces the cache in full and no old entry survives; a missing or malformed file leaves the cache unchanged |
| `Views.Matching` | src/views.py:104 | the kept labels are stored labels that contain the query, and every stored label containing it is kept |
| `Views.MatchingAppend` | src/views.py:104 | filtering a concatenation gives the concatenation of the filtered parts, so the kept labels keep their stored order and multiplicity |
| `Views.MatchingSingle` | src/views.py:104 | a single stored label is kept exactly when it contains the query |
| `Views.MatchingAll` | src/views.py:104 | when every label matches, the filter keeps the whole list in order |
| `Views.PrefixSlice` | src/views.py:104 | Python's `[:k]` keeps a prefix: min(k, n) elements for k >= 0, and n+k elements (at least 0) for k < 0 |
| `Views.CleanAll` | src/views.py:100 | each label is passed through `_cleanup_label`, with order and count kept |
| `Views.CleanAllCleaned` | src/views.py:100 | every cleaned label is a fixed point of `_cleanup_label` |
| `Views.GetFromCache` | src/views.py:102-106 | an absent species gives []; otherwise the result is the cleaned matches in stored order, min(limit, matches) of them for limit >= 0 and matches+limit of them for a negative limit |
| `Views.GetFromCacheSound` | src/views.py:104 | every returned label is the cleaned form of a stored label of that species containing the query |
| `Views.GetFromCacheComplete` | src/views.py:104 | with a limit at least the number of stored labels, every stored label containing the query is returned, cleaned |
| `Views.GetFromCacheAllMatches` | src/tests/test_views.py:79 | cache {"alpha": ["abc","abcde","xyzabc"]}, query "abc", limit 5 gives ["ABC","ABCDE","XYZABC"] |
| `Views.GetFromCacheTruncates` | src/tests/test_views.py:80 | with limit 2 the first two matches are returned |
| `Views.GetFromCacheInnerMatch` | src/tests/test_views.py:81 | query "xyz" gives ["XYZABC"] |
| `Views.GetFromCacheNoMatch` | src/tests/test_views.py:82-83 | query "xy z" and species "bravo" both give [] |
| `Views.MatchingExamples` | src/tests/test_views.py:79-82 | the case-sensitive filter on the test's cache keeps all three labels for "abc", one for "xyz" and none for "xy z" |
| `Views.GetFromCacheNegativeLimit` | src/views.py:104 | a limit of -1 drops the last match, and a limit of 0 returns nothing |
| `Views.GetFromCacheWithResolvedLimit` | src/views.py:112-115 | under the intended limit rule the lookup returns the first min(limit, matches) cleaned matches, at least one when something matches |
| `Views.GetFromDb` | src/views.py:83-100 | the record source's rows are each cleaned, with order and count preserved |
| `Views.GetFromDbExample` | src/views.py:100 | a source returning ["foo bar"] gives ["FOO bar"] |
| `Views.Species` | src/views.py:122-123 | `_get_species` yields word characters only, no longer than the raw argument |
| `Views.Query` | src/views.py:108-109 | `_get_query` yields word characters only, no longer than the raw argument |
| `Views.TooVague` | src/views.py:45 | a raw query already shorter than LABEL_MINIMUM, or a species without a word character, short-circuits |
| `Sanitiser.SanitiseNoWordChars` | src/views.py:131 | a value with no word character sanitises to "" |
| `Views.AutocompleteView.constructor` | src/views.py:26-30 | a view records its caching flag (default off), its configuration and the shared cache |
| `Views.AutocompleteView.Suggest` | src/views.py:34-51 | a query shorter than LABEL_MINIMUM or an empty species gives [] with no lookup; otherwise exactly one lookup is done (the cache if aggressive caching is on, else the database) and its list is passed on unchanged; every suggestion is a normalised label |
| `Views.AutocompleteView.Get` | src/views.py:45-51 | `get` renders the suggestions as a JSON array with status 200, and "[]" for a vague request |
| `Views.SuggestWithNegativeLimit` | src/views.py:38-49 | end to end with the cache on: limit "-1" returns two of the three matches for "abc" |
| `Views.SuggestWithoutLimit` | src/views.py:38-49 | end to end with the cache on: no limit returns all three matches (DEFAULT_LIMIT 5) |
| `App.Suggest` | src/app.py:59-87 | the older view returns [] with no query for a vague request; otherwise it returns each database row fully upper-cased, order and count preserved, with no lower-case letter |
| `App.Get` | src/app.py:78-87 | the older `get` renders its suggestions as a JSON array with status 200, and "[]" for a vague request |
| `App.SameRowsAgreeUpToCase` | src/app.py:87 | on the same rows, upper-casing the newer view's output gives the older view's output |
| `App.FooBarExample` | src/app.py:87 | "foo bar" becomes "FOO BAR" in the older view |
| `Gunicorn.SettingName` | gunicorn.py:31 | the setting name is everything after the "GUNICORN_" prefix, lower-cased |
| `Gunicorn.FirstUnderscoreEndsPrefix` | gunicorn.py:30-31 | in a prefixed name the first underscore is the one that closes the prefix |
| `Gunicorn.SettingNameWorkers` | gunicorn.py:3-8 | GUNICORN_WORKERS sets "workers" |
| `Gunicorn.SettingNameMaxRequests` | gunicorn.py:31 | GUNICORN_MAX_REQUESTS sets "max_requests" |
| `Gunicorn.ConfigureFromEnvironment` | gunicorn.py:29-32 | the loop's settings are the environment's prefixed variables under their setting names, a later entry overwriting an earlier one |
| `Gunicorn.SettingsFromPrefixedVars` | gunicorn.py:29-32 | a setting exists exactly when some GUNICORN_ variable names it; its value is that variable's string, verbatim, from the last such entry |
| `Gunicorn.OtherVarsIgnored` | gunicorn.py:30 | a variable without the prefix changes no setting |
| `Gunicorn.GroupBySpecies` | gunicorn.py:74-76 | the grouping loop builds the species → labels mapping of the records |
| `Gunicorn.GroupedBySpecies` | gunicorn.py:74-76 | the keys are exactly the species that occur, each list is non-empty, and each holds exactly its species' labels in record order |
| `Gunicorn.GroupedKeepsOrder` | gunicorn.py:71-76 | when records arrive sorted by label within each species, under any collation, every species list is sorted under it |
| `Gunicorn.GroupedCount` | gunicorn.py:74-76 | the keys are the distinct species, and the lists together hold exactly as many labels as there are records |
| `Gunicorn.OnStarting` | gunicorn.py:64-79 | with AGGRESSIVE_CACHING unset or empty nothing is written; otherwise the snapshot file holds the grouped records |
| `Startup.StartServer` | gunicorn.py:47-51 | composing the hook with `populate_cache`, as the docstring intends (no source file makes that call): the file holds the grouped records and the mapping written is the mapping loaded into the cache; without the flag the worker loads whatever the file held, and keeps its cache if there is none |
| `Startup.GroupedExample` | gunicorn.py:74-76 | records (a,x), (b,z), (a,y) group to {"a": ["x","y"], "b": ["z"]} |

## Findings

| source | as written | input that shows it | evidently intended | confidence | as-written member | corrected member |
|---|---|---|---|---|---|---|
| src/views.py:117-120 | `min(int(limit), MAXIMUM_LIMIT)` returns any parsed integer, including 0 and negatives, so `[:limit]` in `_get_from_cache` then returns nothing or drops matches from the end | limit "-1" with cache {"alpha": ["abc","abcde","xyzabc"]} and query "abc" returns ["ABC","ABCDE"] (see `Views.SuggestWithNegativeLimit`); limit "0" returns 0 | a number > 0, falling back to DEFAULT_LIMIT (docstring at src/views.py:113; tests at src/tests/test_views.py:106-107) | high; not executed | `Limits.GetLimitNonPositiveGap` | `Limits.ResolveLimitInRange` |

The same code is in src/app.py:107-111, where the negative value reaches the
database query's `LIMIT` instead. The view's dispatch (`Views.AutocompleteView.Suggest`)
keeps the code's resolver, so the model states what the program does.
`Views.GetFromCacheWithResolvedLimit` shows what the cache path returns under
the corrected rule.

## Left out

- Database access is not modelled. This covers the SQLAlchemy query chains
  (src/views.py:94-98, src/app.py:81-85, gunicorn.py:71-72), the session and
  engine setup with its DATABASE_URL check (src/app.py:46-57), and
  src/database.py and src/models.py.
  - The database is replaced by a function parameter, and `on_starting` takes
    its records as a sequence.
  - The source's own contract is not assumed: case-insensitive matching,
    respecting the limit, and ordering by (species, display label).
  - `Gene.objects` is not an attribute of the declarative model, so those
    calls in src/views.py and gunicorn.py would fail before querying. The
    model treats them as the query they were meant to be.
- File I/O and the JSON codec are not modelled: `open("/tmp/db.json")`,
  `json.load` and `json.dump`. The snapshot file holds the decoded mapping,
  and `Populate` receives it, or `None` when opening or decoding fails.
- JSON decoding is not modelled. There is no decoder, so no parse-after-render
  round trip is stated.
- `Render.EscapeChar` follows Python's `ensure_ascii` escaping, but Python
  strings holding lone surrogates cannot be expressed with Dafny characters.
- Flask, Werkzeug and Gunicorn plumbing is not modelled: `request`,
  `MethodView`, `add_url_rule`, `ProxyFix`, `app.run` (src/app.py:125-132),
  worker processes and logging (gunicorn.py:67-69, 81).
- Unicode is not modelled. `\w`, `upper()` and `lower()` are modelled on
  ASCII letters, digits and underscore; other characters pass through case
  mapping unchanged.
- `int()` is modelled as an optional sign followed by ASCII digits. Python
  also accepts surrounding whitespace, "_" separators and non-ASCII digits.
- The class constants LABEL_MINIMUM, DEFAULT_LIMIT and MAXIMUM_LIMIT come from
  the environment at import time (src/views.py:22-24). Here they are a
  `Config` value with the defaults 3, 5 and 25. The import-time crash on a
  non-numeric value is not modelled.
- The initial `defaultdict(list)` inserts an empty list when an absent
  species is looked up. The result is the same [], so the model uses a plain
  map.
- When two environment variables lower-case to the same setting name, the
  winner depends on `os.environ`'s iteration order. The model takes that
  order as the sequence's order.
- Gunicorn.Settings and Gunicorn.ConfigureFromEnvironment start from an
  empty map. They do not model that module-level `locals()` is the
  configuration file's own namespace, shared with `json`, `logging`, `os`,
  `sys`, `defaultdict`, `Gene`, `on_starting` and the loop's own `k`, `v`,
  `key`. A setting can therefore rebind one of them:
  - GUNICORN_OS breaks `os.getenv` at gunicorn.py:64.
  - GUNICORN_LOGGING breaks gunicorn.py:67.
  - GUNICORN_DEFAULTDICT breaks gunicorn.py:74.
  - GUNICORN_JSON breaks gunicorn.py:79.
  - GUNICORN_ON_STARTING is overwritten by the `def` at gunicorn.py:35.

  Which names Gunicorn then treats as settings is not modelled either.
- Sharing across processes is not modelled: concurrency, and the startup
  barrier that keeps the cache read-only while requests are served.
