/**
 * The older view in src/app.py. It reads its arguments with the same
 * sanitiser and limit rule as src/views.py (`Sanitiser.SanitiseParam`,
 * `Limits.GetLimit`) and short-circuits on the same condition, but always
 * queries the database and upper-cases each whole label.
 */
module App {
  import opened Domain
  import opened Text
  import opened Limits
  import opened Labels
  import opened Render
  import Views

  /** `get`: the suggestions, or [] without a query for a vague request. */
  function Suggest(cfg: Config, args: Args, db: Views.RecordSource): (o: Views.Outcome)
    ensures Views.TooVague(cfg, args) ==> o == Views.Outcome(Views.NoLookup, [])
    ensures !Views.TooVague(cfg, args) ==> o.source == Views.DatabaseLookup
    ensures o.source == Views.DatabaseLookup ==>
      var rows := db(Views.Species(args), Views.Query(args), GetLimit(cfg, args));
      && |o.suggestions| == |rows|
      && forall i :: 0 <= i < |rows| ==> o.suggestions[i] == UpperLabel(rows[i])
    ensures forall i :: 0 <= i < |o.suggestions| ==> NoLowerAscii(o.suggestions[i])
  {
    var species := Views.Species(args);
    var query := Views.Query(args);
    var limit := GetLimit(cfg, args);
    if |query| < cfg.labelMinimum || species == "" then Views.Outcome(Views.NoLookup, [])
    else
      var rows := db(species, query, limit);
      Views.Outcome(Views.DatabaseLookup, seq(|rows|, i requires 0 <= i < |rows| => UpperLabel(rows[i])))
  }

  /** `get` with `_render`: a JSON array of strings, status 200. */
  function Get(cfg: Config, args: Args, db: Views.RecordSource): (r: Response)
    ensures r == RenderJson(StringArray(Suggest(cfg, args, db).suggestions))
    ensures r.status == 200 && r.headers == JsonHeaders
    ensures Views.TooVague(cfg, args) ==> r.body == "[]"
  {
    RenderExample();
    RenderJson(StringArray(Suggest(cfg, args, db).suggestions))
  }

  /**
   * On the same rows the two views differ only in the case of the text
   * after a label's first space: upper-casing the newer view's output gives
   * the older view's output.
   */
  lemma SameRowsAgreeUpToCase(view: Views.AutocompleteView, args: Args, db: Views.RecordSource)
    requires !view.aggressiveCachingEnabled
    ensures var older := Suggest(view.config, args, db).suggestions;
            var newer := view.Suggest(args, db).suggestions;
            && |older| == |newer|
            && forall i :: 0 <= i < |newer| ==> older[i] == UpperLabel(newer[i])
  {
    var older := Suggest(view.config, args, db).suggestions;
    var newer := view.Suggest(args, db).suggestions;
    if !Views.TooVague(view.config, args) {
      var rows := db(Views.Species(args), Views.Query(args), GetLimit(view.config, args));
      forall i | 0 <= i < |newer| ensures older[i] == UpperLabel(newer[i]) {
        UpperLabelVersusCleanup(rows[i]);
      }
    }
  }

  /** A row "foo bar" comes back as "FOO BAR" here and "FOO bar" from src/views.py. */
  lemma FooBarExample()
    ensures UpperLabel("foo bar") == "FOO BAR"
  {
  }
}
