/**
 * The values that flow between the request layer, the view and the
 * start-up hook: request arguments, the species -> labels snapshot and the
 * rows of the gene table.
 */
module Domain {
  /** The query-string arguments of one request (`request.args`). */
  type Args = map<string, string>

  /** `request.args.get(name, "")`: the argument, or "" when it is missing. */
  function Param(args: Args, name: string): (v: string)
    ensures name !in args ==> v == ""
    ensures name in args ==> v == args[name]
  {
    if name in args then args[name] else ""
  }

  /** Species -> ordered list of raw display labels, as written to the snapshot file and held in the view's cache. */
  type Snapshot = map<string, seq<string>>

  /** One row of the `gene_autocomplete` table. */
  datatype Record = Record(species: string, displayLabel: string)
}
