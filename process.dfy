/**
 * One run of the script: the file checks and callbacks around the
 * enrichment, reduced to what they decide, the exit code and whether an
 * enriched document is written.  What happens to the file system and the
 * console is not modelled; the outcome of each I/O step is a parameter.
 */
module Process {
  import opened Basics
  import opened JsonValue
  import opened Enricher
  import EnricherProperties

  /** What the source file turns out to be. */
  datatype Source =
    | Missing            // `fs.existsSync` is false
    | Unreadable         // `fs.readFile` reports an error
    | Malformed          // `JSON.parse` throws
    | Parsed(doc: Json)

  /** The exit code and the document written to the output path, if any. */
  datatype Outcome = Outcome(exitCode: int, output: Option<Json>)

  /**
   * `writeSucceeds` says whether `fs.mkdirSync` and `fs.writeFile` succeed;
   * a failure of either sets exit code 1.
   */
  function Run(source: Source, startCase: Option<string> -> string, writeSucceeds: bool): (o: Outcome)
    ensures o.exitCode == 0 || o.exitCode == 1
    ensures (o.exitCode == 0 && o.output.None?) <==> source.Missing?
    ensures o.output.Some? <==>
              source.Parsed? && Enriched(source.doc, startCase).Ok? && writeSucceeds
    ensures o.output.Some? ==>
              o.exitCode == 0 && Enriched(source.doc, startCase) == Ok(o.output.value)
    ensures o.exitCode == 1 ==> o.output.None?
  {
    match source
    case Missing => Outcome(0, None)
    case Unreadable => Outcome(1, None)
    case Malformed => Outcome(1, None)
    case Parsed(doc) =>
      match Enriched(doc, startCase)
      case Err(_) => Outcome(1, None)
      case Ok(out) => if writeSucceeds then Outcome(0, Some(out)) else Outcome(1, None)
  }

  /** A parsed document without `paths` makes the run fail with nothing written. */
  lemma RunWithoutPaths(doc: Json, startCase: Option<string> -> string, writeSucceeds: bool)
    requires !Nullish(doc) && "paths" !in Keys(doc)
    ensures Run(Parsed(doc), startCase, writeSucceeds) == Outcome(1, None)
  {
    EnricherProperties.MissingPathsFails(doc, startCase);
  }
}
