/**
  How the two halves of `flowctl patch` fit together: the payload the flag
  parser builds is a valid patch, and merging it into an empty resource gives
  it back unchanged.
 */
module ParsedPatch {
  import opened Wrappers
  import opened Values
  import opened CliArgs
  import opened Merge

  /** Any payload the parser builds, merged into `{}`, is itself; merged into
      itself, it is also itself. */
  lemma ParsedPayloadMergesIntoEmpty(tokens: seq<string>)
    requires ParseComplexArgs(tokens).Ok?
    ensures var kw := ParseComplexArgs(tokens).value.kwargs;
      MergeObjects([], kw.fields) == kw.fields && MergeObjects(kw.fields, kw.fields) == kw.fields
  {
    var kw := ParseComplexArgs(tokens).value.kwargs;
    MergeIdentity([], kw.fields);
    ObjectsSelf(kw.fields);
  }
}
