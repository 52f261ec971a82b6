/** What the two mongoose link models share: the `metadata` object they
    store, and the `required` validation that rejects a document before it
    is saved. */
module Mongo {
  import opened Wrappers

  /** A stored `metadata` / `googleMetadata` object, reduced to its string
      properties. */
  type Metadata = map<string, string>

  /** `metadata = {}`: an omitted object defaults to the empty one. */
  function OrEmpty(m: Option<Metadata>): (r: Metadata)
    ensures m.None? ==> r == map[]
    ensures m.Some? ==> r == m.value
  {
    match m
    case None => map[]
    case Some(v) => v
  }

  /** `Path \`p\` is required.` for each failing path, joined by `, `. */
  function RequiredList(paths: seq<string>): string {
    if |paths| == 0 then ""
    else if |paths| == 1 then paths[0] + ": Path `" + paths[0] + "` is required."
    else paths[0] + ": Path `" + paths[0] + "` is required., " + RequiredList(paths[1..])
  }

  /** The message of the `ValidationError` that `save()` rejects with. */
  function ValidationMessage(model: string, paths: seq<string>): string {
    model + " validation failed: " + RequiredList(paths)
  }
}
