# OpenAPI tag enrichment, modelled in Dafny

The repository's build step `utils/api-parser/index.js` reads an OpenAPI
document and derives one tag for every path key. The tag is the segment after
a `/v<digits>/` version marker when the marker is followed by at least one
non-slash character; otherwise it is `path.split("/")[1]`. The script then
rewrites to `[tag]` every `tags` field that already exists and is truthy, on a
path item or on one of its members (operations). Last, it replaces the
top-level `tags` array with one `{name, x-displayName}` entry per distinct
tag, in the order the tags first appear. The write of the result and the
process exit code follow from the file checks around it.

The model consists of the following modules:

- `JsonValue` (json_value.dfy): the parsed document as a JavaScript value.
  - It covers `undefined`, null, booleans, numbers, strings, arrays and
    objects.
  - An object is its properties in `Object.keys` order.
  - It defines JavaScript truthiness, property reads and assignments, and
    `Object.keys` over objects, arrays and strings.
- `TagDerivation` (tag_derivation.dfy): a scanner that computes the leftmost
  match of `/\/v\d+\/([^/]+)/` and `String.prototype.split("/")`.
  - The scanner is proved against a declarative statement of the pattern.
  - Split is proved against its inverse, `join("/")`.
- `OrderedSet` (ordered_set.dfy): the JavaScript `Set` as a class with a
  sequence field.
  - `Add` appends only values that are not already present.
  - The reference function `Dedup` gives the first-appearance order.
- `Enricher` (enricher.dfy): the body of the `try` block.
  - Functions state what the enrichment computes, including the TypeError it
    throws.
  - The methods `Enrich`, `ForEachPath`, `VisitPath`, `RewritePathItem` and
    `RetagMembers` follow the source's loops and callbacks. Each is proved to
    compute exactly the function that states it.
- `EnricherProperties` (enricher_properties.dfy): what the enrichment
  promises.
  - A `tags` field is rewritten only where it existed and was truthy, and
    never added.
  - Nothing else changes.
  - The catalog is distinct and in first-appearance order.
  - A second run changes nothing.
  - A document without `paths` fails.
- `Process` (process.dfy): one run of the script, reduced to its exit code
  and the document it writes, if any.
- `Scenarios` (scenarios.dfy): concrete paths worked through the tag
  derivation.

Two of the script's behaviours are easy to misread:

- **Missing `paths`.** The script does not check `paths` before using it. It
  throws a TypeError in three cases: the document itself is `null`, `paths`
  is absent or null, or a path item is null. The catch turns that TypeError
  into exit code 1.
  - A `paths` value that is a string, number, boolean or array is enumerated
    the way `Object.keys` enumerates it, and is not an error.
- **Fallback tag.** The fallback is `split("/")[1]`, so:
  - "/" and "//x" give "";
  - a path without "/" gives `undefined`. The model writes `undefined`
    (None) into the `tags` arrays and the catalog, and uses no sentinel tag.

The data types carry the script's outcomes:

- `Enricher.EnrichError` (enricher.dfy) names the three TypeErrors of the try
  block: `NullDocument` for `null.paths` (line 29), `NullPaths` for
  `Object.keys` of an absent or null `paths` (line 29), and `NullPathItem` for
  reading `tags` on a null path item (line 44).
- `Process.Source` (process.dfy) is what the source file turns out to be:
  missing (line 12), unreadable (line 20), malformed JSON (line 28), or a
  parsed document.
- `Process.Outcome` (process.dfy) is the exit code together with the
  document written, if any (lines 16, 22, 59-65 and 71).

## Model

| member | source | states |
|---|---|---|
| JsonValue.FindKey | utils/api-parser/index.js:44 | the index returned is that of the first property with the key; None exactly when no property has it |
| JsonValue.PropSetProp | utils/api-parser/index.js:45 | after `v.k = x` on an object, reading `k` gives `x` and every other property reads as before; assigning to a primitive changes nothing |
| JsonValue.PropOverwrite | utils/api-parser/index.js:45 | overwriting an existing property is seen by a read of that key and by no other |
| JsonValue.PropAppend | utils/api-parser/index.js:45 | adding a property that was absent is seen by a read of that key and by no other |
| JsonValue.SetPropKeys | utils/api-parser/index.js:45 | an assignment keeps the keys and their order, and appends the key only when it was absent |
| JsonValue.SetPropSame | utils/api-parser/index.js:45 | writing back the value a present key already holds leaves the object unchanged |
| JsonValue.SetPropOthers | utils/api-parser/index.js:45 | an assignment leaves every property with another key in its position and unchanged |
| JsonValue.FindKeySameKeys | utils/api-parser/index.js:48 | lookup by name depends only on the keys, not on the values |
| JsonValue.ReplaceValuesKeys | utils/api-parser/index.js:47-49 | rewriting the values under `Object.keys(v)` keeps the keys and their order |
| JsonValue.ReplaceValuesEntries | utils/api-parser/index.js:47-49 | for an object or array, position i of the rewritten value holds the i-th new value |
| JsonValue.PropReplaceValues | utils/api-parser/index.js:48 | reading a property after all values are rewritten gives the new value at that key's first position |
| JsonValue.SplicedEnds | utils/api-parser/index.js:47 | before a loop over the keys nothing is rewritten, and after it every value is |
| JsonValue.SplicedStep | utils/api-parser/index.js:49 | one loop step writes the value at its key in place, and a value left as it was changes nothing |
| JsonValue.IndexKey | utils/api-parser/index.js:29 | the keys `Object.keys` lists for array and string positions are non-empty runs of decimal digits |
| TagDerivation.DigitsEnd | utils/api-parser/index.js:32 | `\d+` scans to the end of the run of ASCII digits: every character before the end is a digit and the end is not |
| TagDerivation.SegmentEnd | utils/api-parser/index.js:40 | the scan stops at the first slash at or after the start, or at the end of the string |
| TagDerivation.MatchAt | utils/api-parser/index.js:32-34 | the pattern matches with its `/v` at p exactly when the result is the position of the slash after the digits |
| TagDerivation.FindMatch | utils/api-parser/index.js:34 | the result is a match with no match starting further left; None exactly when nothing matches |
| TagDerivation.VersionTag | utils/api-parser/index.js:34-38 | a capture, when there is one, is non-empty and slash-free |
| TagDerivation.VersionTagNone | utils/api-parser/index.js:34 | there is no capture exactly when the pattern matches nowhere in the path |
| TagDerivation.VersionTagLeftmost | utils/api-parser/index.js:32-38 | at the leftmost match the tag is the run of non-slash characters after the digits' slash, up to the next slash or the end |
| TagDerivation.Split | utils/api-parser/index.js:40 | `split("/")` yields at least one part and no part holds a slash |
| TagDerivation.SplitNoSlash | utils/api-parser/index.js:40 | a slash-free string splits into itself alone |
| TagDerivation.SplitAtFirstSlash | utils/api-parser/index.js:40 | `split("/")` cuts at the first slash and splits the rest the same way |
| TagDerivation.JoinSplit | utils/api-parser/index.js:40 | joining the parts of a split with "/" gives back the path |
| TagDerivation.SplitJoin | utils/api-parser/index.js:40 | splitting the join of slash-free parts gives back the parts |
| TagDerivation.SplitSecondNone | utils/api-parser/index.js:40 | `split("/")[1]` is undefined exactly when the path has no slash |
| TagDerivation.SplitSecondBetween | utils/api-parser/index.js:40 | `split("/")[1]` is the text between the first slash and the next slash or the end |
| TagDerivation.DeriveTagVersioned | utils/api-parser/index.js:32-38 | with a version match, the tag is the leftmost match's capture, cut at the next slash |
| TagDerivation.DeriveTagFallback | utils/api-parser/index.js:37-41 | without a version match, the tag is `split("/")[1]` |
| TagDerivation.DeriveTagNoMarker | utils/api-parser/index.js:32-41 | a path without the letter `v` cannot match, so its tag is `split("/")[1]` |
| TagDerivation.DeriveTagNoSlash | utils/api-parser/index.js:39-41 | a path without a slash has the undefined tag |
| Scenarios.VersionedPath | utils/api-parser/index.js:32-38 | "/v2/fleet/list" is tagged "fleet" |
| Scenarios.UnversionedPath | utils/api-parser/index.js:39-41 | "/users/{id}" is tagged "users" |
| Scenarios.RootPath | utils/api-parser/index.js:39-41 | "/" is tagged with the empty string |
| Scenarios.PathWithoutSlash | utils/api-parser/index.js:39-41 | "health" has the undefined tag |
| Scenarios.EmptyCaptureFallsBack | utils/api-parser/index.js:32-41 | "/v1//x" does not match, because the capture must be non-empty, so it falls back to "v1" |
| OrderedSet.FirstIndex | utils/api-parser/index.js:42 | the position where a value first appears: it holds the value and no earlier position does |
| OrderedSet.TagSet.constructor | utils/api-parser/index.js:27 | `new Set()` is empty and has no duplicates |
| OrderedSet.TagSet.Add | utils/api-parser/index.js:42 | `add` appends a value exactly when it is not yet present, and the set stays duplicate-free |
| OrderedSet.DedupStep | utils/api-parser/index.js:42 | adding the next tag to the set built from the earlier ones gives the set built from all of them |
| OrderedSet.FirstIndexAt | utils/api-parser/index.js:42 | a value absent from a prefix first appears where it follows that prefix |
| OrderedSet.DedupMembers | utils/api-parser/index.js:42 | a value is in the set built from a sequence exactly when it is in the sequence |
| OrderedSet.DedupNoDuplicates | utils/api-parser/index.js:42 | the set's iteration holds no value twice |
| OrderedSet.FirstIndexPrefix | utils/api-parser/index.js:42 | a value's first position in a prefix is its first position in the whole sequence |
| OrderedSet.DedupOrder | utils/api-parser/index.js:42 | the set iterates its values in the order of their first appearance in the sequence |
| Enricher.RetaggedValues | utils/api-parser/index.js:47 | one retagged value per key `Object.keys` lists |
| Enricher.PathTags | utils/api-parser/index.js:33-41 | one derived tag per path key |
| Enricher.EnrichedItems | utils/api-parser/index.js:33-51 | one rewritten item per path key |
| Enricher.NoNullBeforeAll | utils/api-parser/index.js:33-44 | the loop gets past the first n path items exactly when none of them is null |
| Enricher.NullItemFound | utils/api-parser/index.js:44 | a null path item makes the enrichment fail |
| Enricher.NoNullItem | utils/api-parser/index.js:33-44 | a loop that gets past every path item leaves no null item behind |
| Enricher.RetagMembers | utils/api-parser/index.js:47-51 | the loop over a path item's keys sets `tags = [tag]` on exactly the members that are truthy and carry a truthy `tags`, and leaves the others as they are |
| Enricher.RewritePathItem | utils/api-parser/index.js:44-51 | the item's own `tags` is rewritten first, then its members' |
| Enricher.VisitPath | utils/api-parser/index.js:34-51 | one callback adds its path's tag to the set, then fails exactly on a null item, and otherwise rewrites that item with the tag |
| Enricher.ForEachPath | utils/api-parser/index.js:33-52 | the loop fails exactly when some path item is null; otherwise the set holds the distinct tags in first-appearance order, and each item is rewritten with its own path's tag |
| Enricher.Enrich | utils/api-parser/index.js:27-57 | the try block yields the enriched document, or the TypeError for a null document, absent or null `paths`, or a null path item |
| JsonValue.Nullish | utils/api-parser/index.js:44 | defines the values on which a property read throws a TypeError: `undefined` and null |
| JsonValue.Keys | utils/api-parser/index.js:47 | defines `Object.keys(v)`: the keys of `Entries(v)` in order |
| JsonValue.ReplaceValues | utils/api-parser/index.js:47-49 | defines `v` after a loop over its keys has written a new value under each key, position by position |
| JsonValue.SetEntry | utils/api-parser/index.js:49 | defines the in-place write `v[key] = x` for the key at one position |
| TagDerivation.IsDigit | utils/api-parser/index.js:32 | defines `\d` without the `u` flag: the ASCII digits |
| TagDerivation.PatternAt | utils/api-parser/index.js:32 | defines where `/\/v\d+\/([^/]+)/` matches: `/v` at p, one or more digits, the slash at q, then at least one non-slash character |
| Enricher.TagJson | utils/api-parser/index.js:38-40 | defines a tag as a document value: the string, or `undefined` when the path has none |
| Enricher.TagList | utils/api-parser/index.js:45 | defines the array literal `[tag]` |
| JsonValue.Truthy | utils/api-parser/index.js:44-48 | defines JavaScript truthiness: `undefined`, null, false, 0 and "" are falsy; every array and object is truthy |
| JsonValue.Prop | utils/api-parser/index.js:44-48 | defines the read `v.k`: the value of the first property named `k` of an object, `undefined` otherwise |
| JsonValue.SetProp | utils/api-parser/index.js:45-49 | defines the assignment `v.k = x` on an object: an existing property keeps its position, a new one is appended |
| JsonValue.Entries | utils/api-parser/index.js:47 | defines `Object.keys(v)` paired with `v[key]` for objects, arrays and strings |
| TagDerivation.SplitSecond | utils/api-parser/index.js:40 | defines `path.split("/")[1]`: the second part, or undefined when there is only one |
| TagDerivation.DeriveTag | utils/api-parser/index.js:34-41 | defines a path's tag: the version capture when the pattern matches, `split("/")[1]` otherwise |
| OrderedSet.Dedup | utils/api-parser/index.js:42 | defines the iteration order of a Set built by adding values one by one: each value once, at its first addition |
| Enricher.Retag | utils/api-parser/index.js:44-49 | defines `if (v.tags) v.tags = [tag]`: only a present and truthy `tags` is overwritten |
| Enricher.RetaggedMembers | utils/api-parser/index.js:47-51 | defines a path item after the member loop: every member retagged in key order |
| Enricher.RewriteItem | utils/api-parser/index.js:44-51 | defines one path item's rewrite: its own `tags` first, then its members' |
| Enricher.EnrichedPaths | utils/api-parser/index.js:33-52 | defines `paths` after the loop: every item rewritten with its own key's tag |
| Enricher.Descriptor | utils/api-parser/index.js:55-56 | defines one catalog entry `{name: tag, "x-displayName": startCase(tag)}` |
| Enricher.Catalog | utils/api-parser/index.js:54-57 | defines `Array.from(tagSet, …)`: one descriptor per tag, in the set's order |
| Enricher.HasNullItem | utils/api-parser/index.js:44 | defines when the loop throws: some path item is null or undefined |
| Enricher.Enriched | utils/api-parser/index.js:27-57 | defines the try block's result: the TypeError for a null document, nullish `paths` or a null path item, else the document with `paths` rewritten and `tags` replaced by the catalog |
| EnricherProperties.PropPresent | utils/api-parser/index.js:44 | a read that is neither null nor undefined means the value is an object that has the key |
| EnricherProperties.PropAbsent | utils/api-parser/index.js:44 | an absent key reads as undefined |
| EnricherProperties.RetagSpec | utils/api-parser/index.js:44-50 | `tags` becomes `[tag]` exactly when it was present and truthy; keys and their order stay; every other property is untouched; non-objects are unchanged |
| EnricherProperties.RetagIdempotent | utils/api-parser/index.js:44-46 | a second retag with the same tag changes nothing |
| EnricherProperties.PropRetaggedMembers | utils/api-parser/index.js:47-51 | each member of the item, read after the loop, is the retagged member |
| EnricherProperties.RewriteItemSpec | utils/api-parser/index.js:44-51 | a path item keeps its keys, so no `tags` field appears where there was none; its own `tags` becomes `[tag]` exactly when present and truthy; every other member is retagged with the path's tag |
| EnricherProperties.RewriteItemMember | utils/api-parser/index.js:47-51 | a member with truthy `tags` gets `[tag]`; a member without one is unchanged; a member's keys stay |
| EnricherProperties.RewriteItemIdempotent | utils/api-parser/index.js:44-51 | rewriting a rewritten path item again with the same tag changes nothing |
| EnricherProperties.RewriteItemNotNullish | utils/api-parser/index.js:44 | a rewritten item that was not null stays not null |
| EnricherProperties.EnrichedPathsSpec | utils/api-parser/index.js:29-52 | `paths` keeps its keys in order, and the item under each key is rewritten with that key's tag |
| EnricherProperties.PathTagsByKeys | utils/api-parser/index.js:33-41 | the derived tags depend only on the path keys |
| EnricherProperties.EnrichedPathsIdempotent | utils/api-parser/index.js:32-52 | rewriting the rewritten paths again changes nothing |
| EnricherProperties.EnrichedDocumentSpec | utils/api-parser/index.js:29-57 | the top-level keys stay in order, with `tags` appended only if it was missing; `paths` holds the rewritten paths; `tags` is the new catalog and the old one is discarded; every other top-level field is unchanged |
| EnricherProperties.MissingPathsFails | utils/api-parser/index.js:29 | a document without `paths` throws before anything is written |
| EnricherProperties.CatalogEntries | utils/api-parser/index.js:54-57 | one `{name, x-displayName}` entry per tag in the set, in the set's order; each entry's name is the tag and its display name is `startCase(tag)` |
| EnricherProperties.CatalogDistinct | utils/api-parser/index.js:27-57 | a tag is listed exactly when some path derives it; no two entries have the same name; the entries follow the order in which their tags first appear over the path keys |
| EnricherProperties.DescriptorSpec | utils/api-parser/index.js:54-57 | a catalog entry has the keys `name` and `x-displayName`, in that order, holding the tag and its start case |
| EnricherProperties.EnrichIdempotent | utils/api-parser/index.js:32-57 | enriching an enriched document gives the same document |
| Process.Run | utils/api-parser/index.js:12-72 | a missing source gives exit 0 and no output; a document is written exactly when the source parses, the enrichment succeeds and the write succeeds, and it is the enriched document with exit 0; every other case is exit 1 with no output |
| Process.RunWithoutPaths | utils/api-parser/index.js:29 | a parsed document without `paths` gives exit 1 and no output |

## Left out

- File system and console: the model does not include `fs.existsSync`, `fs.readFile`, `fs.mkdirSync`, `fs.writeFile` or the console messages (lines 12-24 and 59-68). `Process.Run` takes their outcomes as the parameters `source` and `writeSucceeds`.
- Configuration: the environment variables `API_SPEC_SOURCE` and `API_OUTPUT_PATH`, their defaults, and `path.resolve` fix only which files are used (lines 5-10).
- Asynchrony: `readFile` and `writeFile` complete in callbacks. The run is modelled as one sequential step.
- JSON text: the model does not include the text form of the document. `JSON.parse` is replaced by an already-parsed value, and a parse failure by `Source.Malformed` (line 28).
- Serialisation: `JSON.stringify(…, null, 2)` is not part of this model (line 59). The model stops at the in-memory value, including the `undefined` tags the enrichment writes. When serialised, an `undefined` becomes `null` inside an array and is dropped as an object property.
- `lodash.startCase` is not part of this model (line 56). It is a parameter `Option<string> -> string`, and nothing is assumed about it.
- Numbers are reals. A parsed number is never NaN, so zero is the only falsy number. Floating-point rounding is not modelled.
- Duplicate keys: `JSON.parse` never yields an object with two properties of the same name. The model allows it. A read or write by name (`Prop`, `SetProp`) then uses the first such property. Iteration over the properties (`EnrichedItems`, `RetaggedValues`, `RetagMembers`) goes by position, so every duplicate is rewritten, each with the tag of its own key.
- Key order: the sequence of an object's properties is taken to be its `Object.keys` order. JavaScript lists integer-like keys first, and the model does not reorder them.
- Property writes on arrays: `SetProp` ignores a named write to an array, while JavaScript stores such a property. The enrichment never does this: it writes `tags` only after a truthy read of `tags`, which is impossible on an array, and it writes `tags` on the document only once reading `paths` has shown the document is an object.
- Strings: a Dafny `string` is a sequence of Unicode scalar values, while a JavaScript string is a sequence of UTF-16 code units. Lone surrogates (from `\ud800` escapes) cannot be represented, and `Object.keys` over a string counts characters, not code units. No output of the enrichment depends on this.
- Property reads: the model reads only named properties of objects. Reading `tags` or `paths` on an array, string, number or boolean gives `undefined`. This matches JavaScript for these property names.
- `docusaurus.config.js` (site configuration) and `src/components/LottieIcon.js` (a React component) are not part of this model. Neither takes part in the enrichment.
