/**
 * The tag enrichment of an OpenAPI document: every path gets one derived tag,
 * existing `tags` fields on the path item and on its members are replaced by
 * the one-element list of that tag, and the top-level `tags` array is
 * rebuilt from the distinct tags in first-appearance order.
 *
 * The functions state what the enrichment computes.  The methods follow the
 * source's loops and callbacks: ForEachPath with VisitPath is `paths.forEach`,
 * RetagMembers the loop over a path item's members, RewritePathItem one path
 * item, and Enrich the whole try block.  Each is proved to compute exactly
 * the function that states it.  Line numbers refer to
 * `utils/api-parser/index.js`.
 */
module Enricher {
  import opened Basics
  import opened JsonValue
  import opened TagDerivation
  import opened OrderedSet

  /** The TypeErrors the enrichment can throw; the caller's catch turns each into exit code 1. */
  datatype EnrichError =
    | NullDocument   // `jsonData.paths` on a document that is `null`
    | NullPaths      // `Object.keys(jsonData.paths)` with `paths` absent or null
    | NullPathItem   // `jsonData.paths[path].tags` on a path item that is null

  /** A tag as a value in the document: `undefined` when the path has none. */
  function TagJson(tag: Option<string>): Json {
    match tag
    case Some(s) => JStr(s)
    case None => JUndefined
  }

  /** The array literal `[tag]`. */
  function TagList(tag: Option<string>): Json {
    JArr([TagJson(tag)])
  }

  /**
   * `if (v.tags) v.tags = [tag]`, and equally `if (v && v.tags) ...`: only a
   * value whose `tags` property is present and truthy is written to.
   */
  function Retag(v: Json, tag: Option<string>): Json {
    if Truthy(Prop(v, "tags")) then SetProp(v, "tags", TagList(tag)) else v
  }

  /** The member values of `v` after `Object.keys(v).forEach(...)` has retagged each. */
  function RetaggedValues(v: Json, tag: Option<string>): (vals: seq<Json>)
    ensures |vals| == |Entries(v)|
  {
    var es := Entries(v);
    seq(|es|, k requires 0 <= k < |es| => Retag(es[k].1, tag))
  }

  function RetaggedMembers(v: Json, tag: Option<string>): Json {
    ReplaceValues(v, RetaggedValues(v, tag))
  }

  /** One path item after lines 44-51: its own `tags` first, then its members'. */
  function RewriteItem(item: Json, tag: Option<string>): Json {
    RetaggedMembers(Retag(item, tag), tag)
  }

  /** The tag of each path key, in `Object.keys(jsonData.paths)` order. */
  function PathTags(paths: Json): (tags: seq<Option<string>>)
    ensures |tags| == |Entries(paths)|
  {
    var es := Entries(paths);
    seq(|es|, k requires 0 <= k < |es| => DeriveTag(es[k].0))
  }

  /** Each path item rewritten with its own path's tag. */
  function EnrichedItems(paths: Json): (items: seq<Json>)
    ensures |items| == |Entries(paths)|
  {
    var es := Entries(paths);
    seq(|es|, k requires 0 <= k < |es| => RewriteItem(es[k].1, DeriveTag(es[k].0)))
  }

  function EnrichedPaths(paths: Json): Json {
    ReplaceValues(paths, EnrichedItems(paths))
  }

  /** `{name: tag, "x-displayName": startCase(tag)}`; `startCase` stands for lodash's. */
  function Descriptor(tag: Option<string>, startCase: Option<string> -> string): Json {
    JObj([("name", TagJson(tag)), ("x-displayName", JStr(startCase(tag)))])
  }

  /** `Array.from(tagSet, item => descriptor)`. */
  function Catalog(tags: seq<Option<string>>, startCase: Option<string> -> string): Json {
    JArr(seq(|tags|, i requires 0 <= i < |tags| => Descriptor(tags[i], startCase)))
  }

  predicate HasNullItem(paths: Json) {
    var es := Entries(paths);
    exists k | 0 <= k < |es| :: Nullish(es[k].1)
  }

  /** None of the first `n` path items is null: the loop got past each of them. */
  predicate NoNullBefore(es: seq<(string, Json)>, n: nat)
    requires n <= |es|
  {
    n == 0 || (NoNullBefore(es, n - 1) && !Nullish(es[n - 1].1))
  }

  lemma {:induction false} NoNullBeforeAll(es: seq<(string, Json)>, n: nat)
    requires n <= |es|
    ensures NoNullBefore(es, n) <==> forall k :: 0 <= k < n ==> !Nullish(es[k].1)
  {
    if n > 0 {
      NoNullBeforeAll(es, n - 1);
    }
  }

  /** The loop fails at a null item, or gets past every item exactly when there is none. */
  lemma NullItemFound(paths: Json, i: nat)
    requires i < |Entries(paths)| && Nullish(Entries(paths)[i].1)
    ensures HasNullItem(paths)
  {
  }

  lemma NoNullItem(paths: Json)
    requires NoNullBefore(Entries(paths), |Entries(paths)|)
    ensures !HasNullItem(paths)
  {
    NoNullBeforeAll(Entries(paths), |Entries(paths)|);
  }

  /** The document the enrichment leaves behind, or the TypeError it throws. */
  function Enriched(doc: Json, startCase: Option<string> -> string): Result<Json, EnrichError> {
    if Nullish(doc) then Err(NullDocument)
    else
      var paths := Prop(doc, "paths");
      if Nullish(paths) then Err(NullPaths)
      else if HasNullItem(paths) then Err(NullPathItem)
      else
        var withPaths := SetProp(doc, "paths", EnrichedPaths(paths));
        Ok(SetProp(withPaths, "tags", Catalog(Dedup(PathTags(paths)), startCase)))
  }

  /** `Object.keys(item).forEach(key => { if (item[key] && item[key].tags) item[key].tags = [tag] })` */
  method RetagMembers(item: Json, tag: Option<string>) returns (r: Json)
    ensures r == RetaggedMembers(item, tag)
  {
    var entries := Entries(item);
    ghost var target := RetaggedValues(item, tag);
    SplicedEnds(item, target);
    r := item;
    var k := 0;
    while k < |entries|
      invariant k <= |entries|
      invariant r == Spliced(item, target, k)
    {
      var member := entries[k].1;
      SplicedStep(item, target, k);
      if Truthy(member) && Truthy(Prop(member, "tags")) {
        r := SetEntry(r, k, SetProp(member, "tags", TagList(tag)));
      } else {
        assert target[k] == Values(item)[k];
      }
      k := k + 1;
    }
  }

  /** Lines 44-51 for the item of one path: its own `tags`, then its members'. */
  method RewritePathItem(item: Json, tag: Option<string>) returns (r: Json)
    ensures r == RewriteItem(item, tag)
  {
    r := item;
    if Truthy(Prop(r, "tags")) {
      r := SetProp(r, "tags", TagList(tag));
    }
    r := RetagMembers(r, tag);
  }

  /**
   * The callback of `paths.forEach`, lines 34-51, for the `i`-th path key:
   * its tag goes into the set, and its item is rewritten in place.  `failed`
   * is the TypeError of reading `tags` on a null item.
   */
  method VisitPath(tagSet: TagSet<Option<string>>, paths: Json, i: nat, rewritten: Json)
    returns (failed: bool, next: Json)
    requires i < |Entries(paths)|
    requires tagSet.Valid() && tagSet.elements == Dedup(PathTags(paths)[..i])
    requires rewritten == Spliced(paths, EnrichedItems(paths), i)
    modifies tagSet
    ensures tagSet.Valid() && tagSet.elements == Dedup(PathTags(paths)[..i + 1])
    ensures failed == Nullish(Entries(paths)[i].1)
    ensures failed ==> next == rewritten
    ensures !failed ==> next == Spliced(paths, EnrichedItems(paths), i + 1)
  {
    var path := Entries(paths)[i].0;
    var item := Entries(paths)[i].1;
    var tag := DeriveTag(path);
    assert PathTags(paths)[i] == tag;
    DedupStep(PathTags(paths), i);
    tagSet.Add(tag);
    if Nullish(item) {
      return true, rewritten;
    }
    var newItem := RewritePathItem(item, tag);
    assert EnrichedItems(paths)[i] == newItem;
    SplicedStep(paths, EnrichedItems(paths), i);
    failed, next := false, SetEntry(rewritten, i, newItem);
  }

  /** `paths.forEach(...)`, lines 33-52, stopping at the first TypeError. */
  method ForEachPath(paths: Json) returns (failed: bool, tags: seq<Option<string>>, rewritten: Json)
    ensures failed == HasNullItem(paths)
    ensures !failed ==> tags == Dedup(PathTags(paths)) && rewritten == EnrichedPaths(paths)
  {
    var tagSet := new TagSet<Option<string>>();
    var entries := Entries(paths);
    SplicedEnds(paths, EnrichedItems(paths));
    rewritten := paths;
    for i := 0 to |entries|
      invariant tagSet.Valid() && tagSet.elements == Dedup(PathTags(paths)[..i])
      invariant NoNullBefore(entries, i)
      invariant rewritten == Spliced(paths, EnrichedItems(paths), i)
    {
      var stop;
      stop, rewritten := VisitPath(tagSet, paths, i, rewritten);
      if stop {
        NullItemFound(paths, i);
        return true, tagSet.elements, rewritten;
      }
    }
    assert PathTags(paths)[..|entries|] == PathTags(paths);
    NoNullItem(paths);
    failed, tags := false, tagSet.elements;
  }

  /** The body of the `try` block, lines 27-57, up to the serialisation. */
  method Enrich(doc: Json, startCase: Option<string> -> string) returns (r: Result<Json, EnrichError>)
    ensures r == Enriched(doc, startCase)
  {
    if Nullish(doc) {
      return Err(NullDocument);
    }
    var paths := Prop(doc, "paths");
    if Nullish(paths) {
      return Err(NullPaths);
    }
    var failed, tags, rewritten := ForEachPath(paths);
    if failed {
      return Err(NullPathItem);
    }
    var withPaths := SetProp(doc, "paths", rewritten);
    r := Ok(SetProp(withPaths, "tags", Catalog(tags, startCase)));
  }
}
