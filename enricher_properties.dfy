/**
 * What the enrichment promises: it rewrites `tags` fields but never adds one,
 * it changes nothing else, the catalog holds each derived tag once in
 * first-appearance order, and running it again changes nothing.  Line
 * numbers refer to `utils/api-parser/index.js`.
 */
module EnricherProperties {
  import opened Basics
  import opened JsonValue
  import opened TagDerivation
  import opened OrderedSet
  import opened Enricher

  // ---------------------------------------------------------------------
  // Reading and writing `tags`

  /** A property that is not nullish belongs to an object that has that key. */
  lemma PropPresent(v: Json, k: string)
    requires !Nullish(Prop(v, k))
    ensures v.JObj? && k in Keys(v)
  {
    var j := FindKey(v.fields, k).value;
    assert Keys(v)[j] == k;
  }

  /** An absent key reads as `undefined`. */
  lemma PropAbsent(v: Json, k: string)
    requires k !in Keys(v)
    ensures Prop(v, k) == JUndefined
  {
    if v.JObj? {
      assert forall j :: 0 <= j < |v.fields| ==> v.fields[j].0 == Keys(v)[j];
    }
  }

  /**
   * Retagging one value: `tags` becomes `[tag]` exactly when it was present
   * and truthy, the keys and their order stay, and every other property is
   * untouched.
   */
  lemma RetagSpec(v: Json, tag: Option<string>)
    ensures Keys(Retag(v, tag)) == Keys(v)
    ensures Prop(Retag(v, tag), "tags") ==
              if Truthy(Prop(v, "tags")) then TagList(tag) else Prop(v, "tags")
    ensures forall i :: 0 <= i < |Entries(v)| && Entries(v)[i].0 != "tags" ==>
              Entries(Retag(v, tag))[i] == Entries(v)[i]
    ensures !v.JObj? ==> Retag(v, tag) == v
  {
    if Truthy(Prop(v, "tags")) {
      PropPresent(v, "tags");
      SetPropKeys(v, "tags", TagList(tag));
      PropSetProp(v, "tags", TagList(tag), "tags");
      SetPropOthers(v, "tags", TagList(tag));
    }
  }

  lemma RetagIdempotent(v: Json, tag: Option<string>)
    ensures Retag(Retag(v, tag), tag) == Retag(v, tag)
  {
    RetagSpec(v, tag);
    var w := Retag(v, tag);
    if Truthy(Prop(v, "tags")) {
      PropPresent(v, "tags");
      assert "tags" in Keys(w);
      SetPropSame(w, "tags");
    }
  }

  /** A property of the retagged members is the retagged property. */
  lemma PropRetaggedMembers(v: Json, tag: Option<string>, k: string)
    ensures Prop(RetaggedMembers(v, tag), k) == Retag(Prop(v, k), tag)
  {
    PropReplaceValues(v, RetaggedValues(v, tag), k);
  }

  /**
   * One path item after lines 44-51.  Its keys and their order stay, so no
   * `tags` field appears where there was none; its own `tags` becomes
   * `[tag]` exactly when present and truthy; every other member is retagged
   * with the same tag, and members without a truthy `tags` stay as they were.
   */
  lemma RewriteItemSpec(item: Json, tag: Option<string>)
    ensures Keys(RewriteItem(item, tag)) == Keys(item)
    ensures "tags" in Keys(RewriteItem(item, tag)) <==> "tags" in Keys(item)
    ensures Prop(RewriteItem(item, tag), "tags") ==
              if Truthy(Prop(item, "tags")) then TagList(tag) else Prop(item, "tags")
    ensures |Entries(RewriteItem(item, tag))| == |Entries(item)|
    ensures forall i :: 0 <= i < |Entries(item)| && Entries(item)[i].0 != "tags" ==>
              Entries(RewriteItem(item, tag))[i].1 == Retag(Entries(item)[i].1, tag)
  {
    var w := Retag(item, tag);
    RetagSpec(item, tag);
    ReplaceValuesKeys(w, RetaggedValues(w, tag));
    PropRetaggedMembers(w, tag, "tags");
    var own := Prop(w, "tags");
    assert !own.JObj?;
    if !item.JStr? {
      assert !w.JStr?;
      ReplaceValuesEntries(w, RetaggedValues(w, tag));
    }
  }

  /** A member's `tags`, after the path's rewrite: `[tag]` if it was truthy, itself otherwise. */
  lemma RewriteItemMember(item: Json, tag: Option<string>, i: nat)
    requires i < |Entries(item)| && Entries(item)[i].0 != "tags"
    ensures var m, m' := Entries(item)[i].1, Entries(RewriteItem(item, tag))[i].1;
      && (Truthy(Prop(m, "tags")) ==> Prop(m', "tags") == TagList(tag))
      && (!Truthy(Prop(m, "tags")) ==> m' == m)
      && Keys(m') == Keys(m)
  {
    RewriteItemSpec(item, tag);
    RetagSpec(Entries(item)[i].1, tag);
  }

  lemma RewriteItemIdempotent(item: Json, tag: Option<string>)
    ensures RewriteItem(RewriteItem(item, tag), tag) == RewriteItem(item, tag)
  {
    var w := Retag(item, tag);
    var y := RetaggedMembers(w, tag);
    RetagSpec(item, tag);
    PropRetaggedMembers(w, tag, "tags");
    var own := Prop(w, "tags");
    assert !own.JObj?;
    assert Prop(y, "tags") == own;
    // The item's own `tags` is already `[tag]` or falsy, so retagging it again changes nothing.
    assert Retag(y, tag) == y by {
      if Truthy(own) {
        PropPresent(y, "tags");
        SetPropSame(y, "tags");
      }
    }
    // Every member is already retagged.
    var vals := RetaggedValues(w, tag);
    if w.JStr? {
      assert y == w;
    } else {
      ReplaceValuesEntries(w, vals);
      forall k | 0 <= k < |vals| ensures RetaggedValues(y, tag)[k] == Values(y)[k] {
        RetagIdempotent(Entries(w)[k].1, tag);
      }
      assert RetaggedValues(y, tag) == Values(y);
    }
    ReplaceValuesSelf(y);
  }

  lemma RewriteItemNotNullish(item: Json, tag: Option<string>)
    requires !Nullish(item)
    ensures !Nullish(RewriteItem(item, tag))
  {
  }

  // ---------------------------------------------------------------------
  // The `paths` object

  /**
   * The paths keep their keys in their order, and the item under each is
   * rewritten with the tag of its own key.
   */
  lemma EnrichedPathsSpec(paths: Json)
    ensures Keys(EnrichedPaths(paths)) == Keys(paths)
    ensures |Entries(EnrichedPaths(paths))| == |Entries(paths)|
    ensures forall i :: 0 <= i < |Entries(paths)| ==>
              Entries(EnrichedPaths(paths))[i].1 ==
                RewriteItem(Entries(paths)[i].1, DeriveTag(Entries(paths)[i].0))
  {
    ReplaceValuesKeys(paths, EnrichedItems(paths));
    if !paths.JStr? {
      ReplaceValuesEntries(paths, EnrichedItems(paths));
    } else {
      forall i | 0 <= i < |Entries(paths)|
        ensures Entries(paths)[i].1 == RewriteItem(Entries(paths)[i].1, DeriveTag(Entries(paths)[i].0))
      {
        RetagSpec(Entries(paths)[i].1, DeriveTag(Entries(paths)[i].0));
      }
    }
  }

  /** The tag of each path depends on nothing but the path keys. */
  lemma PathTagsByKeys(a: Json, b: Json)
    requires Keys(a) == Keys(b)
    ensures PathTags(a) == PathTags(b)
  {
    assert |Entries(a)| == |Keys(a)| && |Entries(b)| == |Keys(b)|;
    forall k | 0 <= k < |Entries(a)| ensures PathTags(a)[k] == PathTags(b)[k] {
      assert Entries(a)[k].0 == Keys(a)[k] == Keys(b)[k] == Entries(b)[k].0;
    }
  }

  lemma EnrichedPathsIdempotent(paths: Json)
    ensures EnrichedPaths(EnrichedPaths(paths)) == EnrichedPaths(paths)
  {
    var p1 := EnrichedPaths(paths);
    EnrichedPathsSpec(paths);
    EnrichedPathsSpec(p1);
    assert EnrichedItems(p1) == Values(p1) by {
      forall i | 0 <= i < |Entries(p1)| ensures EnrichedItems(p1)[i] == Values(p1)[i] {
        assert Entries(p1)[i].0 == Keys(p1)[i] == Keys(paths)[i] == Entries(paths)[i].0;
        RewriteItemIdempotent(Entries(paths)[i].1, DeriveTag(Entries(paths)[i].0));
      }
    }
    ReplaceValuesSelf(p1);
  }

  // ---------------------------------------------------------------------
  // The whole document

  /**
   * The enriched document keeps every top-level key in its order and adds
   * `tags` at the end if it was missing; `paths` holds the rewritten paths,
   * `tags` the catalog (the old array is discarded), and every other
   * top-level field is exactly as it was.
   */
  lemma EnrichedDocumentSpec(doc: Json, startCase: Option<string> -> string)
    requires Enriched(doc, startCase).Ok?
    ensures doc.JObj? && Enriched(doc, startCase).value.JObj?
    ensures var out := Enriched(doc, startCase).value;
      && Keys(out) == Keys(doc) + (if "tags" in Keys(doc) then [] else ["tags"])
      && Prop(out, "paths") == EnrichedPaths(Prop(doc, "paths"))
      && Prop(out, "tags") == Catalog(Dedup(PathTags(Prop(doc, "paths"))), startCase)
      && forall i :: 0 <= i < |doc.fields| && doc.fields[i].0 != "paths" && doc.fields[i].0 != "tags" ==>
           out.fields[i] == doc.fields[i]
  {
    var paths := Prop(doc, "paths");
    PropPresent(doc, "paths");
    var p1 := EnrichedPaths(paths);
    var cat := Catalog(Dedup(PathTags(paths)), startCase);
    var d1 := SetProp(doc, "paths", p1);
    SetPropKeys(doc, "paths", p1);
    SetPropKeys(d1, "tags", cat);
    SetPropOthers(doc, "paths", p1);
    SetPropOthers(d1, "tags", cat);
    PropSetProp(doc, "paths", p1, "paths");
    PropSetProp(d1, "tags", cat, "paths");
    PropSetProp(d1, "tags", cat, "tags");
  }

  /** A document without `paths` fails before anything is written. */
  lemma MissingPathsFails(doc: Json, startCase: Option<string> -> string)
    requires !Nullish(doc) && "paths" !in Keys(doc)
    ensures Enriched(doc, startCase) == Err(NullPaths)
  {
    PropAbsent(doc, "paths");
  }

  /** The catalog has one entry per tag: its name is the tag and its display name the start-cased tag. */
  lemma CatalogEntries(tags: seq<Option<string>>, startCase: Option<string> -> string)
    ensures var entries := Catalog(tags, startCase).items;
      && |entries| == |tags|
      && forall i :: 0 <= i < |entries| ==>
           && Keys(entries[i]) == ["name", "x-displayName"]
           && Prop(entries[i], "name") == TagJson(tags[i])
           && Prop(entries[i], "x-displayName") == JStr(startCase(tags[i]))
  {
    var entries := Catalog(tags, startCase).items;
    forall i | 0 <= i < |entries|
      ensures Keys(entries[i]) == ["name", "x-displayName"]
      ensures Prop(entries[i], "name") == TagJson(tags[i])
      ensures Prop(entries[i], "x-displayName") == JStr(startCase(tags[i]))
    {
      assert entries[i] == Descriptor(tags[i], startCase);
      DescriptorSpec(tags[i], startCase);
    }
  }

  /**
   * The top-level `tags` array lists a tag exactly when some path derives it,
   * no two of its entries have the same name, and the entries follow the
   * order in which their tags first appear over the path keys.
   */
  lemma CatalogDistinct(paths: Json, startCase: Option<string> -> string)
    ensures var names := Dedup(PathTags(paths));
      var entries := Catalog(names, startCase).items;
      && (forall t :: t in names <==> t in PathTags(paths))
      && (forall i, j :: 0 <= i < j < |entries| ==> Prop(entries[i], "name") != Prop(entries[j], "name"))
      && (forall i, j :: 0 <= i < j < |names| ==>
            FirstIndex(PathTags(paths), names[i]) < FirstIndex(PathTags(paths), names[j]))
  {
    var tags := PathTags(paths);
    var names := Dedup(tags);
    DedupMembers(tags);
    DedupNoDuplicates(tags);
    DedupOrder(tags);
    CatalogEntries(names, startCase);
    var entries := Catalog(names, startCase).items;
    forall i, j | 0 <= i < j < |entries| ensures Prop(entries[i], "name") != Prop(entries[j], "name") {
      assert names[i] != names[j];
    }
  }

  /** One catalog entry: the tag under `name`, its start case under `x-displayName`. */
  lemma DescriptorSpec(tag: Option<string>, startCase: Option<string> -> string)
    ensures var d := Descriptor(tag, startCase);
      && Keys(d) == ["name", "x-displayName"]
      && Prop(d, "name") == TagJson(tag)
      && Prop(d, "x-displayName") == JStr(startCase(tag))
  {
    var d := Descriptor(tag, startCase);
    assert FindKey(d.fields, "name") == Some(0);
    assert d.fields[0].0 != "x-displayName";
    assert FindKey(d.fields[1..], "x-displayName") == Some(0);
  }

  /** Enriching an enriched document gives it back unchanged. */
  lemma EnrichIdempotent(doc: Json, startCase: Option<string> -> string)
    requires Enriched(doc, startCase).Ok?
    ensures Enriched(Enriched(doc, startCase).value, startCase) == Enriched(doc, startCase)
  {
    var paths := Prop(doc, "paths");
    var p1 := EnrichedPaths(paths);
    var cat := Catalog(Dedup(PathTags(paths)), startCase);
    var out := Enriched(doc, startCase).value;
    EnrichedDocumentSpec(doc, startCase);
    PropPresent(doc, "paths");
    EnrichedPathsSpec(paths);
    // The rewritten paths keep their keys and hold no null item.
    assert !Nullish(p1);
    assert !HasNullItem(p1) by {
      forall k | 0 <= k < |Entries(p1)| ensures !Nullish(Entries(p1)[k].1) {
        assert !Nullish(Entries(paths)[k].1);
        RewriteItemNotNullish(Entries(paths)[k].1, DeriveTag(Entries(paths)[k].0));
      }
    }
    PathTagsByKeys(p1, paths);
    EnrichedPathsIdempotent(paths);
    // Writing back what `paths` and `tags` already hold changes nothing.
    assert "paths" in Keys(out);
    SetPropSame(out, "paths");
    assert "tags" in Keys(out);
    SetPropSame(out, "tags");
  }
}
