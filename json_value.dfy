/**
 * The in-memory document the enricher works on: a JavaScript value as
 * `JSON.parse` produces it, plus `undefined`, which the enricher itself
 * writes when a path yields no tag.  An object is the sequence of its own
 * properties in `Object.keys` order.  A property read or write by name uses
 * the first property with that key; iteration over the properties is by
 * position.
 */
module JsonValue {
  import opened Basics

  datatype Json =
    | JUndefined
    | JNull
    | JBool(b: bool)
    | JNum(n: real)
    | JStr(s: string)
    | JArr(items: seq<Json>)
    | JObj(fields: seq<(string, Json)>)

  /** JavaScript truthiness.  A parsed number is never NaN, so only zero is falsy. */
  predicate Truthy(v: Json) {
    match v
    case JUndefined => false
    case JNull => false
    case JBool(b) => b
    case JNum(n) => n != 0.0
    case JStr(s) => s != ""
    case JArr(_) => true
    case JObj(_) => true
  }

  /** The values on which reading a property throws a TypeError. */
  predicate Nullish(v: Json) {
    v.JUndefined? || v.JNull?
  }

  /** Index of the first property named `k`, if any. */
  function FindKey(fs: seq<(string, Json)>, k: string): (r: Option<nat>)
    ensures r.Some? ==> r.value < |fs| && fs[r.value].0 == k
    ensures r.Some? ==> forall j :: 0 <= j < r.value ==> fs[j].0 != k
    ensures r.None? <==> forall j :: 0 <= j < |fs| ==> fs[j].0 != k
  {
    if fs == [] then None
    else if fs[0].0 == k then Some(0)
    else
      match FindKey(fs[1..], k)
      case None =>
        assert forall j :: 1 <= j < |fs| ==> fs[j] == fs[1..][j - 1];
        None
      case Some(j) =>
        assert forall i :: 1 <= i < |fs| ==> fs[i] == fs[1..][i - 1];
        Some(j + 1)
  }

  /**
   * Reading the property `v.k` for a non-null `v`.  Arrays, strings, numbers
   * and booleans carry no named property other than `length` and their index
   * positions, and the enricher reads only `paths` and `tags`, so for them the
   * read yields `undefined`.
   */
  function Prop(v: Json, k: string): Json {
    match v
    case JObj(fs) =>
      (match FindKey(fs, k)
       case Some(j) => fs[j].1
       case None => JUndefined)
    case _ => JUndefined
  }

  /**
   * The assignment `v.k = x`: an existing property keeps its position, a new
   * one is appended.  Only objects are written to: assigning a property of a
   * primitive is silently ignored outside strict mode, and a named property
   * of an array, which JavaScript would store, is not modelled (the enricher
   * never writes one).
   */
  function SetProp(v: Json, k: string, x: Json): Json {
    match v
    case JObj(fs) =>
      (match FindKey(fs, k)
       case Some(j) => JObj(fs[j := (k, x)])
       case None => JObj(fs + [(k, x)]))
    case _ => v
  }

  /** The decimal form of an array or string index, as `Object.keys` lists it. */
  function IndexKey(n: nat): (r: string)
    ensures r != []
    ensures forall c :: c in r ==> '0' <= c <= '9'
  {
    var d := ('0' as int + n % 10) as char;
    if n < 10 then [d] else IndexKey(n / 10) + [d]
  }

  /**
   * `Object.keys(v)` paired with `v[key]`: an object's own properties, an
   * array's elements, a string's one-character strings; numbers and
   * booleans have none.  (On null and undefined `Object.keys` throws; the
   * enricher checks for those before it asks.)
   */
  function Entries(v: Json): seq<(string, Json)> {
    match v
    case JObj(fs) => fs
    case JArr(xs) => seq(|xs|, i requires 0 <= i < |xs| => (IndexKey(i), xs[i]))
    case JStr(s) => seq(|s|, i requires 0 <= i < |s| => (IndexKey(i), JStr([s[i]])))
    case _ => []
  }

  function Keys(v: Json): seq<string> {
    var es := Entries(v);
    seq(|es|, i requires 0 <= i < |es| => es[i].0)
  }

  function Values(v: Json): seq<Json> {
    var es := Entries(v);
    seq(|es|, i requires 0 <= i < |es| => es[i].1)
  }

  /**
   * `v` with the value under each of its keys replaced by `vals`, position by
   * position.  A string's characters cannot be assigned, so a string stays
   * as it is.
   */
  function ReplaceValues(v: Json, vals: seq<Json>): Json
    requires |vals| == |Entries(v)|
  {
    match v
    case JObj(fs) => JObj(seq(|fs|, i requires 0 <= i < |fs| => (fs[i].0, vals[i])))
    case JArr(xs) => JArr(vals)
    case _ => v
  }

  /** The in-place write `v[key] = x` for the key at position `i`. */
  function SetEntry(v: Json, i: nat, x: Json): Json
    requires i < |Entries(v)|
  {
    match v
    case JObj(fs) => JObj(fs[i := (fs[i].0, x)])
    case JArr(xs) => JArr(xs[i := x])
    case _ => v
  }

  // ---------------------------------------------------------------------
  // Properties of reads and writes

  lemma {:induction false} FindKeySameKeys(fs: seq<(string, Json)>, gs: seq<(string, Json)>, k: string)
    requires |fs| == |gs|
    requires forall i :: 0 <= i < |fs| ==> fs[i].0 == gs[i].0
    ensures FindKey(fs, k) == FindKey(gs, k)
  {
    if fs != [] && fs[0].0 != k {
      FindKeySameKeys(fs[1..], gs[1..], k);
    }
  }

  lemma FindKeyAppend(fs: seq<(string, Json)>, k: string, x: Json, k': string)
    requires FindKey(fs, k).None?
    ensures FindKey(fs + [(k, x)], k') ==
              if FindKey(fs, k').Some? then FindKey(fs, k')
              else if k' == k then Some(|fs|) else None
  {
    var gs := fs + [(k, x)];
    assert forall i :: 0 <= i < |fs| ==> gs[i] == fs[i];
    var r := FindKey(gs, k');
    if FindKey(fs, k').Some? {
      var j := FindKey(fs, k').value;
      assert gs[j].0 == k';
    } else if k' == k {
      assert gs[|fs|].0 == k';
    } else {
      assert forall i :: 0 <= i < |gs| ==> gs[i].0 != k';
    }
  }

  /** Overwriting the first property named `k`. */
  lemma PropOverwrite(fs: seq<(string, Json)>, j: nat, k: string, x: Json, k': string)
    requires FindKey(fs, k) == Some(j)
    ensures Prop(JObj(fs[j := (k, x)]), k') == if k' == k then x else Prop(JObj(fs), k')
  {
    var gs := fs[j := (k, x)];
    FindKeySameKeys(fs, gs, k');
    if k' != k && FindKey(fs, k').Some? {
      var j' := FindKey(fs, k').value;
      assert gs[j'] == fs[j'];
    }
  }

  /** Appending a property named `k` that was not there. */
  lemma PropAppend(fs: seq<(string, Json)>, k: string, x: Json, k': string)
    requires FindKey(fs, k).None?
    ensures Prop(JObj(fs + [(k, x)]), k') == if k' == k then x else Prop(JObj(fs), k')
  {
    FindKeyAppend(fs, k, x, k');
    if FindKey(fs, k').Some? {
      var j := FindKey(fs, k').value;
      assert (fs + [(k, x)])[j] == fs[j];
    }
  }

  /** A write to one property is seen by a read of that property and by no other. */
  lemma PropSetProp(v: Json, k: string, x: Json, k': string)
    ensures Prop(SetProp(v, k, x), k') == if v.JObj? && k' == k then x else Prop(v, k')
  {
    if v.JObj? {
      match FindKey(v.fields, k)
      case Some(j) => PropOverwrite(v.fields, j, k, x, k');
      case None => PropAppend(v.fields, k, x, k');
    }
  }

  /** Writing back the value a property already holds changes nothing. */
  lemma SetPropSame(v: Json, k: string)
    requires v.JObj? && k in Keys(v)
    ensures SetProp(v, k, Prop(v, k)) == v
  {
    var fs := v.fields;
    var i :| 0 <= i < |fs| && Keys(v)[i] == k;
    assert fs[i].0 == k;
    var j := FindKey(fs, k).value;
    assert fs[j := (k, fs[j].1)] == fs;
  }

  /** A write adds its key at the end only when the object did not have it. */
  lemma SetPropKeys(v: Json, k: string, x: Json)
    ensures Keys(SetProp(v, k, x)) ==
              if v.JObj? && k !in Keys(v) then Keys(v) + [k] else Keys(v)
  {
    if v.JObj? {
      var fs := v.fields;
      match FindKey(fs, k)
      case Some(j) =>
        assert Keys(v)[j] == k;
        assert Keys(SetProp(v, k, x)) == Keys(v);
      case None =>
        assert k !in Keys(v);
        assert Keys(SetProp(v, k, x)) == Keys(v) + [k];
    }
  }

  /** A write leaves every property under another key as it was. */
  lemma SetPropOthers(v: Json, k: string, x: Json)
    requires v.JObj?
    ensures SetProp(v, k, x).JObj?
    ensures |SetProp(v, k, x).fields| >= |v.fields|
    ensures forall i :: 0 <= i < |v.fields| && v.fields[i].0 != k ==>
              SetProp(v, k, x).fields[i] == v.fields[i]
  {
  }

  lemma ReplaceValuesKeys(v: Json, vals: seq<Json>)
    requires |vals| == |Entries(v)|
    ensures Keys(ReplaceValues(v, vals)) == Keys(v)
  {
  }

  /** Away from strings, the new entries carry the old keys and the new values. */
  lemma ReplaceValuesEntries(v: Json, vals: seq<Json>)
    requires |vals| == |Entries(v)|
    requires !v.JStr?
    ensures |Entries(ReplaceValues(v, vals))| == |vals|
    ensures forall i :: 0 <= i < |vals| ==>
              Entries(ReplaceValues(v, vals))[i] == (Entries(v)[i].0, vals[i])
  {
  }

  lemma ReplaceValuesSelf(v: Json)
    ensures ReplaceValues(v, Values(v)) == v
  {
    match v
    case JObj(fs) =>
      assert ReplaceValues(v, Values(v)).fields == fs;
    case JArr(xs) =>
      assert Values(v) == xs;
    case _ =>
  }

  /** Writing one entry is replacing the values with that one value changed. */
  lemma SetEntryReplace(v: Json, vals: seq<Json>, i: nat, x: Json)
    requires |vals| == |Entries(v)| && i < |vals|
    ensures SetEntry(ReplaceValues(v, vals), i, x) == ReplaceValues(v, vals[i := x])
  {
    match v
    case JObj(fs) =>
      assert SetEntry(ReplaceValues(v, vals), i, x).fields == ReplaceValues(v, vals[i := x]).fields;
    case _ =>
  }

  /** One more position of `a` spliced in front of `b`. */
  lemma SpliceStep<T>(a: seq<T>, b: seq<T>, i: nat)
    requires |a| == |b| && i < |a|
    ensures a[..i + 1] + b[i + 1..] == (a[..i] + b[i..])[i := a[i]]
  {
    var l, r := a[..i + 1] + b[i + 1..], (a[..i] + b[i..])[i := a[i]];
    assert |l| == |r|;
    forall k | 0 <= k < |l| ensures l[k] == r[k] {
      if k < i {
        assert l[k] == a[k] == r[k];
      }
    }
  }

  /** The values of `v` with the first `k` taken from `target`: a loop over the keys, `k` keys in. */
  function Spliced(v: Json, target: seq<Json>, k: nat): Json
    requires |target| == |Entries(v)| && k <= |target|
  {
    ReplaceValues(v, target[..k] + Values(v)[k..])
  }

  /** Before the loop nothing is replaced, and after it every value is. */
  lemma SplicedEnds(v: Json, target: seq<Json>)
    requires |target| == |Entries(v)|
    ensures Spliced(v, target, 0) == v
    ensures Spliced(v, target, |target|) == ReplaceValues(v, target)
  {
    assert target[..0] + Values(v)[0..] == Values(v);
    assert target[..|target|] + Values(v)[|target|..] == target;
    ReplaceValuesSelf(v);
  }

  /** One step of the loop writes the value at position `k`, or leaves `v` when it is unchanged there. */
  lemma SplicedStep(v: Json, target: seq<Json>, k: nat)
    requires |target| == |Entries(v)| && k < |target|
    ensures Spliced(v, target, k + 1) == SetEntry(Spliced(v, target, k), k, target[k])
    ensures target[k] == Values(v)[k] ==> Spliced(v, target, k + 1) == Spliced(v, target, k)
  {
    var before := target[..k] + Values(v)[k..];
    SpliceStep(target, Values(v), k);
    SetEntryReplace(v, before, k, target[k]);
    if target[k] == Values(v)[k] {
      assert before[k := target[k]] == before;
    }
  }

  /** Reading a property after replacing the values reads the replacement. */
  lemma PropReplaceValues(v: Json, vals: seq<Json>, k: string)
    requires |vals| == |Entries(v)|
    ensures Prop(ReplaceValues(v, vals), k) ==
              match FindKey(Entries(v), k)
              case Some(j) => if v.JObj? then vals[j] else JUndefined
              case None => JUndefined
  {
    if v.JObj? {
      FindKeySameKeys(v.fields, ReplaceValues(v, vals).fields, k);
    }
  }
}
