/**
 * A JavaScript `Set`: adding keeps the first occurrence of each value, and
 * iteration yields the values in the order they were first added.
 */
module OrderedSet {

  predicate NoDuplicates<T(==)>(xs: seq<T>) {
    forall i, j :: 0 <= i < j < |xs| ==> xs[i] != xs[j]
  }

  /** The values of `xs` as a Set built by adding them one by one holds them. */
  function Dedup<T(==)>(xs: seq<T>): seq<T> {
    if xs == [] then []
    else
      var d := Dedup(xs[..|xs| - 1]);
      var x := xs[|xs| - 1];
      if x in d then d else d + [x]
  }

  /** Where `x` first appears in `xs`. */
  function FirstIndex<T(==)>(xs: seq<T>, x: T): (r: nat)
    requires x in xs
    ensures r < |xs| && xs[r] == x
    ensures forall j :: 0 <= j < r ==> xs[j] != x
  {
    if xs[0] == x then 0 else 1 + FirstIndex(xs[1..], x)
  }

  class TagSet<T(==)> {
    var elements: seq<T>

    ghost predicate Valid()
      reads this
    {
      NoDuplicates(elements)
    }

    /** `new Set()` */
    constructor ()
      ensures Valid() && elements == []
    {
      elements := [];
    }

    /** `set.add(x)`: appends `x` unless it is already there. */
    method Add(x: T)
      requires Valid()
      modifies this
      ensures Valid()
      ensures elements == if x in old(elements) then old(elements) else old(elements) + [x]
    {
      if x !in elements {
        elements := elements + [x];
      }
    }
  }

  /** Adding the next value of `xs` to the set built from the ones before it. */
  lemma DedupStep<T>(xs: seq<T>, i: nat)
    requires i < |xs|
    ensures Dedup(xs[..i + 1]) ==
              if xs[i] in Dedup(xs[..i]) then Dedup(xs[..i]) else Dedup(xs[..i]) + [xs[i]]
  {
    assert xs[..i + 1][..i] == xs[..i];
  }

  // ---------------------------------------------------------------------
  // Dedup holds every value of its input once, in first-appearance order

  lemma {:induction false} DedupMembers<T>(xs: seq<T>)
    ensures forall x :: x in Dedup(xs) <==> x in xs
    decreases |xs|
  {
    if xs != [] {
      var init := xs[..|xs| - 1];
      DedupMembers(init);
      assert xs == init + [xs[|xs| - 1]];
    }
  }

  lemma {:induction false} DedupNoDuplicates<T>(xs: seq<T>)
    ensures NoDuplicates(Dedup(xs))
    decreases |xs|
  {
    if xs != [] {
      DedupNoDuplicates(xs[..|xs| - 1]);
    }
  }

  lemma {:induction false} FirstIndexPrefix<T>(xs: seq<T>, n: nat, x: T)
    requires n <= |xs| && x in xs[..n]
    ensures x in xs && FirstIndex(xs, x) == FirstIndex(xs[..n], x)
    decreases n
  {
    assert xs[..n] == [xs[0]] + xs[..n][1..];
    if xs[0] != x {
      assert xs[..n][1..] == xs[1..][..n - 1];
      FirstIndexPrefix(xs[1..], n - 1, x);
    }
  }

  /** A value that does not occur before position `n` first appears at `n`. */
  lemma FirstIndexAt<T>(xs: seq<T>, n: nat)
    requires n < |xs| && xs[n] !in xs[..n]
    ensures FirstIndex(xs, xs[n]) == n
  {
    assert forall j :: 0 <= j < n ==> xs[..n][j] == xs[j];
  }

  lemma {:induction false} DedupOrder<T>(xs: seq<T>)
    ensures forall x :: x in Dedup(xs) ==> x in xs
    ensures forall i, j :: 0 <= i < j < |Dedup(xs)| ==>
              FirstIndex(xs, Dedup(xs)[i]) < FirstIndex(xs, Dedup(xs)[j])
    decreases |xs|
  {
    DedupMembers(xs);
    if xs != [] {
      var n := |xs| - 1;
      var init := xs[..n];
      var x := xs[n];
      var d := Dedup(init);
      var dd := Dedup(xs);
      DedupOrder(init);
      DedupMembers(init);
      if x in d {
        assert dd == d;
        forall i, j | 0 <= i < j < |dd|
          ensures FirstIndex(xs, dd[i]) < FirstIndex(xs, dd[j])
        {
          FirstIndexPrefix(xs, n, d[i]);
          FirstIndexPrefix(xs, n, d[j]);
        }
      } else {
        assert dd == d + [x];
        FirstIndexAt(xs, n);
        forall i, j | 0 <= i < j < |dd|
          ensures FirstIndex(xs, dd[i]) < FirstIndex(xs, dd[j])
        {
          FirstIndexPrefix(xs, n, d[i]);
          if j < |d| {
            FirstIndexPrefix(xs, n, d[j]);
          } else {
            assert dd[j] == x;
          }
        }
      }
    }
  }
}
