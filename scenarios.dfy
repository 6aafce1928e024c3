/**
 * Concrete paths worked through the tag derivation.  Each lemma takes the
 * path as a parameter fixed by its `requires` rather than as a literal in
 * its `ensures`: with a literal argument the verifier unfolds the recursive
 * scanner and Split over the whole string on its own, which costs far more
 * than the few steps each proof gives here.
 */
module Scenarios {
  import opened Basics
  import opened TagDerivation

  /** The tag after the version marker, cut at the next slash. */
  lemma VersionedPath(s: string)
    requires s == "/v2/fleet/list"
    ensures DeriveTag(s) == Some("fleet")
  {
    assert s[..5] == "/v2/f" && s[9] == '/';
    assert s[4..9] == "fleet";
    assert forall k :: 4 <= k < 9 ==> s[k] in s[4..9];
    DeriveTagVersioned(s, 0, 3, 9);
  }

  /** Without a version marker the first component is the tag. */
  lemma UnversionedPath(s: string)
    requires s == "/users/{id}"
    ensures DeriveTag(s) == Some("users")
  {
    DeriveTagNoMarker(s);
    assert s[0] == '/' && s[6] == '/';
    assert forall k :: 1 <= k < 6 ==> s[k] != '/';
    SplitSecondBetween(s, 0, 6);
    assert s[1..6] == "users";
  }

  /** "/": the text between the first slash and the end is empty. */
  lemma RootPath(s: string)
    requires s == "/"
    ensures DeriveTag(s) == Some("")
  {
    DeriveTagNoMarker(s);
    SplitSecondBetween(s, 0, 1);
  }

  /** A path without a slash has no tag: `split("/")[1]` is undefined. */
  lemma PathWithoutSlash(s: string)
    requires s == "health"
    ensures DeriveTag(s) == None
  {
    assert forall k :: 0 <= k < |s| ==> s[k] != '/';
    DeriveTagNoSlash(s);
  }

  /** The capture must not be empty, so "/v1//x" does not match and falls back to "v1". */
  lemma EmptyCaptureFallsBack(s: string)
    requires s == "/v1//x"
    ensures DeriveTag(s) == Some("v1")
  {
    assert forall k :: 0 <= k < |s| && k != 1 ==> s[k] != 'v';
    assert s[3] == '/' && s[4] == '/';
    DeriveTagFallback(s);
    SplitSecondBetween(s, 0, 3);
    assert s[1..3] == "v1";
  }
}
