/**
 * Order-preserving selection from a list: the relation every filtering step
 * of the engine (deleting from a JavaScript Map, `Array.prototype.filter`)
 * keeps between its output and its input.
 */
module Sequences {

  /** `r` is `s` with some elements left out and the others in their order. */
  ghost predicate Subsequence<T>(r: seq<T>, s: seq<T>)
    decreases |s|
  {
    || r == s
    || (s != [] && Subsequence(r, s[1..]))
    || (s != [] && r != [] && r[0] == s[0] && Subsequence(r[1..], s[1..]))
  }

  lemma {:induction false} SubsequenceTransitive<T>(a: seq<T>, b: seq<T>, c: seq<T>)
    requires Subsequence(a, b) && Subsequence(b, c)
    ensures Subsequence(a, c)
    decreases |c|
  {
    if a == b || b == c {
    } else if c != [] && Subsequence(b, c[1..]) {
      SubsequenceTransitive(a, b, c[1..]);
    } else {
      assert b != [] && b[0] == c[0] && Subsequence(b[1..], c[1..]);
      if Subsequence(a, b[1..]) {
        SubsequenceTransitive(a, b[1..], c[1..]);
      } else {
        assert a != [] && a[0] == b[0] && Subsequence(a[1..], b[1..]);
        SubsequenceTransitive(a[1..], b[1..], c[1..]);
      }
    }
  }

  /** A subsequence holds only elements of the list it was taken from. */
  lemma {:induction false} SubsequenceMembers<T>(r: seq<T>, s: seq<T>)
    requires Subsequence(r, s)
    ensures |r| <= |s|
    ensures forall x | x in r :: x in s
    decreases |s|
  {
    if r == s {
    } else if s != [] && Subsequence(r, s[1..]) {
      SubsequenceMembers(r, s[1..]);
    } else {
      SubsequenceMembers(r[1..], s[1..]);
      assert forall x | x in r :: x == r[0] || x in r[1..];
    }
  }

  /** Two elements of a subsequence keep their relative order in the list it was taken from. */
  lemma {:induction false} SubsequenceKeepsOrder<T>(r: seq<T>, s: seq<T>, i: int, j: int)
    requires Subsequence(r, s) && 0 <= i < j < |r|
    ensures exists i', j' :: 0 <= i' < j' < |s| && s[i'] == r[i] && s[j'] == r[j]
    decreases |s|
  {
    if r == s {
      assert s[i] == r[i] && s[j] == r[j];
    } else if s != [] && Subsequence(r, s[1..]) {
      SubsequenceKeepsOrder(r, s[1..], i, j);
      var i', j' :| 0 <= i' < j' < |s[1..]| && s[1..][i'] == r[i] && s[1..][j'] == r[j];
      assert s[i' + 1] == r[i] && s[j' + 1] == r[j];
    } else {
      assert r[0] == s[0] && Subsequence(r[1..], s[1..]);
      SubsequenceMembers(r[1..], s[1..]);
      if i == 0 {
        assert r[j] == r[1..][j - 1] && r[j] in s[1..];
        var j' :| 0 <= j' < |s[1..]| && s[1..][j'] == r[j];
        assert s[0] == r[0] && s[j' + 1] == r[j];
      } else {
        SubsequenceKeepsOrder(r[1..], s[1..], i - 1, j - 1);
        var i', j' :| 0 <= i' < j' < |s[1..]| && s[1..][i'] == r[1..][i - 1] && s[1..][j'] == r[1..][j - 1];
        assert s[i' + 1] == r[i] && s[j' + 1] == r[j];
      }
    }
  }
}
