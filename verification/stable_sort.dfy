/**
 * A stable sort by an integer key, the model of JavaScript's
 * `Array.prototype.sort` with a numeric comparator (stable since ES2019).
 * It is an insertion sort: `SortBy(s)` inserts `s[0]` in front of every
 * element of the sorted rest whose key is not smaller, so among equal keys
 * the input order survives.
 */
module StableSort {
  import opened Sequences

  ghost predicate Ascending<T>(s: seq<T>, key: T -> int) {
    forall i, j | 0 <= i < j < |s| :: key(s[i]) <= key(s[j])
  }

  /** The elements of `s` whose key is `v`, in the order of `s`. */
  function WithKey<T>(s: seq<T>, key: T -> int, v: int): (r: seq<T>)
    ensures |r| <= |s|
    ensures forall y | y in r :: y in s && key(y) == v
  {
    if s == [] then []
    else (if key(s[0]) == v then [s[0]] else []) + WithKey(s[1..], key, v)
  }

  /** The elements carrying one key are picked out of `s` in their order. */
  lemma {:induction false} WithKeyIsSubsequence<T>(s: seq<T>, key: T -> int, v: int)
    ensures Subsequence(WithKey(s, key, v), s)
  {
    if s != [] {
      var rest := WithKey(s[1..], key, v);
      WithKeyIsSubsequence(s[1..], key, v);
      if key(s[0]) == v {
        assert ([s[0]] + rest)[1..] == rest;
      } else {
        assert WithKey(s, key, v) == rest;
      }
    }
  }

  /** Inserts `x` before the first element whose key is at least `key(x)`. */
  function Insert<T>(x: T, s: seq<T>, key: T -> int): (r: seq<T>)
    ensures multiset(r) == multiset(s) + multiset{x}
  {
    if s == [] || key(x) <= key(s[0]) then
      [x] + s
    else
      assert s == [s[0]] + s[1..];
      [s[0]] + Insert(x, s[1..], key)
  }

  /** Sorts `s` by ascending key, keeping equal keys in input order. */
  function SortBy<T>(s: seq<T>, key: T -> int): (r: seq<T>)
    ensures multiset(r) == multiset(s)
  {
    if s == [] then []
    else
      assert s == [s[0]] + s[1..];
      Insert(s[0], SortBy(s[1..], key), key)
  }

  lemma SortKeepsLength<T>(s: seq<T>, key: T -> int)
    ensures |SortBy(s, key)| == |s|
    ensures forall x :: x in SortBy(s, key) <==> x in s
  {
    var r := SortBy(s, key);
    assert |multiset(r)| == |multiset(s)|;
    forall x
      ensures x in r <==> x in s
    {
      assert x in r <==> x in multiset(r);
      assert x in s <==> x in multiset(s);
    }
  }

  lemma {:induction false} InsertKeepsAscending<T>(x: T, s: seq<T>, key: T -> int)
    requires Ascending(s, key)
    ensures Ascending(Insert(x, s, key), key)
  {
    if s == [] || key(x) <= key(s[0]) {
    } else {
      var rest := Insert(x, s[1..], key);
      InsertKeepsAscending(x, s[1..], key);
      assert s == [s[0]] + s[1..];
      forall j | 0 <= j < |rest|
        ensures key(s[0]) <= key(rest[j])
      {
        assert rest[j] in multiset(rest);
        assert rest[j] == x || rest[j] in multiset(s[1..]);
        if rest[j] != x {
          assert rest[j] in s[1..];
          var k :| 0 <= k < |s[1..]| && s[1..][k] == rest[j];
          assert s[k + 1] == rest[j];
        }
      }
    }
  }

  /** The result of SortBy is in ascending key order. */
  lemma {:induction false} SortIsAscending<T>(s: seq<T>, key: T -> int)
    ensures Ascending(SortBy(s, key), key)
  {
    if s != [] {
      SortIsAscending(s[1..], key);
      InsertKeepsAscending(s[0], SortBy(s[1..], key), key);
    }
  }

  /** Inserting `x` into `s` places it ahead of every element of `s` that has its key. */
  lemma {:induction false} InsertWithKey<T>(x: T, s: seq<T>, key: T -> int, v: int)
    ensures WithKey(Insert(x, s, key), key, v) == (if key(x) == v then [x] else []) + WithKey(s, key, v)
  {
    var hx := if key(x) == v then [x] else [];
    if s == [] || key(x) <= key(s[0]) {
      assert ([x] + s)[0] == x && ([x] + s)[1..] == s;
      assert WithKey([x] + s, key, v) == hx + WithKey(s, key, v);
    } else {
      var rest := Insert(x, s[1..], key);
      var hs := if key(s[0]) == v then [s[0]] else [];
      InsertWithKey(x, s[1..], key, v);
      assert ([s[0]] + rest)[0] == s[0] && ([s[0]] + rest)[1..] == rest;
      assert WithKey([s[0]] + rest, key, v) == hs + (hx + WithKey(s[1..], key, v));
      assert hx == [] || hs == [];
      assert hs + (hx + WithKey(s[1..], key, v)) == hx + (hs + WithKey(s[1..], key, v));
    }
  }

  /**
   * Stability: for every key value, the elements carrying it appear in the
   * output in exactly the order they had in the input.
   */
  lemma {:induction false} SortIsStable<T>(s: seq<T>, key: T -> int, v: int)
    ensures WithKey(SortBy(s, key), key, v) == WithKey(s, key, v)
  {
    if s != [] {
      SortIsStable(s[1..], key, v);
      InsertWithKey(s[0], SortBy(s[1..], key), key, v);
    }
  }
}
