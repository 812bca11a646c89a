/**
  Descending order by an integer key, as a `find().sort({field: -1})` query
  returns documents. The store does not promise any order among equal keys,
  so the specification is "sorted and a permutation", nothing more.
 */
module Sorting {

  predicate SortedDesc<T>(s: seq<T>, key: T -> int) {
    forall i, j :: 0 <= i < j < |s| ==> key(s[i]) >= key(s[j])
  }

  /** Insert `x` into a descending sequence, keeping it descending. */
  function InsertDesc<T(==)>(s: seq<T>, x: T, key: T -> int): (r: seq<T>)
    requires SortedDesc(s, key)
    ensures SortedDesc(r, key)
    ensures multiset(r) == multiset(s) + multiset{x}
    ensures |r| == |s| + 1
  {
    if s == [] || key(x) >= key(s[0]) then [x] + s
    else
      var rest := InsertDesc(s[1..], x, key);
      assert s == [s[0]] + s[1..];
      HeadBoundsRest(s, x, rest, key);
      ConsSorted(s[0], rest, key);
      assert multiset([s[0]] + rest) == multiset{s[0]} + multiset(rest);
      [s[0]] + rest
  }

  /** Putting a key no smaller than all of a descending sequence in front keeps it descending. */
  lemma ConsSorted<T>(h: T, rest: seq<T>, key: T -> int)
    requires SortedDesc(rest, key)
    requires forall k :: 0 <= k < |rest| ==> key(rest[k]) <= key(h)
    ensures SortedDesc([h] + rest, key)
  {
    var r := [h] + rest;
    forall i, j | 0 <= i < j < |r| ensures key(r[i]) >= key(r[j]) {
      assert r[j] == rest[j - 1];
      if i > 0 {
        assert r[i] == rest[i - 1];
      }
    }
  }

  /** Every element of `rest`, drawn from the tail of `s` or being `x`, is at most the head of `s`. */
  lemma HeadBoundsRest<T>(s: seq<T>, x: T, rest: seq<T>, key: T -> int)
    requires SortedDesc(s, key) && s != [] && key(x) < key(s[0])
    requires multiset(rest) == multiset(s[1..]) + multiset{x}
    ensures forall k :: 0 <= k < |rest| ==> key(rest[k]) <= key(s[0])
  {
    forall k | 0 <= k < |rest| ensures key(rest[k]) <= key(s[0]) {
      assert rest[k] in multiset(rest);
      if rest[k] != x {
        assert rest[k] in multiset(s[1..]);
        var j :| 0 <= j < |s[1..]| && s[1..][j] == rest[k];
        assert s[j + 1] == rest[k];
      }
    }
  }

  /** Sort by `key`, largest first (an insertion sort). */
  method SortDesc<T(==)>(s: seq<T>, key: T -> int) returns (r: seq<T>)
    ensures SortedDesc(r, key)
    ensures multiset(r) == multiset(s)
    ensures |r| == |s|
  {
    r := [];
    for i := 0 to |s|
      invariant SortedDesc(r, key)
      invariant multiset(r) == multiset(s[..i])
      invariant |r| == i
    {
      assert s[..i + 1] == s[..i] + [s[i]];
      r := InsertDesc(r, s[i], key);
    }
    assert s[..|s|] == s;
  }
}
