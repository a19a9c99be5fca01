/**
 * A sort by a numeric key, standing for `Array.prototype.sort` with a
 * comparator `(a, b) => key(a) - key(b)`.
 */
module Sorting {

  ghost predicate SortedBy<T>(s: seq<T>, key: T -> real) {
    forall i, j :: 0 <= i < j < |s| ==> key(s[i]) <= key(s[j])
  }

  /** Inserts `x` after every leading element whose key is at most `key(x)`. */
  function Insert<T>(x: T, s: seq<T>, key: T -> real): (r: seq<T>)
    ensures |r| == |s| + 1
    ensures multiset(r) == multiset(s) + multiset{x}
    ensures forall k :: 0 <= k < |r| ==> r[k] == x || r[k] in s
  {
    if s == [] then [x]
    else if key(s[0]) <= key(x) then
      assert s == [s[0]] + s[1..];
      [s[0]] + Insert(x, s[1..], key)
    else
      [x] + s
  }

  lemma {:induction false} InsertSorted<T>(x: T, s: seq<T>, key: T -> real)
    requires SortedBy(s, key)
    ensures SortedBy(Insert(x, s, key), key)
  {
    if s != [] && key(s[0]) <= key(x) {
      InsertSorted(x, s[1..], key);
      var rest := Insert(x, s[1..], key);
      forall k | 0 <= k < |rest| ensures key(s[0]) <= key(rest[k]) {
        if rest[k] != x {
          var j :| 0 <= j < |s[1..]| && s[1..][j] == rest[k];
          assert s[j + 1] == rest[k];
        }
      }
    }
  }

  /** The elements of `s` in ascending key order. */
  function SortBy<T>(s: seq<T>, key: T -> real): (r: seq<T>)
    ensures SortedBy(r, key)
    ensures multiset(r) == multiset(s)
    ensures |r| == |s|
  {
    if s == [] then []
    else
      assert s == s[..|s| - 1] + [s[|s| - 1]];
      var sorted := SortBy(s[..|s| - 1], key);
      InsertSorted(s[|s| - 1], sorted, key);
      Insert(s[|s| - 1], sorted, key)
  }

  /** In a sorted sequence every element before position `m` has a key no larger than every element from `m` on. */
  lemma PrefixBeforeSuffix<T>(s: seq<T>, key: T -> real, m: nat)
    requires SortedBy(s, key) && m <= |s|
    ensures forall x, y :: x in s[..m] && y in s[m..] ==> key(x) <= key(y)
    ensures multiset(s[..m]) + multiset(s[m..]) == multiset(s)
  {
    assert s == s[..m] + s[m..];
    forall x, y | x in s[..m] && y in s[m..] ensures key(x) <= key(y) {
      var i :| 0 <= i < m && s[i] == x;
      var j :| 0 <= j < |s| - m && s[m..][j] == y;
      assert s[m + j] == y;
    }
  }
}
