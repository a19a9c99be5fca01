/** Facts about sequences used by several agents. */
module Sequences {

  /** No element occurs twice. */
  predicate Distinct<T(==)>(s: seq<T>) {
    forall i, j :: 0 <= i < j < |s| ==> s[i] != s[j]
  }

  /** Appending an element not yet present keeps a sequence free of repetitions. */
  lemma DistinctAppend<T>(s: seq<T>, x: T)
    requires Distinct(s) && x !in s
    ensures Distinct(s + [x])
  {
    forall i, j | 0 <= i < j < |s| + 1 ensures (s + [x])[i] != (s + [x])[j] {
      if j == |s| {
        assert (s + [x])[i] == s[i];
      }
    }
  }

  /** A prefix takes its elements, with their multiplicities, from the whole sequence. */
  lemma PrefixDrawsFrom<T>(s: seq<T>, m: nat)
    requires m <= |s|
    ensures multiset(s[..m]) <= multiset(s)
    ensures forall i :: 0 <= i < m ==> s[..m][i] in s
  {
    assert s == s[..m] + s[m..];
    assert multiset(s) == multiset(s[..m]) + multiset(s[m..]);
  }

  /** Dropping the head keeps a sequence free of repetitions, and the head does not recur. */
  lemma DistinctTail<T>(s: seq<T>)
    requires Distinct(s) && s != []
    ensures Distinct(s[1..]) && s[0] !in s[1..]
  {
    forall i, j | 0 <= i < j < |s[1..]| ensures s[1..][i] != s[1..][j] {
      assert s[1..][i] == s[i + 1] && s[1..][j] == s[j + 1];
    }
    forall k | 0 <= k < |s[1..]| ensures s[1..][k] != s[0] {
      assert s[1..][k] == s[k + 1];
    }
  }

  /** `s` is `t` with some elements left out, order kept: what `t.filter(...)` yields for some test. */
  predicate IsSubsequence<T(==)>(s: seq<T>, t: seq<T>)
    decreases |t|
  {
    if t == [] then s == []
    else (s != [] && s[0] == t[0] && IsSubsequence(s[1..], t[1..])) || IsSubsequence(s, t[1..])
  }

  /** `s.filter(keep)`: the elements passing `keep`, in order. */
  function Filter<T(==,!new)>(s: seq<T>, keep: T -> bool): (r: seq<T>)
    ensures |r| <= |s|
    ensures IsSubsequence(r, s)
    ensures forall x :: x in r <==> x in s && keep(x)
    decreases |s|
  {
    if s == [] then []
    else
      assert forall x :: x in s <==> x == s[0] || x in s[1..];
      if keep(s[0]) then [s[0]] + Filter(s[1..], keep) else Filter(s[1..], keep)
  }

  /** A relation holding between every earlier and later element survives filtering. */
  lemma {:induction false} FilterKeepsPairs<T(!new)>(s: seq<T>, keep: T -> bool, rel: (T, T) -> bool)
    requires forall i, j :: 0 <= i < j < |s| ==> rel(s[i], s[j])
    ensures forall i, j :: 0 <= i < j < |Filter(s, keep)| ==> rel(Filter(s, keep)[i], Filter(s, keep)[j])
    decreases |s|
  {
    if s != [] {
      FilterKeepsPairs(s[1..], keep, rel);
      var t := Filter(s[1..], keep);
      assert forall i, j :: 0 <= i < j < |t| ==> rel(t[i], t[j]);
      if !keep(s[0]) {
        assert Filter(s, keep) == t;
      } else {
        var r := [s[0]] + t;
        assert Filter(s, keep) == r;
        forall i, j | 0 <= i < j < |r| ensures rel(r[i], r[j]) {
          if i > 0 {
            assert r[i] == t[i - 1] && r[j] == t[j - 1];
          } else {
            assert r[j] == t[j - 1] && t[j - 1] in t;
            var k :| 0 <= k < |s[1..]| && s[1..][k] == r[j];
            assert rel(s[0], s[k + 1]);
          }
        }
      }
    }
  }
}
