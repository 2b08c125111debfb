/**
 * Sequence operations the table queries are built from: filtering, pairwise
 * properties (distinct keys, ordering) and "newest first, at most n".
 */
module Seqs {

  /** The elements of `s` satisfying `p`, in their original order. */
  function Filter<T>(p: T -> bool, s: seq<T>): (r: seq<T>)
    ensures |r| <= |s|
    ensures forall x | x in r :: x in s && p(x)
    ensures forall x | x in s && p(x) :: x in r
  {
    if s == [] then []
    else
      assert forall x | x in s[1..] :: x in s;
      assert s == [s[0]] + s[1..];
      (if p(s[0]) then [s[0]] else []) + Filter(p, s[1..])
  }

  /** Filtering distributes over concatenation: what is kept keeps its order. */
  lemma {:induction false} FilterAppend<T>(p: T -> bool, a: seq<T>, b: seq<T>)
    ensures Filter(p, a + b) == Filter(p, a) + Filter(p, b)
    decreases |a|
  {
    if a == [] {
      assert a + b == b;
    } else {
      var ab := a + b;
      assert ab[0] == a[0] && ab[1..] == a[1..] + b;
      FilterAppend(p, a[1..], b);
    }
  }

  /** What filtering one element keeps. */
  lemma FilterSingle<T>(p: T -> bool, x: T)
    ensures Filter(p, [x]) == if p(x) then [x] else []
  {
    assert [x][1..] == [];
  }

  /** The positions of `s` whose element satisfies `p`. */
  function Positions<T>(p: T -> bool, s: seq<T>): set<int> {
    set i | 0 <= i < |s| && p(s[i])
  }

  /** One more element adds its own position to the positions satisfying `p`, if it does. */
  lemma PositionsSnoc<T>(p: T -> bool, t: seq<T>, x: T)
    ensures |Positions(p, t + [x])| == |Positions(p, t)| + (if p(x) then 1 else 0)
  {
    var s := t + [x];
    assert Positions(p, s) == Positions(p, t) + (if p(x) then {|t|} else {}) by {
      assert forall i | 0 <= i < |t| :: s[i] == t[i];
    }
    assert |t| !in Positions(p, t);
  }

  /** The number of elements kept is the number of positions whose element satisfies `p`. */
  lemma {:induction false} FilterCount<T>(p: T -> bool, s: seq<T>)
    ensures |Filter(p, s)| == |Positions(p, s)|
    decreases |s|
  {
    if s != [] {
      var t := s[..|s| - 1];
      var x := s[|s| - 1];
      assert s == t + [x];
      FilterAppend(p, t, [x]);
      FilterSingle(p, x);
      FilterCount(p, t);
      PositionsSnoc(p, t, x);
    }
  }

  /** `q` holds of every pair of elements taken in sequence order. */
  predicate Pairwise<T>(q: (T, T) -> bool, s: seq<T>) {
    forall i, j | 0 <= i < j < |s| :: q(s[i], s[j])
  }

  /** Filtering keeps the relative order of what it keeps, so pairwise facts survive it. */
  lemma {:induction false} FilterKeepsPairwise<T>(p: T -> bool, q: (T, T) -> bool, s: seq<T>)
    requires Pairwise(q, s)
    ensures Pairwise(q, Filter(p, s))
    decreases |s|
  {
    if s != [] {
      var tail := s[1..];
      assert Pairwise(q, tail) by {
        forall i, j | 0 <= i < j < |tail|
          ensures q(tail[i], tail[j])
        {
          assert tail[i] == s[i + 1] && tail[j] == s[j + 1];
        }
      }
      FilterKeepsPairwise(p, q, tail);
      var rest := Filter(p, tail);
      if p(s[0]) {
        var r := [s[0]] + rest;
        forall i, j | 0 <= i < j < |r|
          ensures q(r[i], r[j])
        {
          if i == 0 {
            assert r[j] in tail;
            var k :| 0 <= k < |tail| && tail[k] == r[j];
            assert s[k + 1] == r[j];
          } else {
            assert r[i] == rest[i - 1] && r[j] == rest[j - 1];
          }
        }
      }
    }
  }

  /** Appending an element related to every earlier one keeps a pairwise property. */
  lemma PairwiseAppend<T>(q: (T, T) -> bool, s: seq<T>, x: T)
    requires forall y | y in s :: q(y, x)
    ensures Pairwise(q, s) ==> Pairwise(q, s + [x])
  {
    var r := s + [x];
    if !Pairwise(q, s) {
      return;
    }
    forall i, j | 0 <= i < j < |r|
      ensures q(r[i], r[j])
    {
      assert r[i] == s[i];
      if j == |s| {
        assert r[i] in s;
      } else {
        assert r[j] == s[j];
      }
    }
  }

  function Reverse<T>(s: seq<T>): (r: seq<T>)
    ensures |r| == |s|
    ensures forall i | 0 <= i < |s| :: r[i] == s[|s| - 1 - i]
  {
    if s == [] then [] else Reverse(s[1..]) + [s[0]]
  }

  /** The first `n` elements, or all of them when there are fewer (`LIMIT n`). */
  function Take<T>(s: seq<T>, n: nat): (r: seq<T>)
    ensures |r| <= n && r <= s
    ensures |s| <= n ==> r == s
    ensures n <= |s| ==> |r| == n
  {
    if |s| <= n then s else s[..n]
  }
}
