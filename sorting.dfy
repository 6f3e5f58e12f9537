/**
 * Python's `sorted(xs, key=..., reverse=True)`: a descending sort with respect to a
 * "at least as large" relation on the elements, here as an insertion sort.
 */
module Sorting {

  /** `ge` is total and transitive, as the comparison of sort keys is. */
  ghost predicate IsTotalPreorder<T(!new)>(ge: (T, T) -> bool) {
    && (forall a, b :: ge(a, b) || ge(b, a))
    && (forall a, b, c :: ge(a, b) && ge(b, c) ==> ge(a, c))
  }

  /** Every element is at least as large as every later one. */
  ghost predicate Descending<T>(s: seq<T>, ge: (T, T) -> bool) {
    forall i, j :: 0 <= i < j < |s| ==> ge(s[i], s[j])
  }

  function Insert<T(!new)>(x: T, s: seq<T>, ge: (T, T) -> bool): (r: seq<T>)
    requires IsTotalPreorder(ge) && Descending(s, ge)
    ensures multiset(r) == multiset(s) + multiset{x}
    ensures Descending(r, ge)
  {
    if s == [] then [x]
    else if ge(x, s[0]) then [x] + s
    else
      var rest := Insert(x, s[1..], ge);
      assert s == [s[0]] + s[1..];
      assert forall k :: 0 <= k < |rest| ==> ge(s[0], rest[k]) by {
        forall k | 0 <= k < |rest| ensures ge(s[0], rest[k]) {
          assert rest[k] in multiset(rest);
          if rest[k] != x {
            assert rest[k] in multiset(s[1..]);
            var j :| 0 <= j < |s[1..]| && s[1..][j] == rest[k];
            assert s[1 + j] == rest[k];
          }
        }
      }
      [s[0]] + rest
  }

  /** The elements of `s`, rearranged so that they descend. */
  function SortDescending<T(!new)>(s: seq<T>, ge: (T, T) -> bool): (r: seq<T>)
    requires IsTotalPreorder(ge)
    ensures multiset(r) == multiset(s)
    ensures Descending(r, ge)
  {
    if s == [] then []
    else
      assert s == [s[0]] + s[1..];
      Insert(s[0], SortDescending(s[1..], ge), ge)
  }

  /** No two elements share a key. */
  ghost predicate DistinctBy<T, K>(s: seq<T>, key: T -> K) {
    forall i, j :: 0 <= i < j < |s| ==> key(s[i]) != key(s[j])
  }

  lemma {:induction false} DistinctOccursOnce<T, K>(s: seq<T>, key: T -> K, x: T)
    requires DistinctBy(s, key)
    ensures multiset(s)[x] <= 1
  {
    if s != [] {
      var init := s[..|s| - 1];
      assert s == init + [s[|s| - 1]];
      DistinctOccursOnce(init, key, x);
      if x == s[|s| - 1] {
        forall i | 0 <= i < |init| ensures init[i] != x {
          assert key(s[i]) != key(s[|s| - 1]);
        }
      }
    }
  }

  /** Rearranging a sequence keeps its keys distinct. */
  lemma PermutationKeepsDistinct<T, K>(a: seq<T>, b: seq<T>, key: T -> K)
    requires multiset(a) == multiset(b) && DistinctBy(a, key)
    ensures DistinctBy(b, key)
  {
    forall i, j | 0 <= i < j < |b| ensures key(b[i]) != key(b[j]) {
      if b[i] == b[j] {
        assert b == b[..i] + [b[i]] + b[i + 1..j] + [b[j]] + b[j + 1..];
        assert multiset(b)[b[i]] >= 2;
        DistinctOccursOnce(a, key, b[i]);
        assert false;
      }
      assert b[i] in multiset(a) && b[j] in multiset(a);
      var p :| 0 <= p < |a| && a[p] == b[i];
      var q :| 0 <= q < |a| && a[q] == b[j];
      assert p != q;
    }
  }
}
