/** `Array.prototype.filter` and `find` over sequences, and what "order-preserving
    subsequence" means. */
module Lists {
  import opened Wrappers

  /** `xs` is obtained from `ys` by deleting elements, keeping the order of the rest. */
  predicate IsSubsequence<T(==)>(xs: seq<T>, ys: seq<T>)
    decreases |ys|
  {
    || xs == []
    || (ys != [] && ((xs[0] == ys[0] && IsSubsequence(xs[1..], ys[1..])) || IsSubsequence(xs, ys[1..])))
  }

  /** `s.filter(p)`. */
  function Filter<T(==)>(s: seq<T>, p: T -> bool): (r: seq<T>)
    ensures |r| <= |s|
    ensures forall i :: 0 <= i < |r| ==> r[i] in s && p(r[i])
    ensures forall i :: 0 <= i < |s| && p(s[i]) ==> s[i] in r
    ensures IsSubsequence(r, s)
    ensures (forall i :: 0 <= i < |s| ==> p(s[i])) ==> r == s
  {
    if s == [] then []
    else if p(s[0]) then [s[0]] + Filter(s[1..], p)
    else Filter(s[1..], p)
  }

  /** `s.find(p)`: the first element satisfying `p`, if any. */
  function Find<T>(s: seq<T>, p: T -> bool): (r: Option<T>)
    ensures r.None? <==> forall i :: 0 <= i < |s| ==> !p(s[i])
    ensures r.Some? ==> exists i :: 0 <= i < |s| && s[i] == r.value && p(s[i]) &&
                                   forall j :: 0 <= j < i ==> !p(s[j])
  {
    if s == [] then None
    else if p(s[0]) then Some(s[0])
    else
      var r := Find(s[1..], p);
      FirstMatchShift(s, p, r);
      r
  }

  /** What `find` returns is an element of `s` satisfying `p`. */
  lemma FindIn<T>(s: seq<T>, p: T -> bool)
    ensures Find(s, p).Some? ==> Find(s, p).value in s && p(Find(s, p).value)
  {
  }

  /** `s.find(p) || d`: an element of `s` satisfying `p` when there is one, else `d`. */
  lemma FindOrDefault<T>(s: seq<T>, p: T -> bool, d: T)
    ensures var c := Find(s, p).GetOr(d);
      && (c == d || c in s)
      && ((exists i :: 0 <= i < |s| && p(s[i])) ==> p(c))
      && ((forall i :: 0 <= i < |s| ==> !p(s[i])) ==> c == d)
  {
  }

  /** A first match in the tail of `s` is a first match in `s` when `s[0]` does not match. */
  lemma FirstMatchShift<T>(s: seq<T>, p: T -> bool, r: Option<T>)
    requires s != [] && !p(s[0])
    requires r.Some? ==> exists i :: 0 <= i < |s[1..]| && s[1..][i] == r.value && p(s[1..][i]) &&
                                     forall j :: 0 <= j < i ==> !p(s[1..][j])
    ensures r.Some? ==> exists i :: 0 <= i < |s| && s[i] == r.value && p(s[i]) &&
                                    forall j :: 0 <= j < i ==> !p(s[j])
  {
    if r.Some? {
      var i :| 0 <= i < |s[1..]| && s[1..][i] == r.value && p(s[1..][i]) &&
               forall j :: 0 <= j < i ==> !p(s[1..][j]);
      forall j | 0 <= j < i + 1 ensures !p(s[j]) {
        if j > 0 { assert s[j] == s[1..][j - 1]; }
      }
      assert s[i + 1] == r.value;
    }
  }

  /** `find` with two predicates that agree on every element gives the same answer. */
  lemma {:induction false} FindAgrees<T>(s: seq<T>, p: T -> bool, q: T -> bool)
    requires forall i :: 0 <= i < |s| ==> p(s[i]) == q(s[i])
    ensures Find(s, p) == Find(s, q)
  {
    if s != [] {
      FindAgrees(s[1..], p, q);
    }
  }

  /** Number of elements satisfying `p`. */
  function Count<T>(s: seq<T>, p: T -> bool): (n: nat)
    ensures n <= |s|
  {
    if s == [] then 0 else (if p(s[0]) then 1 else 0) + Count(s[1..], p)
  }

  /** A filter keeps as many elements as satisfy its predicate. */
  lemma {:induction false} FilterLength<T>(s: seq<T>, p: T -> bool)
    ensures |Filter(s, p)| == Count(s, p)
  {
    if s != [] {
      FilterLength(s[1..], p);
    }
  }

  /** `i` is the index of the first element of `s` satisfying `p`. */
  predicate IsFirst<T>(s: seq<T>, p: T -> bool, i: int) {
    0 <= i < |s| && p(s[i]) && forall j :: 0 <= j < i ==> !p(s[j])
  }

  /** `find` returns the element at the first matching index. */
  lemma FindIsFirst<T>(s: seq<T>, p: T -> bool, i: int)
    requires IsFirst(s, p, i)
    ensures Find(s, p) == Some(s[i])
  {
    var k :| 0 <= k < |s| && s[k] == Find(s, p).value && p(s[k]) &&
             forall j :: 0 <= j < k ==> !p(s[j]);
    assert k <= i && i <= k;
  }

  /** Whether `find` returns an element satisfying `q` is whether the first match does. */
  lemma FindSatisfies<T>(s: seq<T>, p: T -> bool, q: T -> bool)
    ensures (Find(s, p).Some? && q(Find(s, p).value)) <==> exists i :: IsFirst(s, p, i) && q(s[i])
  {
    if Find(s, p).Some? {
      var k :| 0 <= k < |s| && s[k] == Find(s, p).value && p(s[k]) &&
               forall j :: 0 <= j < k ==> !p(s[j]);
      assert IsFirst(s, p, k);
      if exists i :: IsFirst(s, p, i) && q(s[i]) {
        var i :| IsFirst(s, p, i) && q(s[i]);
        FindIsFirst(s, p, i);
      }
    }
  }

  /** No two elements of `s` share a key. */
  predicate DistinctKeys<T, K(==)>(s: seq<T>, key: T -> K) {
    forall i, j :: 0 <= i < j < |s| ==> key(s[i]) != key(s[j])
  }

  /** Filtering keeps keys distinct. */
  lemma {:induction false} FilterDistinct<T, K>(s: seq<T>, p: T -> bool, key: T -> K)
    requires DistinctKeys(s, key)
    ensures DistinctKeys(Filter(s, p), key)
    decreases |s|
  {
    if s != [] {
      var tail := s[1..];
      assert DistinctKeys(tail, key) by {
        forall i, j | 0 <= i < j < |tail| ensures key(tail[i]) != key(tail[j]) {
          assert tail[i] == s[i + 1] && tail[j] == s[j + 1];
        }
      }
      FilterDistinct(tail, p, key);
      if p(s[0]) {
        var r := Filter(s, p);
        var rt := Filter(tail, p);
        assert r == [s[0]] + rt;
        forall i, j | 0 <= i < j < |r| ensures key(r[i]) != key(r[j]) {
          if i == 0 {
            assert r[j] == rt[j - 1] && rt[j - 1] in tail;
            var k :| 0 <= k < |tail| && tail[k] == r[j];
            assert s[k + 1] == r[j];
          } else {
            assert r[i] == rt[i - 1] && r[j] == rt[j - 1];
          }
        }
      }
    }
  }
}
