/** Element-wise mapping (`Array.prototype.map`) and filtering (`Array.prototype.filter`)
    of sequences, and their interaction with concatenation and permutation. */
module Seqs {

  function Map<T, U>(f: T -> U, s: seq<T>): (r: seq<U>)
    ensures |r| == |s|
    ensures forall i :: 0 <= i < |s| ==> r[i] == f(s[i])
  {
    seq(|s|, i requires 0 <= i < |s| => f(s[i]))
  }

  lemma MapConcat<T, U>(f: T -> U, a: seq<T>, b: seq<T>)
    ensures Map(f, a + b) == Map(f, a) + Map(f, b)
  {
  }

  /** Mapping respects permutations: equal multisets map to equal multisets. */
  lemma {:induction false} MapPermutation<T, U>(f: T -> U, a: seq<T>, b: seq<T>)
    requires multiset(a) == multiset(b)
    ensures multiset(Map(f, a)) == multiset(Map(f, b))
    decreases |a|
  {
    if a == [] {
      assert |b| == |multiset(b)| == 0;
    } else {
      var x := a[0];
      assert x in multiset(b);
      var i :| 0 <= i < |b| && b[i] == x;
      var b' := b[..i] + b[i + 1..];
      assert b == b[..i] + [x] + b[i + 1..];
      assert a == [x] + a[1..];
      assert multiset(b) == multiset(b[..i]) + multiset{x} + multiset(b[i + 1..]);
      assert multiset(a) == multiset{x} + multiset(a[1..]);
      assert multiset(b') == multiset(b[..i]) + multiset(b[i + 1..]);
      assert multiset(a[1..]) == multiset(a) - multiset{x};
      assert multiset(b') == multiset(b) - multiset{x};
      MapPermutation(f, a[1..], b');
      MapConcat(f, [x], a[1..]);
      MapConcat(f, b[..i] + [x], b[i + 1..]);
      MapConcat(f, b[..i], [x]);
      MapConcat(f, b[..i], b[i + 1..]);
    }
  }

  /** The elements of `s` that satisfy `p`, in order. */
  function Filter<T(!new)>(p: T -> bool, s: seq<T>): (r: seq<T>)
    ensures |r| <= |s|
    ensures forall x :: multiset(r)[x] == if p(x) then multiset(s)[x] else 0
  {
    if s == [] then []
    else
      var q := s[..|s| - 1];
      var x := s[|s| - 1];
      assert s == q + [x];
      Filter(p, q) + (if p(x) then [x] else [])
  }

  /** One more element at the end: kept when it satisfies `p`. */
  lemma FilterSnoc<T(!new)>(p: T -> bool, q: seq<T>, x: T)
    ensures Filter(p, q + [x]) == Filter(p, q) + (if p(x) then [x] else [])
  {
    var s := q + [x];
    assert s[..|s| - 1] == q;
  }

  lemma {:induction false} FilterConcat<T(!new)>(p: T -> bool, a: seq<T>, b: seq<T>)
    ensures Filter(p, a + b) == Filter(p, a) + Filter(p, b)
    decreases |b|
  {
    if b != [] {
      var q, x := b[..|b| - 1], b[|b| - 1];
      assert b == q + [x];
      assert a + b == (a + q) + [x];
      FilterConcat(p, a, q);
      FilterSnoc(p, a + q, x);
      FilterSnoc(p, q, x);
    } else {
      assert a + b == a;
    }
  }

  lemma {:induction false} FilterAll<T(!new)>(p: T -> bool, s: seq<T>)
    requires forall i :: 0 <= i < |s| ==> p(s[i])
    ensures Filter(p, s) == s
  {
    if s != [] {
      var q, x := s[..|s| - 1], s[|s| - 1];
      assert s == q + [x];
      forall i | 0 <= i < |q|
        ensures p(q[i])
      {
        assert q[i] == s[i];
      }
      FilterAll(p, q);
      FilterSnoc(p, q, x);
    }
  }

  lemma {:induction false} FilterNone<T(!new)>(p: T -> bool, s: seq<T>)
    requires forall i :: 0 <= i < |s| ==> !p(s[i])
    ensures Filter(p, s) == []
  {
    if s != [] {
      var q, x := s[..|s| - 1], s[|s| - 1];
      assert s == q + [x];
      forall i | 0 <= i < |q|
        ensures !p(q[i])
      {
        assert q[i] == s[i];
      }
      FilterNone(p, q);
      FilterSnoc(p, q, x);
    }
  }
}
