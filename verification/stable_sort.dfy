/** JavaScript's `Array.prototype.sort` with a consistent comparator is stable, so its
    result is the unique permutation that is sorted and keeps equivalent elements in
    their original order. This module gives that sort as an insertion sort over a total
    preorder `le` ("`cmp(a, b) <= 0`") and proves the three properties. */
module StableSort {
  import opened Seqs

  ghost predicate TotalPreorder<T(!new)>(le: (T, T) -> bool) {
    && (forall a, b :: le(a, b) || le(b, a))
    && (forall a, b, c :: le(a, b) && le(b, c) ==> le(a, c))
  }

  /** Two elements the comparator puts on an equal footing (`cmp` returns 0). */
  predicate Equiv<T>(le: (T, T) -> bool, a: T, b: T) {
    le(a, b) && le(b, a)
  }

  predicate Sorted<T>(s: seq<T>, le: (T, T) -> bool) {
    forall i, j :: 0 <= i < j < |s| ==> le(s[i], s[j])
  }

  /** The elements of `s` equivalent to `x`, in the order they occur in `s`.
      A sort is stable when it leaves every such class unchanged. */
  function Class<T>(s: seq<T>, le: (T, T) -> bool, x: T): (r: seq<T>)
    ensures |r| <= |s|
    ensures forall y :: y in r ==> y in s && Equiv(le, y, x)
  {
    if s == [] then []
    else Class(s[..|s| - 1], le, x) + (if Equiv(le, s[|s| - 1], x) then [s[|s| - 1]] else [])
  }

  /** The comparator ordering elements by an integer key, as `(a, b) => key(a) - key(b)`. */
  function ByKey<T(!new)>(key: T -> int): (le: (T, T) -> bool)
    ensures forall a, b :: le(a, b) <==> key(a) <= key(b)
  {
    (a: T, b: T) => key(a) <= key(b)
  }

  lemma ByKeyIsTotalPreorder<T(!new)>(key: T -> int)
    ensures TotalPreorder(ByKey(key))
  {
  }

  /** Places `x` after every element of the sorted `s` that is not above it. */
  function Insert<T>(x: T, s: seq<T>, le: (T, T) -> bool): (r: seq<T>)
    ensures multiset(r) == multiset(s) + multiset{x}
  {
    if s == [] then [x]
    else if le(s[0], x) then
      assert s == [s[0]] + s[1..];
      [s[0]] + Insert(x, s[1..], le)
    else [x] + s
  }

  function Sort<T(!new)>(s: seq<T>, le: (T, T) -> bool): (r: seq<T>)
    requires TotalPreorder(le)
    ensures Sorted(r, le)
    ensures multiset(r) == multiset(s)
    ensures |r| == |s|
    ensures forall x :: Class(r, le, x) == Class(s, le, x)
  {
    if s == [] then []
    else
      var t := Sort(s[..|s| - 1], le);
      var x := s[|s| - 1];
      InsertSorted(x, t, le);
      InsertStable(x, t, le);
      assert s == s[..|s| - 1] + [x];
      assert multiset(s) == multiset(s[..|s| - 1]) + multiset{x};
      var r := Insert(x, t, le);
      assert |r| == |multiset(r)| == |multiset(s)| == |s|;
      r
  }

  lemma {:induction false} InsertSorted<T(!new)>(x: T, s: seq<T>, le: (T, T) -> bool)
    requires TotalPreorder(le)
    requires Sorted(s, le)
    ensures Sorted(Insert(x, s, le), le)
  {
    if s == [] {
    } else if le(s[0], x) {
      var t := Insert(x, s[1..], le);
      InsertSorted(x, s[1..], le);
      forall y | y in t
        ensures le(s[0], y)
      {
        assert y in multiset(t);
        if y != x {
          assert y in s[1..];
        }
      }
      SortedCons(s[0], t, le);
    } else {
      forall y | y in s
        ensures le(x, y)
      {
        var i :| 0 <= i < |s| && s[i] == y;
        assert i == 0 || le(s[0], s[i]);
      }
      SortedCons(x, s, le);
    }
  }

  /** A sorted sequence stays sorted behind an element below all of it. */
  lemma SortedCons<T>(y: T, t: seq<T>, le: (T, T) -> bool)
    requires Sorted(t, le)
    requires forall z :: z in t ==> le(y, z)
    ensures Sorted([y] + t, le)
  {
    var r := [y] + t;
    forall i, j | 0 <= i < j < |r|
      ensures le(r[i], r[j])
    {
      assert r[j] == t[j - 1];
      if i > 0 {
        assert r[i] == t[i - 1];
      }
    }
  }

  lemma {:induction false} ClassConcat<T>(a: seq<T>, b: seq<T>, le: (T, T) -> bool, x: T)
    ensures Class(a + b, le, x) == Class(a, le, x) + Class(b, le, x)
    decreases |b|
  {
    if b == [] {
      assert a + b == a;
    } else {
      var b' := b[..|b| - 1];
      assert (a + b)[..|a + b| - 1] == a + b';
      ClassConcat(a, b', le, x);
    }
  }

  lemma ClassSingleton<T>(y: T, le: (T, T) -> bool, x: T)
    ensures Class([y], le, x) == if Equiv(le, y, x) then [y] else []
  {
    assert [y][..0] == [];
  }

  /** In a sorted sequence whose first element is above `x`, nothing is equivalent
      to anything equivalent to `x`. */
  lemma {:induction false} ClassEmptyAbove<T(!new)>(x: T, s: seq<T>, le: (T, T) -> bool, e: T)
    requires TotalPreorder(le)
    requires Sorted(s, le)
    requires s != [] && !le(s[0], x)
    requires Equiv(le, x, e)
    ensures Class(s, le, e) == []
  {
    forall i | 0 <= i < |s|
      ensures !le(s[i], e)
    {
      assert i == 0 || le(s[0], s[i]);
    }
    ClassNone(s, le, e);
  }

  lemma {:induction false} ClassNone<T>(s: seq<T>, le: (T, T) -> bool, e: T)
    requires forall i :: 0 <= i < |s| ==> !le(s[i], e)
    ensures Class(s, le, e) == []
  {
    if s != [] {
      ClassNone(s[..|s| - 1], le, e);
    }
  }

  lemma {:induction false} InsertStable<T(!new)>(x: T, s: seq<T>, le: (T, T) -> bool)
    requires TotalPreorder(le)
    requires Sorted(s, le)
    ensures forall e :: Class(Insert(x, s, le), le, e) == Class(s + [x], le, e)
  {
    forall e
      ensures Class(Insert(x, s, le), le, e) == Class(s + [x], le, e)
    {
      InsertStableAt(x, s, le, e);
    }
  }

  lemma {:induction false} InsertStableAt<T(!new)>(x: T, s: seq<T>, le: (T, T) -> bool, e: T)
    requires TotalPreorder(le)
    requires Sorted(s, le)
    ensures Class(Insert(x, s, le), le, e) == Class(s + [x], le, e)
  {
    if s == [] {
      assert s + [x] == [x];
    } else if le(s[0], x) {
      assert Sorted(s[1..], le);
      InsertStableAt(x, s[1..], le, e);
      InsertStableSkip(x, s, le, e);
    } else {
      if Equiv(le, x, e) {
        ClassEmptyAbove(x, s, le, e);
      }
      InsertStableFront(x, s, le, e);
    }
  }

  lemma InsertStableSkip<T>(x: T, s: seq<T>, le: (T, T) -> bool, e: T)
    requires s != [] && le(s[0], x)
    requires Class(Insert(x, s[1..], le), le, e) == Class(s[1..] + [x], le, e)
    ensures Class(Insert(x, s, le), le, e) == Class(s + [x], le, e)
  {
    var t := s[1..];
    calc {
      Class(Insert(x, s, le), le, e);
    == { InsertSkip(x, s, le); }
      Class([s[0]] + Insert(x, t, le), le, e);
    == { ClassConcat([s[0]], Insert(x, t, le), le, e); }
      Class([s[0]], le, e) + Class(t + [x], le, e);
    == { ClassConcat([s[0]], t + [x], le, e); }
      Class([s[0]] + (t + [x]), le, e);
    == { ConsSnoc(s, x); }
      Class(s + [x], le, e);
    }
  }

  lemma InsertSkip<T>(x: T, s: seq<T>, le: (T, T) -> bool)
    requires s != [] && le(s[0], x)
    ensures Insert(x, s, le) == [s[0]] + Insert(x, s[1..], le)
  {
  }

  lemma ConsSnoc<T>(s: seq<T>, x: T)
    requires s != []
    ensures [s[0]] + (s[1..] + [x]) == s + [x]
  {
  }

  lemma InsertStableFront<T>(x: T, s: seq<T>, le: (T, T) -> bool, e: T)
    requires s != [] && !le(s[0], x)
    requires Equiv(le, x, e) ==> Class(s, le, e) == []
    ensures Class(Insert(x, s, le), le, e) == Class(s + [x], le, e)
  {
    assert Insert(x, s, le) == [x] + s;
    ClassConcat([x], s, le, e);
    ClassConcat(s, [x], le, e);
    ClassSingleton(x, le, e);
    if Equiv(le, x, e) {
      assert Class([x], le, e) == [x];
    } else {
      assert Class([x], le, e) == [];
      assert Class(s, le, e) + [] == Class(s, le, e);
    }
  }

  // ----- sorting by a yes/no key -----

  /** The key of a comparator that puts the elements satisfying `flag` first and treats
      all others as equal (`-1`, `1` or `0`). */
  function FlagRank<T>(flag: T -> bool): T -> int {
    (x: T) => if flag(x) then 0 else 1
  }

  function Not<T>(flag: T -> bool): T -> bool {
    (x: T) => !flag(x)
  }

  /** Under a yes/no key, the class of `x` is the elements on the same side as `x`. */
  lemma {:induction false} ClassByFlag<T(!new)>(s: seq<T>, flag: T -> bool, x: T)
    ensures flag(x) ==> Class(s, ByKey(FlagRank(flag)), x) == Filter(flag, s)
    ensures !flag(x) ==> Class(s, ByKey(FlagRank(flag)), x) == Filter(Not(flag), s)
  {
    if s != [] {
      ClassByFlag(s[..|s| - 1], flag, x);
    }
  }

  /** The length of the longest prefix of flagged elements. */
  function FirstUnflagged<T>(s: seq<T>, flag: T -> bool): (k: nat)
    ensures k <= |s|
    ensures forall i :: 0 <= i < k ==> flag(s[i])
    ensures k < |s| ==> !flag(s[k])
  {
    if s == [] || !flag(s[0]) then 0 else 1 + FirstUnflagged(s[1..], flag)
  }

  /** A sequence whose `flag` elements all come first is its two filters, one after the other. */
  lemma SplitByFlag<T(!new)>(s: seq<T>, flag: T -> bool)
    requires forall i, j :: 0 <= i < j < |s| && flag(s[j]) ==> flag(s[i])
    ensures s == Filter(flag, s) + Filter(Not(flag), s)
  {
    var k := FirstUnflagged(s, flag);
    PrefixFlagged(s, flag, k);
    SuffixUnflagged(s, flag, k);
    SplitParts(s[..k], s[k..], flag);
    TakeDrop(s, k);
  }

  lemma PrefixFlagged<T>(s: seq<T>, flag: T -> bool, k: nat)
    requires k <= |s| && forall i :: 0 <= i < k ==> flag(s[i])
    ensures forall i :: 0 <= i < |s[..k]| ==> flag(s[..k][i])
  {
    forall i | 0 <= i < |s[..k]|
      ensures flag(s[..k][i])
    {
      assert s[..k][i] == s[i];
    }
  }

  /** After the first unflagged element nothing is flagged. */
  lemma SuffixUnflagged<T>(s: seq<T>, flag: T -> bool, k: nat)
    requires k <= |s| && (k < |s| ==> !flag(s[k]))
    requires forall i, j :: 0 <= i < j < |s| && flag(s[j]) ==> flag(s[i])
    ensures forall i :: 0 <= i < |s[k..]| ==> !flag(s[k..][i])
  {
    forall i | 0 <= i < |s[k..]|
      ensures !flag(s[k..][i])
    {
      assert s[k..][i] == s[k + i];
      if i > 0 {
        FlaggedBefore(s, flag, k, k + i);
      }
    }
  }

  /** Flagged elements followed by unflagged ones split into exactly those two parts. */
  lemma SplitParts<T(!new)>(a: seq<T>, b: seq<T>, flag: T -> bool)
    requires forall i :: 0 <= i < |a| ==> flag(a[i])
    requires forall i :: 0 <= i < |b| ==> !flag(b[i])
    ensures Filter(flag, a + b) == a && Filter(Not(flag), a + b) == b
  {
    FilterConcat(flag, a, b);
    FilterConcat(Not(flag), a, b);
    FilterAll(flag, a);
    FilterNone(flag, b);
    FilterNone(Not(flag), a);
    FilterAll(Not(flag), b);
    assert a + [] == a && [] + b == b;
  }

  lemma FlaggedBefore<T>(s: seq<T>, flag: T -> bool, i: nat, j: nat)
    requires i < j < |s|
    requires forall i, j :: 0 <= i < j < |s| && flag(s[j]) ==> flag(s[i])
    ensures flag(s[j]) ==> flag(s[i])
  {
  }

  lemma TakeDrop<T>(s: seq<T>, k: nat)
    requires k <= |s|
    ensures s == s[..k] + s[k..]
  {
  }

  /** Two sequences whose classes agree have the same elements on each side of `flag`,
      in the same order. */
  lemma SameSides<T(!new)>(r: seq<T>, s: seq<T>, flag: T -> bool, side: bool)
    requires forall x :: Class(r, ByKey(FlagRank(flag)), x) == Class(s, ByKey(FlagRank(flag)), x)
    ensures side ==> Filter(flag, r) == Filter(flag, s)
    ensures !side ==> Filter(Not(flag), r) == Filter(Not(flag), s)
  {
    var g := if side then flag else Not(flag);
    if Filter(g, s) != [] {
      var x := Filter(g, s)[0];
      assert multiset(Filter(g, s))[x] > 0;
      ClassByFlag(r, flag, x);
      ClassByFlag(s, flag, x);
    } else if Filter(g, r) != [] {
      var x := Filter(g, r)[0];
      assert multiset(Filter(g, r))[x] > 0;
      ClassByFlag(r, flag, x);
      ClassByFlag(s, flag, x);
    }
  }

  /** Stable sorting by a yes/no key is a stable partition: the elements that satisfy
      `flag`, in order, followed by the others, in order. */
  lemma SortByFlag<T(!new)>(s: seq<T>, flag: T -> bool)
    ensures TotalPreorder(ByKey(FlagRank(flag)))
    ensures Sort(s, ByKey(FlagRank(flag))) == Filter(flag, s) + Filter(Not(flag), s)
  {
    var le := ByKey(FlagRank(flag));
    ByKeyIsTotalPreorder(FlagRank(flag));
    var r := Sort(s, le);
    forall i, j | 0 <= i < j < |r| && flag(r[j])
      ensures flag(r[i])
    {
      assert le(r[i], r[j]);
    }
    SplitByFlag(r, flag);
    SameSides(r, s, flag, true);
    SameSides(r, s, flag, false);
  }
}
