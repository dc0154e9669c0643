/** Grouping a sequence by a key in first-seen order, the way both the navigation
    builder (a JavaScript `Map` filled by `forEach`) and the docs listing (a record
    filled by `forEach`) do it. Elements whose key is `None` are left out of every
    group; the navigation builder collects those separately. */
module Grouping {
  import opened Wrappers
  import opened Seqs

  datatype Group<K, T> = Group(key: K, items: seq<T>)

  predicate HasKey<K(==), T>(gs: seq<Group<K, T>>, k: K) {
    exists i :: 0 <= i < |gs| && gs[i].key == k
  }

  predicate DistinctKeys<K(==), T>(gs: seq<Group<K, T>>) {
    forall i, j :: 0 <= i < j < |gs| ==> gs[i].key != gs[j].key
  }

  /** All items of all groups, group after group. */
  function Flatten<K, T>(gs: seq<Group<K, T>>): seq<T>
  {
    if gs == [] then [] else gs[0].items + Flatten(gs[1..])
  }

  /** The elements of `s` whose key is `k`, in order. */
  function Select<K(==), T>(s: seq<T>, key: T -> Option<K>, k: K): (r: seq<T>)
    ensures forall y :: y in r ==> y in s && key(y) == Some(k)
    ensures r == [] <==> forall i :: 0 <= i < |s| ==> key(s[i]) != Some(k)
  {
    if s == [] then []
    else Select(s[..|s| - 1], key, k) + (if key(s[|s| - 1]) == Some(k) then [s[|s| - 1]] else [])
  }

  /** The elements of `s` that have no key, in order. */
  function Unkeyed<K, T>(s: seq<T>, key: T -> Option<K>): (r: seq<T>)
    ensures forall y :: y in r ==> y in s && key(y).None?
    ensures forall i :: 0 <= i < |s| && key(s[i]).None? ==> s[i] in r
  {
    if s == [] then []
    else Unkeyed(s[..|s| - 1], key) + (if key(s[|s| - 1]).None? then [s[|s| - 1]] else [])
  }

  /** The index of the first element of `s` with key `k`, or `|s|` when there is none. */
  function FirstPos<K(==), T>(s: seq<T>, key: T -> Option<K>, k: K): (r: nat)
    ensures r <= |s|
    ensures r < |s| ==> key(s[r]) == Some(k)
    ensures forall j :: 0 <= j < r ==> key(s[j]) != Some(k)
  {
    if s == [] then 0
    else
      var f := FirstPos(s[..|s| - 1], key, k);
      if f < |s| - 1 then f
      else if key(s[|s| - 1]) == Some(k) then |s| - 1
      else |s|
  }

  /** Appends `x` to the group keyed `k`, opening that group at the end when it is new
      (`if (!m.has(k)) m.set(k, []); m.get(k).push(x)`). */
  function AddTo<K(==), T>(gs: seq<Group<K, T>>, k: K, x: T): (r: seq<Group<K, T>>)
    requires DistinctKeys(gs)
    ensures HasKey(gs, k) ==> |r| == |gs|
    ensures !HasKey(gs, k) ==> |r| == |gs| + 1 && r[|gs|] == Group(k, [x])
    ensures forall i :: 0 <= i < |gs| ==>
      r[i] == Group(gs[i].key, gs[i].items + (if gs[i].key == k then [x] else []))
  {
    if gs == [] then [Group(k, [x])]
    else if gs[0].key == k then
      assert HasKey(gs, k);
      [Group(k, gs[0].items + [x])] + gs[1..]
    else
      assert HasKey(gs, k) <==> HasKey(gs[1..], k) by {
        if HasKey(gs, k) {
          var i :| 0 <= i < |gs| && gs[i].key == k;
          assert gs[1..][i - 1].key == k;
        }
        if HasKey(gs[1..], k) {
          var i :| 0 <= i < |gs[1..]| && gs[1..][i].key == k;
          assert gs[i + 1].key == k;
        }
      }
      [gs[0]] + AddTo(gs[1..], k, x)
  }

  lemma AddToDistinct<K, T>(gs: seq<Group<K, T>>, k: K, x: T)
    requires DistinctKeys(gs)
    ensures DistinctKeys(AddTo(gs, k, x))
  {
    var r := AddTo(gs, k, x);
    forall i, j | 0 <= i < j < |r|
      ensures r[i].key != r[j].key
    {
      if j == |gs| {
        assert !HasKey(gs, k);
        assert r[i].key == gs[i].key;
      }
    }
  }

  lemma {:induction false} AddToFlatten<K, T>(gs: seq<Group<K, T>>, k: K, x: T)
    requires DistinctKeys(gs)
    ensures multiset(Flatten(AddTo(gs, k, x))) == multiset(Flatten(gs)) + multiset{x}
  {
    if gs == [] {
      assert Flatten([Group(k, [x])]) == [x] + Flatten([Group(k, [x])][1..]);
    } else if gs[0].key == k {
      var r := AddTo(gs, k, x);
      assert r[1..] == gs[1..];
    } else {
      var r := AddTo(gs, k, x);
      assert DistinctKeys(gs[1..]);
      AddToFlatten(gs[1..], k, x);
      assert r[0] == gs[0] && r[1..] == AddTo(gs[1..], k, x);
    }
  }

  /** Groups `s` by `key` in first-seen order: each new key opens a group at the end,
      each element joins the group of its key. */
  function GroupBy<K(==), T>(s: seq<T>, key: T -> Option<K>): (gs: seq<Group<K, T>>)
    ensures DistinctKeys(gs)
  {
    if s == [] then []
    else
      var g := GroupBy(s[..|s| - 1], key);
      var x := s[|s| - 1];
      if key(x).None? then g
      else
        AddToDistinct(g, key(x).value, x);
        AddTo(g, key(x).value, x)
  }

  /** Each group holds exactly the elements with its key, in their original order. */
  lemma {:induction false} GroupByItems<K, T>(s: seq<T>, key: T -> Option<K>)
    ensures forall i :: 0 <= i < |GroupBy(s, key)| ==>
      GroupBy(s, key)[i].items == Select(s, key, GroupBy(s, key)[i].key)
  {
    if s != [] {
      var p := s[..|s| - 1];
      var x := s[|s| - 1];
      GroupByItems(p, key);
      GroupByCovers(p, key);
      var g := GroupBy(p, key);
      var r := GroupBy(s, key);
      forall i | 0 <= i < |r|
        ensures r[i].items == Select(s, key, r[i].key)
      {
        if i == |g| {
          var k := key(x).value;
          assert !HasKey(g, k) && r[i] == Group(k, [x]);
          assert Select(p, key, k) == [] by {
            forall j | 0 <= j < |p|
              ensures key(p[j]) != Some(k)
            {
              assert key(p[j]).Some? ==> HasKey(g, key(p[j]).value);
            }
          }
        }
      }
    }
  }

  /** Every element that has a key lands in the group of that key. */
  lemma {:induction false} GroupByCovers<K, T>(s: seq<T>, key: T -> Option<K>)
    ensures forall i :: 0 <= i < |s| && key(s[i]).Some? ==> HasKey(GroupBy(s, key), key(s[i]).value)
  {
    if s != [] {
      var p := s[..|s| - 1];
      var x := s[|s| - 1];
      GroupByCovers(p, key);
      var g := GroupBy(p, key);
      var r := GroupBy(s, key);
      forall i | 0 <= i < |s| && key(s[i]).Some?
        ensures HasKey(r, key(s[i]).value)
      {
        if i < |p| {
          assert s[i] == p[i];
          var j :| 0 <= j < |g| && g[j].key == key(p[i]).value;
          assert r[j].key == g[j].key;
        } else {
          var k := key(x).value;
          if HasKey(g, k) {
            var j :| 0 <= j < |g| && g[j].key == k;
            assert r[j].key == k;
          } else {
            assert r[|g|].key == k;
          }
        }
      }
    }
  }

  /** No group is empty. */
  lemma GroupByNonEmpty<K, T>(s: seq<T>, key: T -> Option<K>)
    ensures forall i :: 0 <= i < |GroupBy(s, key)| ==> GroupBy(s, key)[i].items != []
  {
    var gs := GroupBy(s, key);
    GroupByItems(s, key);
    forall i | 0 <= i < |gs|
      ensures gs[i].items != []
    {
      GroupByKeyOccurs(s, key, i);
    }
  }

  lemma {:induction false} GroupByKeyOccurs<K, T>(s: seq<T>, key: T -> Option<K>, i: nat)
    requires i < |GroupBy(s, key)|
    ensures FirstPos(s, key, GroupBy(s, key)[i].key) < |s|
  {
    var p := s[..|s| - 1];
    var x := s[|s| - 1];
    var g := GroupBy(p, key);
    var k := GroupBy(s, key)[i].key;
    if i < |g| {
      assert g[i].key == k;
      GroupByKeyOccurs(p, key, i);
    } else {
      assert key(x) == Some(k);
    }
  }

  lemma FirstPosExtend<K, T>(p: seq<T>, x: T, key: T -> Option<K>, k: K)
    ensures FirstPos(p, key, k) < |p| ==> FirstPos(p + [x], key, k) == FirstPos(p, key, k)
    ensures FirstPos(p, key, k) == |p| && key(x) == Some(k) ==> FirstPos(p + [x], key, k) == |p|
  {
    assert (p + [x])[..|p|] == p;
  }

  /** Groups appear in the order their keys are first seen. */
  lemma {:induction false} GroupByOrder<K, T>(s: seq<T>, key: T -> Option<K>)
    ensures forall i, j :: 0 <= i < j < |GroupBy(s, key)| ==>
      FirstPos(s, key, GroupBy(s, key)[i].key) < FirstPos(s, key, GroupBy(s, key)[j].key)
  {
    if s != [] {
      var p := s[..|s| - 1];
      var x := s[|s| - 1];
      assert s == p + [x];
      GroupByOrder(p, key);
      GroupByOrderStep(p, x, key);
    }
  }

  lemma GroupByOrderStep<K, T>(p: seq<T>, x: T, key: T -> Option<K>)
    requires forall i, j :: 0 <= i < j < |GroupBy(p, key)| ==>
      FirstPos(p, key, GroupBy(p, key)[i].key) < FirstPos(p, key, GroupBy(p, key)[j].key)
    ensures forall i, j :: 0 <= i < j < |GroupBy(p + [x], key)| ==>
      FirstPos(p + [x], key, GroupBy(p + [x], key)[i].key) < FirstPos(p + [x], key, GroupBy(p + [x], key)[j].key)
  {
    var s := p + [x];
    var g, r := GroupBy(p, key), GroupBy(s, key);
    GroupByUnfold(p, x, key);
    OldKeysFirstPos(p, x, key);
    if |r| > |g| {
      NewKeyFirstPos(p, x, key);
    }
    OrderExtend(g, r, k => FirstPos(p, key, k), k => FirstPos(s, key, k), |p|);
  }

  /** Appending at most one group whose key comes after every old key's position keeps
      the groups in order of position. */
  lemma OrderExtend<K, T>(g: seq<Group<K, T>>, r: seq<Group<K, T>>, before: K -> nat, after: K -> nat, n: nat)
    requires |g| <= |r| <= |g| + 1
    requires forall i :: 0 <= i < |g| ==> r[i].key == g[i].key
    requires forall i :: 0 <= i < |g| ==> after(g[i].key) == before(g[i].key) < n
    requires |r| > |g| ==> after(r[|g|].key) == n
    requires forall i, j :: 0 <= i < j < |g| ==> before(g[i].key) < before(g[j].key)
    ensures forall i, j :: 0 <= i < j < |r| ==> after(r[i].key) < after(r[j].key)
  {
    forall i, j | 0 <= i < j < |r|
      ensures after(r[i].key) < after(r[j].key)
    {
      assert r[i].key == g[i].key;
      if j < |g| {
        assert r[j].key == g[j].key;
      }
    }
  }

  /** The keys already grouped keep their first positions when an element is appended. */
  lemma OldKeysFirstPos<K, T>(p: seq<T>, x: T, key: T -> Option<K>)
    ensures forall i :: 0 <= i < |GroupBy(p, key)| ==>
      FirstPos(p + [x], key, GroupBy(p, key)[i].key) == FirstPos(p, key, GroupBy(p, key)[i].key) < |p|
  {
    var g := GroupBy(p, key);
    forall i | 0 <= i < |g|
      ensures FirstPos(p + [x], key, g[i].key) == FirstPos(p, key, g[i].key) < |p|
    {
      GroupByKeyOccurs(p, key, i);
      FirstPosExtend(p, x, key, g[i].key);
    }
  }

  /** A key first seen in the appended element is first seen at its position. */
  lemma NewKeyFirstPos<K, T>(p: seq<T>, x: T, key: T -> Option<K>)
    requires key(x).Some? && !HasKey(GroupBy(p, key), key(x).value)
    ensures FirstPos(p + [x], key, key(x).value) == |p|
  {
    var g, k := GroupBy(p, key), key(x).value;
    GroupByCovers(p, key);
    forall i | 0 <= i < |p|
      ensures key(p[i]) != Some(k)
    {
      assert key(p[i]).Some? ==> HasKey(g, key(p[i]).value);
    }
    FirstPosExtend(p, x, key, k);
  }

  /** Grouped and key-less elements together are a permutation of the input. */
  lemma {:induction false} GroupByPartition<K, T>(s: seq<T>, key: T -> Option<K>)
    ensures multiset(Flatten(GroupBy(s, key))) + multiset(Unkeyed(s, key)) == multiset(s)
  {
    if s != [] {
      var p := s[..|s| - 1];
      var x := s[|s| - 1];
      assert s == p + [x];
      GroupByPartition(p, key);
      GroupByUnfold(p, x, key);
      PartitionStep(p, x, key, GroupBy(p, key), GroupBy(p + [x], key));
    }
  }

  lemma GroupByUnfold<K, T>(p: seq<T>, x: T, key: T -> Option<K>)
    ensures key(x).None? ==> GroupBy(p + [x], key) == GroupBy(p, key)
    ensures key(x).Some? ==> GroupBy(p + [x], key) == AddTo(GroupBy(p, key), key(x).value, x)
  {
    assert (p + [x])[..|p|] == p;
  }

  lemma PartitionStep<K, T>(p: seq<T>, x: T, key: T -> Option<K>,
                            g: seq<Group<K, T>>, r: seq<Group<K, T>>)
    requires DistinctKeys(g)
    requires multiset(Flatten(g)) + multiset(Unkeyed(p, key)) == multiset(p)
    requires key(x).None? ==> r == g
    requires key(x).Some? ==> r == AddTo(g, key(x).value, x)
    ensures multiset(Flatten(r)) + multiset(Unkeyed(p + [x], key)) == multiset(p + [x])
  {
    var s := p + [x];
    assert s[..|s| - 1] == p;
    if key(x).None? {
      assert Unkeyed(s, key) == Unkeyed(p, key) + [x];
    } else {
      assert Unkeyed(s, key) == Unkeyed(p, key);
      AddToFlatten(g, key(x).value, x);
    }
  }

  // ----- keys and permutations of groups -----

  function KeyOf<K, T>(): Group<K, T> -> K {
    (g: Group<K, T>) => g.key
  }

  /** The keys of the groups, in order. */
  function Keys<K, T>(gs: seq<Group<K, T>>): (ks: seq<K>)
    ensures |ks| == |gs| && forall i :: 0 <= i < |gs| ==> ks[i] == gs[i].key
  {
    Map(KeyOf(), gs)
  }

  /** Distinct keys, counted: no key occurs twice. */
  lemma {:induction false} DistinctKeysCount<K, T>(gs: seq<Group<K, T>>)
    requires DistinctKeys(gs)
    ensures forall k :: multiset(Keys(gs))[k] <= 1
  {
    if gs != [] {
      var q := gs[..|gs| - 1];
      var g := gs[|gs| - 1];
      assert DistinctKeys(q);
      DistinctKeysCount(q);
      assert Keys(gs) == Keys(q) + [g.key];
      assert g.key !in Keys(q) by {
        forall i | 0 <= i < |q|
          ensures Keys(q)[i] != g.key
        {
          assert gs[i].key != gs[|gs| - 1].key;
        }
      }
    }
  }

  lemma {:induction false} FlattenConcat<K, T>(a: seq<Group<K, T>>, b: seq<Group<K, T>>)
    ensures Flatten(a + b) == Flatten(a) + Flatten(b)
  {
    if a != [] {
      assert (a + b)[1..] == a[1..] + b;
      FlattenConcat(a[1..], b);
    } else {
      assert a + b == b;
    }
  }

  /** Reordering the groups reorders their items: equal multisets of groups flatten to
      equal multisets of items. */
  lemma {:induction false} FlattenPermutation<K, T>(a: seq<Group<K, T>>, b: seq<Group<K, T>>)
    requires multiset(a) == multiset(b)
    ensures multiset(Flatten(a)) == multiset(Flatten(b))
    decreases |a|
  {
    if a == [] {
      assert |b| == |multiset(b)| == 0;
    } else {
      var x := a[0];
      assert x in multiset(b);
      var i :| 0 <= i < |b| && b[i] == x;
      var b' := b[..i] + b[i + 1..];
      RemoveAt(b, i);
      MultisetTail(a);
      FlattenPermutation(a[1..], b');
    }
  }

  lemma MultisetTail<T>(a: seq<T>)
    requires a != []
    ensures multiset(a[1..]) == multiset(a) - multiset{a[0]}
  {
    assert a == [a[0]] + a[1..];
  }

  /** Taking the group at `i` out of `b`. */
  lemma RemoveAt<K, T>(b: seq<Group<K, T>>, i: nat)
    requires i < |b|
    ensures multiset(b[..i] + b[i + 1..]) == multiset(b) - multiset{b[i]}
    ensures multiset(Flatten(b)) == multiset(b[i].items) + multiset(Flatten(b[..i] + b[i + 1..]))
  {
    var lo, hi := b[..i], b[i + 1..];
    assert b == lo + ([b[i]] + hi);
    FlattenConcat(lo, [b[i]] + hi);
    FlattenConcat(lo, hi);
    assert Flatten([b[i]] + hi) == b[i].items + Flatten(hi) by {
      assert ([b[i]] + hi)[1..] == hi;
    }
  }
}
