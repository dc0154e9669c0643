/** The document listing: documents grouped under their category (or "Uncategorized"),
    each group sorted stably by `order`, the groups shown in the order `Object.entries`
    enumerates a record's keys, and each card linking to its page. */
module DocsListing {
  import opened Wrappers
  import opened Strings
  import opened StableSort
  import opened Seqs
  import opened Grouping
  import opened Types
  import opened Docs
  import Config
  import Search

  const Uncategorized := "Uncategorized"

  /** `doc.meta.category || 'Uncategorized'`. */
  function ListingKey(d: Doc): (k: string)
    ensures Truthy(d.meta.category) ==> k == d.meta.category.value
    ensures !Truthy(d.meta.category) ==> k == Uncategorized
    ensures k != ""
  {
    OrElse(d.meta.category, Uncategorized)
  }

  function KeyFn(): Doc -> Option<string> {
    (d: Doc) => Some(ListingKey(d))
  }

  /** One group sorted by `(a.meta.order || 0) - (b.meta.order || 0)`. */
  function SortGroup(g: Group<string, Doc>): (h: Group<string, Doc>)
    ensures h.key == g.key
    ensures Sorted(h.items, ByOrder()) && multiset(h.items) == multiset(g.items)
    ensures forall x :: Class(h.items, ByOrder(), x) == Class(g.items, ByOrder(), x)
  {
    Group(g.key, Sort(g.items, ByOrder()))
  }

  function SortGroupFn(): Group<string, Doc> -> Group<string, Doc> {
    (g: Group<string, Doc>) => SortGroup(g)
  }

  /** The record after both `forEach` loops, with its keys in insertion order. */
  function Buckets(docs: seq<Doc>): (bs: seq<Group<string, Doc>>)
    ensures |bs| == |GroupBy(docs, KeyFn())|
    ensures forall i :: 0 <= i < |bs| ==> bs[i] == SortGroup(GroupBy(docs, KeyFn())[i])
  {
    Map(SortGroupFn(), GroupBy(docs, KeyFn()))
  }

  // ----- property-key order -----

  predicate IsDigit(c: char) {
    '0' <= c <= '9'
  }

  /** The value of a string of decimal digits. */
  function DigitsValue(s: string): (n: nat)
    requires forall i :: 0 <= i < |s| ==> IsDigit(s[i])
    ensures |s| == 1 ==> n == s[0] as int - '0' as int
  {
    if s == [] then 0
    else
      assert IsDigit(s[|s| - 1]);
      DigitsValue(s[..|s| - 1]) * 10 + (s[|s| - 1] as int - '0' as int)
  }

  /** A key JavaScript treats as an array index: the canonical decimal form (no sign, no
      leading zero) of an integer below 2^32 - 1. */
  predicate IsArrayIndex(k: string) {
    && |k| > 0
    && (forall i :: 0 <= i < |k| ==> IsDigit(k[i]))
    && (k[0] == '0' ==> |k| == 1)
    && DigitsValue(k) < 0xFFFF_FFFF
  }

  /** `Object.entries` lists the array-index keys first, in ascending numeric order, and
      then every other key in the order it was added. A stable sort by this rank yields
      exactly that order. */
  function Rank(g: Group<string, Doc>): (n: int)
    ensures IsArrayIndex(g.key) ==> n == DigitsValue(g.key) && n < 0xFFFF_FFFF
    ensures !IsArrayIndex(g.key) ==> n == 0xFFFF_FFFF
  {
    if IsArrayIndex(g.key) then DigitsValue(g.key) else 0xFFFF_FFFF
  }

  /** The groups in the order the listing shows them. */
  function EntriesOrder(bs: seq<Group<string, Doc>>): (r: seq<Group<string, Doc>>)
    ensures multiset(r) == multiset(bs)
    ensures forall i, j :: 0 <= i < j < |r| ==> Rank(r[i]) <= Rank(r[j])
    ensures forall x :: Class(r, ByKey(Rank), x) == Class(bs, ByKey(Rank), x)
  {
    ByKeyIsTotalPreorder(Rank);
    var r := Sort(bs, ByKey(Rank));
    assert forall i, j :: 0 <= i < j < |r| ==> ByKey(Rank)(r[i], r[j]);
    r
  }

  /** `groupDocsByCategory` with a record that has no inherited keys: groups in
      `Object.entries` order, each sorted stably by `order`. */
  function GroupDocsByCategory(docs: seq<Doc>): (r: seq<Group<string, Doc>>)
    ensures |r| == |GroupBy(docs, KeyFn())|
    ensures forall g :: g in r ==> g in Buckets(docs)
    ensures forall i, j :: 0 <= i < j < |r| ==> Rank(r[i]) <= Rank(r[j])
  {
    var r := EntriesOrder(Buckets(docs));
    assert |r| == |Buckets(docs)| by {
      assert |multiset(r)| == |multiset(Buckets(docs))|;
    }
    assert forall g :: g in r ==> g in Buckets(docs) by {
      forall g | g in r
        ensures g in Buckets(docs)
      {
        assert g in multiset(r);
      }
    }
    r
  }

  /** Each group of the listing is one of the buckets. */
  lemma ListedGroupIsBucket(docs: seq<Doc>, g: Group<string, Doc>)
    requires g in GroupDocsByCategory(docs)
    ensures exists i :: 0 <= i < |GroupBy(docs, KeyFn())| && g == SortGroup(GroupBy(docs, KeyFn())[i])
  {
    assert g in multiset(GroupDocsByCategory(docs));
    assert g in Buckets(docs);
  }

  /** Every group is non-empty, holds exactly the documents of its key, sorted by `order`
      with equal orders kept in input order; no key appears twice; and every document
      lands in exactly one group. */
  lemma ListingGroups(docs: seq<Doc>)
    ensures var r := GroupDocsByCategory(docs);
      && (forall g :: g in r ==> g.items != [])
      && (forall g :: g in r ==> Sorted(g.items, ByOrder()))
      && (forall g :: g in r ==> forall x ::
            Class(g.items, ByOrder(), x) == Class(Select(docs, KeyFn(), g.key), ByOrder(), x))
      && (forall g, d :: g in r && d in g.items ==> ListingKey(d) == g.key)
      && (forall k :: multiset(Keys(r))[k] <= 1)
      && multiset(Flatten(r)) == multiset(docs)
  {
    var r := GroupDocsByCategory(docs);
    forall g | g in r
      ensures g.items != [] && Sorted(g.items, ByOrder())
      ensures forall x :: Class(g.items, ByOrder(), x) == Class(Select(docs, KeyFn(), g.key), ByOrder(), x)
      ensures forall d :: d in g.items ==> ListingKey(d) == g.key
    {
      ListedGroup(docs, g);
    }
    ListingKeysDistinct(docs);
    ListingCovers(docs);
  }

  /** One group of the listing. */
  lemma ListedGroup(docs: seq<Doc>, g: Group<string, Doc>)
    requires g in GroupDocsByCategory(docs)
    ensures g.items != [] && Sorted(g.items, ByOrder())
    ensures forall x :: Class(g.items, ByOrder(), x) == Class(Select(docs, KeyFn(), g.key), ByOrder(), x)
    ensures forall d :: d in g.items ==> ListingKey(d) == g.key
  {
    var gs := GroupBy(docs, KeyFn());
    ListedGroupIsBucket(docs, g);
    var i :| 0 <= i < |gs| && g == SortGroup(gs[i]);
    var h := gs[i];
    GroupByItems(docs, KeyFn());
    GroupByNonEmpty(docs, KeyFn());
    assert h.items == Select(docs, KeyFn(), h.key) && h.items != [];
    assert g.key == h.key && multiset(g.items) == multiset(h.items);
    forall d | d in g.items
      ensures ListingKey(d) == g.key
    {
      assert d in multiset(h.items);
      assert d in Select(docs, KeyFn(), h.key);
    }
  }

  lemma ListingKeysDistinct(docs: seq<Doc>)
    ensures forall k :: multiset(Keys(GroupDocsByCategory(docs)))[k] <= 1
  {
    var gs := GroupBy(docs, KeyFn());
    var bs := Buckets(docs);
    DistinctKeysCount(gs);
    assert Keys(bs) == Keys(gs);
    MapPermutation(KeyOf(), GroupDocsByCategory(docs), bs);
  }

  lemma ListingCovers(docs: seq<Doc>)
    ensures multiset(Flatten(GroupDocsByCategory(docs))) == multiset(docs)
  {
    var gs := GroupBy(docs, KeyFn());
    FlattenPermutation(GroupDocsByCategory(docs), Buckets(docs));
    SortedBucketsFlatten(gs);
    GroupByPartition(docs, KeyFn());
    NothingUnkeyed(docs);
  }

  lemma {:induction false} NothingUnkeyed(docs: seq<Doc>)
    ensures Unkeyed(docs, KeyFn()) == []
  {
    if docs != [] {
      NothingUnkeyed(docs[..|docs| - 1]);
    }
  }

  /** Sorting inside the groups keeps the items. */
  lemma {:induction false} SortedBucketsFlatten(gs: seq<Group<string, Doc>>)
    ensures multiset(Flatten(Map(SortGroupFn(), gs))) == multiset(Flatten(gs))
  {
    if gs != [] {
      SortedBucketsFlatten(gs[1..]);
      assert Map(SortGroupFn(), gs)[1..] == Map(SortGroupFn(), gs[1..]);
    }
  }

  /** The buckets, and so the groups with keys that are not array indices, appear in the
      order their categories are first met; the array-index groups come first, in
      ascending numeric order. */
  lemma ListingOrder(docs: seq<Doc>)
    ensures var bs := Buckets(docs);
      forall i, j :: 0 <= i < j < |bs| ==>
        FirstPos(docs, KeyFn(), bs[i].key) < FirstPos(docs, KeyFn(), bs[j].key)
    ensures var r := GroupDocsByCategory(docs);
      && (forall i, j :: 0 <= i < j < |r| && IsArrayIndex(r[j].key) ==>
            IsArrayIndex(r[i].key) && DigitsValue(r[i].key) <= DigitsValue(r[j].key))
      && forall x :: Class(r, ByKey(Rank), x) == Class(Buckets(docs), ByKey(Rank), x)
  {
    GroupByOrder(docs, KeyFn());
  }

  // ----- the as-written record -----

  /** The names a plain `{}` inherits from `Object.prototype`. */
  const PrototypeKeys: set<string> := {
    "constructor", "__defineGetter__", "__defineSetter__", "hasOwnProperty",
    "__lookupGetter__", "__lookupSetter__", "isPrototypeOf", "propertyIsEnumerable",
    "toString", "valueOf", "__proto__", "toLocaleString"}

  /** Some document is filed under a name `{}` inherits. */
  predicate AnyPrototypeKey(docs: seq<Doc>) {
    exists i :: 0 <= i < |docs| && ListingKey(docs[i]) in PrototypeKeys
  }

  /** The first `forEach` on the plain object `{}`: `grouped[category]` is an own group
      when one was made, otherwise for an inherited name it is a truthy function or
      object, so no group is made and `.push` is not a function. */
  function PlainObjectGroups(docs: seq<Doc>): (r: Result<seq<Group<string, Doc>>, string>)
    ensures r.Failure? <==> AnyPrototypeKey(docs)
    ensures r.Success? ==> r.value == GroupBy(docs, KeyFn())
  {
    if docs == [] then Success([])
    else
      var p := docs[..|docs| - 1];
      var d := docs[|docs| - 1];
      var k := ListingKey(d);
      PrototypeKeySnoc(docs);
      match PlainObjectGroups(p)
      case Failure(e) => Failure(e)
      case Success(g) =>
        if HasKey(g, k) then
          OwnKeyNotPrototype(p, k);
          Success(AddTo(g, k, d))
        else if k in PrototypeKeys then
          Failure("TypeError: grouped[category].push is not a function")
        else
          Success(AddTo(g, k, d))
  }

  lemma PrototypeKeySnoc(docs: seq<Doc>)
    requires docs != []
    ensures AnyPrototypeKey(docs) <==>
      AnyPrototypeKey(docs[..|docs| - 1]) || ListingKey(docs[|docs| - 1]) in PrototypeKeys
  {
    var p := docs[..|docs| - 1];
    forall i | 0 <= i < |p|
      ensures docs[i] == p[i]
    {
    }
    if ListingKey(docs[|p|]) in PrototypeKeys {
      assert AnyPrototypeKey(docs);
    }
  }

  /** A key that already has a group when no document so far is filed under an
      inherited name is not an inherited name. */
  lemma OwnKeyNotPrototype(p: seq<Doc>, k: string)
    requires !AnyPrototypeKey(p)
    requires HasKey(GroupBy(p, KeyFn()), k)
    ensures k !in PrototypeKeys
  {
    KeysComeFromDocs(p);
  }

  /** Every group's key is the key of some document. */
  lemma KeysComeFromDocs(p: seq<Doc>)
    ensures forall j :: 0 <= j < |GroupBy(p, KeyFn())| ==>
      exists i :: 0 <= i < |p| && ListingKey(p[i]) == GroupBy(p, KeyFn())[j].key
  {
    var gs := GroupBy(p, KeyFn());
    GroupByNonEmpty(p, KeyFn());
    GroupByItems(p, KeyFn());
    forall j | 0 <= j < |gs|
      ensures exists i :: 0 <= i < |p| && ListingKey(p[i]) == gs[j].key
    {
      var d := gs[j].items[0];
      assert d in Select(p, KeyFn(), gs[j].key);
    }
  }

  /** `groupDocsByCategory` as written, on a plain `{}`. */
  function GroupDocsByCategoryAsWritten(docs: seq<Doc>): (r: Result<seq<Group<string, Doc>>, string>)
    ensures r.Failure? <==> AnyPrototypeKey(docs)
    ensures r.Success? ==> r.value == GroupDocsByCategory(docs)
  {
    match PlainObjectGroups(docs)
    case Failure(e) => Failure(e)
    case Success(g) => Success(EntriesOrder(Map(SortGroupFn(), g)))
  }

  /** A document filed under "constructor" makes the listing throw, where the intended
      grouping simply shows it under that heading. */
  lemma PrototypeCategoryThrows(d: Doc)
    requires d.meta.category == Some("constructor")
    ensures GroupDocsByCategoryAsWritten([d]).Failure?
    ensures GroupDocsByCategory([d]) == [Group("constructor", [d])]
  {
    assert ListingKey([d][0]) in PrototypeKeys;
    assert GroupBy([d], KeyFn()) == [Group("constructor", [d])] by {
      assert [d][..0] == [];
    }
    var r := GroupDocsByCategory([d]);
    assert multiset(r) == multiset{Group("constructor", [d])};
    assert |r| == 1;
    assert r[0] in multiset(r);
  }

  // ----- links -----

  /** The href of a document card. */
  function DocCardHref(cfg: DocsflyConfig, d: Doc): (h: string)
    ensures h == OrElse(Config.DocsOf(cfg).baseUrl, "/docs") + "/" + d.slug
    ensures StartsWith(h, OrElse(Config.DocsOf(cfg).baseUrl, "/docs") + "/")
  {
    SlugHref(Config.DocsOf(cfg).baseUrl, "/docs", d.slug)
  }

  /** A card, a search result and the document's sidebar leaf all link to the same page. */
  lemma HrefsAgree(cfg: DocsflyConfig, d: Doc)
    ensures DocCardHref(cfg, d) == Search.ResultHref(cfg, d)
    ensures DocCardHref(cfg, d) == LeafOf(OrElse(Config.DocsOf(cfg).baseUrl, "/docs"), d).href
  {
  }
}
