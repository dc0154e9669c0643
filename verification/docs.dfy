/** The document index of `packages/docsfly/src/docs.ts`: listing the `.mdx` files of the
    documents directory, turning each into a `Doc`, sorting by `order`, resolving a slug,
    and building the two-level sidebar navigation. The file system is a snapshot of the
    configured directory: its listing and, per file name, the parsed front matter and
    body (or a failure). */
module Docs {
  import opened Wrappers
  import opened Strings
  import opened StableSort
  import opened Grouping
  import opened Seqs
  import opened Types
  import Config

  /** Front matter as parsed; every key may be absent. */
  datatype FrontMatter = FrontMatter(
    title: Option<string>,
    description: Option<string>,
    order: Option<int>,
    category: Option<string>,
    tags: Option<seq<string>>,
    publishedAt: Option<string>,
    updatedAt: Option<string>)

  datatype Parsed = Parsed(data: FrontMatter, body: string)

  /** The documents directory: `listing` is what listing it returns (`None`: listing
      fails), `files` maps a name to its parsed content (`None`, or no entry: reading or
      parsing fails). */
  datatype DocsDir = DocsDir(listing: Option<seq<string>>, files: map<string, Option<Parsed>>)

  function ReadFile(dir: DocsDir, name: string): Option<Parsed> {
    if name in dir.files then dir.files[name] else None
  }

  const Ext := ".mdx"

  predicate IsMdx(name: string) {
    EndsWith(name, Ext)
  }

  /** `getMarkdownFiles`: the listing's `.mdx` names, in listing order. */
  function MdxFiles(names: seq<string>): (r: seq<string>)
    ensures r == Filter(IsMdx, names)
    ensures |r| <= |names|
    ensures forall f :: f in r <==> f in names && EndsWith(f, Ext)
  {
    var r := Filter(IsMdx, names);
    assert forall f :: f in r <==> multiset(r)[f] > 0;
    assert forall f :: f in names <==> multiset(names)[f] > 0;
    r
  }

  /** The slug of a file: its name with the first `.mdx` removed. */
  function SlugOf(file: string): string {
    ReplaceFirst(file, Ext, "")
  }

  /** The metadata of a document from its front matter: the title falls back to the slug
      with dashes as spaces, the order to 0, the tags to none. */
  function MetaOf(data: FrontMatter, slug: string): (m: DocMeta)
    ensures Truthy(data.title) ==> m.title == data.title.value
    ensures !Truthy(data.title) ==>
      && |m.title| == |slug|
      && forall i :: 0 <= i < |slug| ==> m.title[i] == (if slug[i] == '-' then ' ' else slug[i])
    ensures m.order.Some? && (data.order.Some? ==> m.order == data.order) && (data.order.None? ==> m.order == Some(0))
    ensures m.tags.Some? && (data.tags.Some? ==> m.tags == data.tags) && (data.tags.None? ==> m.tags == Some([]))
    ensures m.description == data.description && m.category == data.category
    ensures m.publishedAt == data.publishedAt && m.updatedAt == data.updatedAt
  {
    DocMeta(
      title := OrElse(data.title, ReplaceAllChar(slug, '-', ' ')),
      description := data.description,
      order := Some(data.order.GetOr(0)),
      category := data.category,
      tags := Some(data.tags.GetOr([])),
      publishedAt := data.publishedAt,
      updatedAt := data.updatedAt)
  }

  function DocOf(file: string, p: Parsed): (d: Doc)
    ensures d.path == file && d.slug == SlugOf(file) && d.content == p.body
    ensures d.meta == MetaOf(p.data, SlugOf(file))
  {
    Doc(SlugOf(file), MetaOf(p.data, SlugOf(file)), p.body, file)
  }

  /** Reads every file; like `Promise.all`, one failure fails the whole read. */
  function ReadAll(dir: DocsDir, files: seq<string>): (r: Option<seq<Doc>>)
    ensures r.Some? <==> forall i :: 0 <= i < |files| ==> ReadFile(dir, files[i]).Some?
    ensures r.Some? ==>
      && |r.value| == |files|
      && forall i :: 0 <= i < |files| ==> r.value[i] == DocOf(files[i], ReadFile(dir, files[i]).value)
  {
    if files == [] then Some([])
    else
      var pre, f := files[..|files| - 1], files[|files| - 1];
      assert forall i :: 0 <= i < |pre| ==> pre[i] == files[i];
      var init, last := ReadAll(dir, pre), ReadFile(dir, f);
      if init.Some? && last.Some? then Some(init.value + [DocOf(f, last.value)])
      else None
  }

  /** The documents of the directory in listing order, when listing and every read
      succeed. */
  function Indexed(dir: DocsDir): (r: Option<seq<Doc>>)
    ensures r.Some? <==>
      && dir.listing.Some?
      && forall i :: 0 <= i < |MdxFiles(dir.listing.value)| ==> ReadFile(dir, MdxFiles(dir.listing.value)[i]).Some?
    ensures r.Some? ==>
      && |r.value| == |MdxFiles(dir.listing.value)|
      && forall i :: 0 <= i < |r.value| ==>
           r.value[i] == DocOf(MdxFiles(dir.listing.value)[i], ReadFile(dir, MdxFiles(dir.listing.value)[i]).value)
    ensures r.Some? ==>
      forall d :: d in r.value ==> d.path in dir.listing.value && EndsWith(d.path, Ext) && d.slug == SlugOf(d.path)
  {
    if dir.listing.None? then None
    else
      var files := MdxFiles(dir.listing.value);
      var r := ReadAll(dir, files);
      assert r.Some? ==> forall d :: d in r.value ==> d.path in files && d.slug == SlugOf(d.path) by {
        if r.Some? {
          forall d | d in r.value
            ensures d.path in files && d.slug == SlugOf(d.path)
          {
            var i :| 0 <= i < |r.value| && r.value[i] == d;
            assert d.path == files[i];
          }
        }
      }
      r
  }

  /** The comparator of `getAllDocs`: `a.meta.order - b.meta.order`. */
  function ByOrder(): (le: (Doc, Doc) -> bool)
    ensures TotalPreorder(le)
    ensures forall a, b :: le(a, b) <==> OrderOf(a) <= OrderOf(b)
  {
    ByKeyIsTotalPreorder(OrderOf);
    ByKey(OrderOf)
  }

  /** `config.docs.sidebar?.autoSort !== false`. */
  predicate AutoSort(cfg: DocsflyConfig) {
    Config.SidebarOf(cfg).autoSort != Some(false)
  }

  /** `getAllDocs` for the configuration `cfg`, with `dir` the snapshot of the directory
      `cfg.docs.dir`: any failure yields no documents; otherwise the documents come sorted
      stably by `order` unless the sidebar switches sorting off. */
  function GetAllDocs(cfg: DocsflyConfig, dir: DocsDir): (r: seq<Doc>)
    ensures Indexed(dir).None? ==> r == []
    ensures Indexed(dir).Some? && !AutoSort(cfg) ==> r == Indexed(dir).value
    ensures Indexed(dir).Some? && AutoSort(cfg) ==>
      var docs := Indexed(dir).value;
      && Sorted(r, ByOrder())
      && multiset(r) == multiset(docs)
      && forall x :: Class(r, ByOrder(), x) == Class(docs, ByOrder(), x)
    ensures forall d :: d in r ==> d.path in dir.listing.value && EndsWith(d.path, Ext) && d.slug == SlugOf(d.path)
  {
    match Indexed(dir)
    case None => []
    case Some(docs) =>
      if AutoSort(cfg) then
        var r := Sort(docs, ByOrder());
        assert forall d :: d in r ==> d in docs by {
          forall d | d in r ensures d in docs {
            assert d in multiset(r);
          }
        }
        r
      else docs
  }

  /** `getDocBySlug`: reads `slug + ".mdx"` alone, whether or not it is listed. */
  function GetDocBySlug(dir: DocsDir, slug: string): (r: Option<Doc>)
    ensures r.Some? <==> ReadFile(dir, slug + Ext).Some?
    ensures r.Some? ==> && r.value.slug == slug && r.value.path == slug + Ext
                        && r.value.meta == MetaOf(ReadFile(dir, slug + Ext).value.data, slug)
                        && r.value.content == ReadFile(dir, slug + Ext).value.body
  {
    match ReadFile(dir, slug + Ext)
    case None => None
    case Some(p) => Some(Doc(slug, MetaOf(p.data, slug), p.body, slug + Ext))
  }

  /** A listed document resolves back to itself by its slug exactly when removing the
      first `.mdx` from its file name and appending `.mdx` again gives the name back. */
  lemma ListedDocResolves(cfg: DocsflyConfig, dir: DocsDir, d: Doc)
    requires d in GetAllDocs(cfg, dir)
    ensures GetDocBySlug(dir, d.slug) == Some(d) <==> d.slug + Ext == d.path
  {
    ListedIsIndexed(cfg, dir, d);
    IndexedDocRead(dir, d);
  }

  /** Sorting only reorders: every listed document is an indexed one. */
  lemma ListedIsIndexed(cfg: DocsflyConfig, dir: DocsDir, d: Doc)
    requires d in GetAllDocs(cfg, dir)
    ensures Indexed(dir).Some? && d in Indexed(dir).value
  {
    if AutoSort(cfg) {
      assert d in multiset(GetAllDocs(cfg, dir));
    }
  }

  /** An indexed document is what reading its own file gives. */
  lemma IndexedDocRead(dir: DocsDir, d: Doc)
    requires Indexed(dir).Some? && d in Indexed(dir).value
    ensures ReadFile(dir, d.path).Some? && d == DocOf(d.path, ReadFile(dir, d.path).value)
  {
    var docs := Indexed(dir).value;
    var files := MdxFiles(dir.listing.value);
    var i :| 0 <= i < |docs| && docs[i] == d;
    assert d == DocOf(files[i], ReadFile(dir, files[i]).value);
  }

  /** A file name with `.mdx` only at its end round-trips through its slug. */
  lemma SlugRoundTrip(file: string)
    requires EndsWith(file, Ext)
    requires forall j :: 0 <= j < |file| - |Ext| ==> !OccursAt(file, Ext, j)
    ensures SlugOf(file) + Ext == file
  {
    var i := IndexOf(file, Ext);
    assert OccursAt(file, Ext, |file| - |Ext|);
    assert i == |file| - |Ext|;
    assert file == file[..i] + Ext;
  }

  /** `a.mdxb.mdx` has slug `ab.mdx`, which resolves to the file `ab.mdx.mdx`. */
  lemma SlugNotRoundTrip()
    ensures SlugOf("a.mdxb.mdx") == "ab.mdx"
    ensures SlugOf("a.mdxb.mdx") + Ext != "a.mdxb.mdx"
  {
    FirstMdxAtOne();
    SlugAt("a.mdxb.mdx", 1);
    CutMdxAtOne();
    ResolvedNameDiffers();
  }

  lemma FirstMdxAtOne()
    ensures OccursAt("a.mdxb.mdx", Ext, 1)
    ensures forall j :: 0 <= j < 1 ==> !OccursAt("a.mdxb.mdx", Ext, j)
  {
    var f := "a.mdxb.mdx";
    assert f[0..4][0] == 'a';
    assert f[1..5] == Ext;
  }

  lemma CutMdxAtOne()
    ensures "a.mdxb.mdx"[..1] + "a.mdxb.mdx"[1 + |Ext|..] == "ab.mdx"
  {
    var f := "a.mdxb.mdx";
    assert f[..1] == "a" && f[5..] == "b.mdx";
    assert "a" + "b.mdx" == "ab.mdx";
  }

  lemma ResolvedNameDiffers()
    ensures "ab.mdx" + Ext != "a.mdxb.mdx"
  {
    assert ("ab.mdx" + Ext)[1] == 'b' != "a.mdxb.mdx"[1];
  }

  /** The slug of a file whose first `.mdx` starts at `i`. */
  lemma SlugAt(file: string, i: nat)
    requires OccursAt(file, Ext, i)
    requires forall j :: 0 <= j < i ==> !OccursAt(file, Ext, j)
    ensures SlugOf(file) == file[..i] + file[i + |Ext|..]
  {
    assert Contains(file, Ext);
    assert IndexOf(file, Ext) == i;
  }

  // ----- navigation -----

  /** The sidebar leaf of a document. */
  function LeafOf(base: string, d: Doc): (n: NavItem)
    ensures n.title == d.meta.title && n.children.None?
    ensures n.href == base + "/" + d.slug
  {
    NavItem(d.meta.title, base + "/" + d.slug, None, None, None)
  }

  function LeafFn(base: string): Doc -> NavItem {
    (d: Doc) => LeafOf(base, d)
  }

  function Leaves(base: string, docs: seq<Doc>): (r: seq<NavItem>)
    ensures |r| == |docs| && forall i :: 0 <= i < |docs| ==> r[i] == LeafOf(base, docs[i])
  {
    Map(LeafFn(base), docs)
  }

  /** The category a document is filed under: its category when that is a non-empty
      string, none otherwise. */
  function CategoryOf(d: Doc): (k: Option<string>)
    ensures k.Some? <==> Truthy(d.meta.category)
    ensures k.Some? ==> k.value == d.meta.category.value
  {
    if Truthy(d.meta.category) then Some(d.meta.category.value) else None
  }

  /** `(a, b) => a.title.localeCompare(b.title) <= 0`, for a collation `le` on strings. */
  function ByTitle(le: (string, string) -> bool): (r: (NavItem, NavItem) -> bool)
    ensures forall a, b :: r(a, b) <==> le(a.title, b.title)
  {
    (a: NavItem, b: NavItem) => le(a.title, b.title)
  }

  lemma ByTitleIsTotalPreorder(le: (string, string) -> bool)
    requires TotalPreorder(le)
    ensures TotalPreorder(ByTitle(le))
  {
  }

  /** A category node: titled by the category, linking nowhere, holding the leaves of its
      documents sorted by title. */
  function CategoryNode(g: Group<string, Doc>, base: string, le: (string, string) -> bool): (n: NavItem)
    requires TotalPreorder(le)
    ensures n.title == g.key && n.href == "#" && n.children.Some?
  {
    ByTitleIsTotalPreorder(le);
    NavItem(g.key, "#", Some(Sort(Leaves(base, g.items), ByTitle(le))), None, None)
  }

  function CategoryNodes(gs: seq<Group<string, Doc>>, base: string, le: (string, string) -> bool)
    : (r: seq<NavItem>)
    requires TotalPreorder(le)
    ensures |r| == |gs| && forall i :: 0 <= i < |gs| ==> r[i] == CategoryNode(gs[i], base, le)
  {
    Map((g: Group<string, Doc>) requires TotalPreorder(le) => CategoryNode(g, base, le), gs)
  }

  /** The navigation of `generateNavigation` for the documents `docs` under the base URL
      `base`: one node per category in the order categories are first met, then the
      uncategorised leaves sorted by title. */
  function BuildNavigation(docs: seq<Doc>, base: string, le: (string, string) -> bool): (r: seq<NavItem>)
    requires TotalPreorder(le)
    ensures |r| == |GroupBy(docs, CategoryOf)| + |Unkeyed(docs, CategoryOf)|
    ensures forall i :: 0 <= i < |GroupBy(docs, CategoryOf)| ==>
      r[i].href == "#" && r[i].title == GroupBy(docs, CategoryOf)[i].key && r[i].children.Some?
    ensures forall i :: |GroupBy(docs, CategoryOf)| <= i < |r| ==> r[i].children.None?
  {
    CategoryNodes(GroupBy(docs, CategoryOf), base, le) + TopLevelLeaves(docs, base, le)
  }

  /** The leaves of the uncategorised documents, sorted by title. */
  function TopLevelLeaves(docs: seq<Doc>, base: string, le: (string, string) -> bool): (r: seq<NavItem>)
    requires TotalPreorder(le)
    ensures multiset(r) == multiset(Leaves(base, Unkeyed(docs, CategoryOf)))
    ensures |r| == |Unkeyed(docs, CategoryOf)|
    ensures forall i, j :: 0 <= i < j < |r| ==> le(r[i].title, r[j].title)
    ensures forall i :: 0 <= i < |r| ==> r[i].children.None?
  {
    ByTitleIsTotalPreorder(le);
    var r := Sort(Leaves(base, Unkeyed(docs, CategoryOf)), ByTitle(le));
    assert forall i, j :: 0 <= i < j < |r| ==> ByTitle(le)(r[i], r[j]);
    forall i | 0 <= i < |r|
      ensures r[i].children.None?
    {
      assert r[i] in multiset(Leaves(base, Unkeyed(docs, CategoryOf)));
    }
    r
  }

  /** `generateNavigation`: the navigation of `getAllDocs` under `baseUrl || "/docs"`. */
  function GenerateNavigation(cfg: DocsflyConfig, dir: DocsDir, le: (string, string) -> bool): (r: seq<NavItem>)
    requires TotalPreorder(le)
    ensures multiset(AllLeaves(r)) == multiset(Leaves(OrElse(Config.DocsOf(cfg).baseUrl, "/docs"), GetAllDocs(cfg, dir)))
    ensures |AllLeaves(r)| == |GetAllDocs(cfg, dir)|
    ensures forall n :: n in AllLeaves(r) ==>
      exists d :: d in GetAllDocs(cfg, dir) && n.href == OrElse(Config.DocsOf(cfg).baseUrl, "/docs") + "/" + d.slug && n.title == d.meta.title
  {
    var docs, base := GetAllDocs(cfg, dir), OrElse(Config.DocsOf(cfg).baseUrl, "/docs");
    NavigationLeafCount(docs, base, le);
    NavigationLeafLinks(docs, base, le);
    BuildNavigation(docs, base, le)
  }

  /** The leaves of a navigation: the children of each node that has children, and each
      other node itself. */
  function AllLeaves(items: seq<NavItem>): seq<NavItem> {
    if items == [] then []
    else (if items[0].children.Some? then items[0].children.value else [items[0]]) + AllLeaves(items[1..])
  }

  lemma {:induction false} AllLeavesConcat(a: seq<NavItem>, b: seq<NavItem>)
    ensures AllLeaves(a + b) == AllLeaves(a) + AllLeaves(b)
  {
    if a != [] {
      assert (a + b)[0] == a[0];
      assert (a + b)[1..] == a[1..] + b;
      AllLeavesConcat(a[1..], b);
    } else {
      assert a + b == b;
    }
  }

  lemma {:induction false} AllLeavesOfLeaves(items: seq<NavItem>)
    requires forall i :: 0 <= i < |items| ==> items[i].children.None?
    ensures AllLeaves(items) == items
  {
    if items != [] {
      AllLeavesOfLeaves(items[1..]);
    }
  }

  lemma LeavesConcat(base: string, a: seq<Doc>, b: seq<Doc>)
    ensures Leaves(base, a + b) == Leaves(base, a) + Leaves(base, b)
  {
  }

  lemma {:induction false} CategoryLeaves(gs: seq<Group<string, Doc>>, base: string, le: (string, string) -> bool)
    requires TotalPreorder(le)
    ensures multiset(AllLeaves(CategoryNodes(gs, base, le))) == multiset(Leaves(base, Flatten(gs)))
  {
    if gs != [] {
      var nodes := CategoryNodes(gs, base, le);
      assert nodes[1..] == CategoryNodes(gs[1..], base, le);
      CategoryLeaves(gs[1..], base, le);
      LeavesConcat(base, gs[0].items, Flatten(gs[1..]));
      ByTitleIsTotalPreorder(le);
      assert nodes[0].children.value == Sort(Leaves(base, gs[0].items), ByTitle(le));
    }
  }

  /** Top-level shape: the first `|GroupBy(docs)|` entries are category nodes (`href "#"`)
      titled by the categories in the order they are first met, each with at least one
      child; every later entry is a document leaf. */
  lemma NavigationShape(docs: seq<Doc>, base: string, le: (string, string) -> bool)
    requires TotalPreorder(le)
    ensures var r, gs := BuildNavigation(docs, base, le), GroupBy(docs, CategoryOf);
      && |r| == |gs| + |Unkeyed(docs, CategoryOf)|
      && (forall i :: 0 <= i < |gs| ==>
            r[i].href == "#" && r[i].children.Some? && r[i].children.value != [] && r[i].title == gs[i].key)
      && (forall i :: |gs| <= i < |r| ==>
            r[i].children.None? && r[i].href != "#" && exists d :: d in docs && !Truthy(d.meta.category) && r[i] == LeafOf(base, d))
  {
    NavigationHead(docs, base, le);
    NavigationTail(docs, base, le);
  }

  lemma NavigationHead(docs: seq<Doc>, base: string, le: (string, string) -> bool)
    requires TotalPreorder(le)
    ensures var r, gs := BuildNavigation(docs, base, le), GroupBy(docs, CategoryOf);
      forall i :: 0 <= i < |gs| ==> r[i].children.Some? && r[i].children.value != []
  {
    var r, gs := BuildNavigation(docs, base, le), GroupBy(docs, CategoryOf);
    var nodes := CategoryNodes(gs, base, le);
    assert r == nodes + TopLevelLeaves(docs, base, le);
    GroupByNonEmpty(docs, CategoryOf);
    NodesShape(gs, base, le);
    forall i | 0 <= i < |gs|
      ensures r[i].children.Some? && r[i].children.value != []
    {
      assert r[i] == nodes[i];
    }
  }

  lemma NavigationTail(docs: seq<Doc>, base: string, le: (string, string) -> bool)
    requires TotalPreorder(le)
    ensures var r, k := BuildNavigation(docs, base, le), |GroupBy(docs, CategoryOf)|;
      forall i :: k <= i < |r| ==> TopLeafOf(docs, base, r[i])
  {
    var r, k := BuildNavigation(docs, base, le), |GroupBy(docs, CategoryOf)|;
    var nodes, tail := CategoryNodes(GroupBy(docs, CategoryOf), base, le), TopLevelLeaves(docs, base, le);
    assert r == nodes + tail;
    TopLeaves(docs, base, le);
    TopLeavesAfter(docs, base, nodes, tail);
  }

  lemma TopLeavesAfter(docs: seq<Doc>, base: string, nodes: seq<NavItem>, tail: seq<NavItem>)
    requires forall i :: 0 <= i < |tail| ==> TopLeafOf(docs, base, tail[i])
    ensures forall i :: |nodes| <= i < |nodes + tail| ==> TopLeafOf(docs, base, (nodes + tail)[i])
  {
    forall i | |nodes| <= i < |nodes + tail|
      ensures TopLeafOf(docs, base, (nodes + tail)[i])
    {
      assert (nodes + tail)[i] == tail[i - |nodes|];
    }
  }

  /** `n` is the leaf of an uncategorised document. */
  predicate TopLeafOf(docs: seq<Doc>, base: string, n: NavItem) {
    n.href != "#" && exists d :: d in docs && !Truthy(d.meta.category) && n == LeafOf(base, d)
  }

  lemma NodesShape(gs: seq<Group<string, Doc>>, base: string, le: (string, string) -> bool)
    requires TotalPreorder(le)
    requires forall i :: 0 <= i < |gs| ==> gs[i].items != []
    ensures var nodes := CategoryNodes(gs, base, le);
      forall i :: 0 <= i < |gs| ==>
        nodes[i].href == "#" && nodes[i].children.Some? && nodes[i].children.value != [] && nodes[i].title == gs[i].key
  {
    var nodes := CategoryNodes(gs, base, le);
    forall i | 0 <= i < |gs|
      ensures nodes[i].children.Some? && nodes[i].children.value != []
    {
      assert nodes[i] == CategoryNode(gs[i], base, le);
      assert |nodes[i].children.value| == |Leaves(base, gs[i].items)| == |gs[i].items|;
    }
  }

  /** The uncategorised leaves are leaves of uncategorised documents. */
  lemma TopLeaves(docs: seq<Doc>, base: string, le: (string, string) -> bool)
    requires TotalPreorder(le)
    ensures var tail := TopLevelLeaves(docs, base, le);
      forall i :: 0 <= i < |tail| ==> TopLeafOf(docs, base, tail[i])
  {
    ByTitleIsTotalPreorder(le);
    var un := Unkeyed(docs, CategoryOf);
    var tail := Sort(Leaves(base, un), ByTitle(le));
    forall i | 0 <= i < |tail|
      ensures TopLeafOf(docs, base, tail[i])
    {
      assert tail[i] in multiset(Leaves(base, un));
      var j :| 0 <= j < |un| && Leaves(base, un)[j] == tail[i];
      assert un[j] in un;
      var href := tail[i].href;
      assert href == base + "/" + un[j].slug;
      assert href[|base|] == '/';
    }
  }

  /** Category nodes appear in the order their categories are first met in `docs`, each
      category once, and every category some document is filed under has a node. */
  lemma NavigationCategoryOrder(docs: seq<Doc>, base: string, le: (string, string) -> bool)
    requires TotalPreorder(le)
    ensures var r, k := BuildNavigation(docs, base, le), |GroupBy(docs, CategoryOf)|;
      && (forall i, j :: 0 <= i < j < k ==>
            FirstPos(docs, CategoryOf, r[i].title) < FirstPos(docs, CategoryOf, r[j].title))
      && (forall i :: 0 <= i < k ==> FirstPos(docs, CategoryOf, r[i].title) < |docs|)
      && (forall d :: d in docs && Truthy(d.meta.category) ==>
            exists i :: 0 <= i < k && r[i].title == d.meta.category.value)
  {
    var r, gs := BuildNavigation(docs, base, le), GroupBy(docs, CategoryOf);
    NavigationShape(docs, base, le);
    GroupByOrder(docs, CategoryOf);
    GroupByCovers(docs, CategoryOf);
    forall i | 0 <= i < |gs|
      ensures FirstPos(docs, CategoryOf, r[i].title) < |docs|
    {
      GroupByKeyOccurs(docs, CategoryOf, i);
    }
    forall d | d in docs && Truthy(d.meta.category)
      ensures exists i :: 0 <= i < |gs| && r[i].title == d.meta.category.value
    {
      var j :| 0 <= j < |docs| && docs[j] == d;
      assert CategoryOf(docs[j]).Some?;
      var i :| 0 <= i < |gs| && gs[i].key == CategoryOf(docs[j]).value;
      assert r[i].title == gs[i].key;
    }
  }

  /** The children of each category node are that category's documents as leaves, sorted
      by title, documents with equal titles in `docs` order; the same holds for the
      top-level leaves and the uncategorised documents. */
  lemma NavigationSorted(docs: seq<Doc>, base: string, le: (string, string) -> bool)
    requires TotalPreorder(le)
    ensures var r, k := BuildNavigation(docs, base, le), |GroupBy(docs, CategoryOf)|;
      && (forall i :: 0 <= i < k ==>
            var ch, src := r[i].children.value, Leaves(base, Select(docs, CategoryOf, r[i].title));
            && Sorted(ch, ByTitle(le))
            && multiset(ch) == multiset(src)
            && forall x :: Class(ch, ByTitle(le), x) == Class(src, ByTitle(le), x))
      && var top, src := r[k..], Leaves(base, Unkeyed(docs, CategoryOf));
         && Sorted(top, ByTitle(le))
         && multiset(top) == multiset(src)
         && forall x :: Class(top, ByTitle(le), x) == Class(src, ByTitle(le), x)
  {
    var r, gs := BuildNavigation(docs, base, le), GroupBy(docs, CategoryOf);
    ByTitleIsTotalPreorder(le);
    assert r[|gs|..] == Sort(Leaves(base, Unkeyed(docs, CategoryOf)), ByTitle(le));
    GroupByItems(docs, CategoryOf);
    forall i | 0 <= i < |gs|
      ensures r[i].children.value == Sort(Leaves(base, Select(docs, CategoryOf, r[i].title)), ByTitle(le))
    {
      assert r[i] == CategoryNode(gs[i], base, le);
    }
  }

  /** Every document has exactly one leaf: the leaves of the navigation are a permutation
      of the documents' leaves. */
  lemma NavigationLeafCount(docs: seq<Doc>, base: string, le: (string, string) -> bool)
    requires TotalPreorder(le)
    ensures multiset(AllLeaves(BuildNavigation(docs, base, le))) == multiset(Leaves(base, docs))
    ensures |AllLeaves(BuildNavigation(docs, base, le))| == |docs|
  {
    var gs, un := GroupBy(docs, CategoryOf), Unkeyed(docs, CategoryOf);
    ByTitleIsTotalPreorder(le);
    var nodes := CategoryNodes(gs, base, le);
    var tail := Sort(Leaves(base, un), ByTitle(le));
    var r := BuildNavigation(docs, base, le);
    assert r == nodes + tail;
    AllLeavesConcat(nodes, tail);
    forall i | 0 <= i < |tail|
      ensures tail[i].children.None?
    {
      assert tail[i] in multiset(Leaves(base, un));
    }
    AllLeavesOfLeaves(tail);
    CategoryLeaves(gs, base, le);
    GroupByPartition(docs, CategoryOf);
    MapPermutation(LeafFn(base), Flatten(gs) + un, docs);
    LeavesConcat(base, Flatten(gs), un);
    assert |AllLeaves(r)| == |multiset(AllLeaves(r))| == |multiset(Leaves(base, docs))| == |docs|;
  }

  /** Every leaf of the navigation links to `base + "/" + slug` of a document and carries
      its title. */
  lemma NavigationLeafLinks(docs: seq<Doc>, base: string, le: (string, string) -> bool)
    requires TotalPreorder(le)
    ensures forall n :: n in AllLeaves(BuildNavigation(docs, base, le)) ==>
      exists d :: d in docs && n.href == base + "/" + d.slug && n.title == d.meta.title
  {
    NavigationLeafCount(docs, base, le);
    var leaves := AllLeaves(BuildNavigation(docs, base, le));
    forall n | n in leaves
      ensures exists d :: d in docs && n.href == base + "/" + d.slug && n.title == d.meta.title
    {
      assert n in multiset(Leaves(base, docs));
      var i :| 0 <= i < |docs| && Leaves(base, docs)[i] == n;
      assert docs[i] in docs;
    }
  }
}
