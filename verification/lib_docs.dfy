/** The older copy of the document index in `lib/docs.ts`: the directory is always
    `docs`, the base URL always `/docs`, and the documents are always sorted by `order`.
    File handling, metadata and navigation building are the same code as the package's,
    so they are the `Docs` definitions. */
module LibDocs {
  import opened Wrappers
  import opened Strings
  import opened StableSort
  import opened Types
  import opened Docs

  /** `getAllDocs`, with `dir` the snapshot of `docs/`. */
  function LibGetAllDocs(dir: DocsDir): (r: seq<Doc>)
    ensures Indexed(dir).None? ==> r == []
    ensures Indexed(dir).Some? ==>
      var docs := Indexed(dir).value;
      && Sorted(r, ByOrder())
      && multiset(r) == multiset(docs)
      && forall x :: Class(r, ByOrder(), x) == Class(docs, ByOrder(), x)
  {
    match Indexed(dir)
    case None => []
    case Some(docs) => Sort(docs, ByOrder())
  }

  /** The copy agrees with the package whenever the package's configuration leaves
      sorting on. */
  lemma LibAgreesWithPackage(cfg: DocsflyConfig, dir: DocsDir)
    requires AutoSort(cfg)
    ensures LibGetAllDocs(dir) == GetAllDocs(cfg, dir)
  {
  }

  /** `getDocBySlug`: the file `slug + ".mdx"` of `docs/`. */
  function LibGetDocBySlug(dir: DocsDir, slug: string): (r: Option<Doc>)
    ensures r.Some? <==> ReadFile(dir, slug + ".mdx").Some?
    ensures r.Some? ==> r.value.slug == slug && r.value.path == slug + ".mdx"
  {
    GetDocBySlug(dir, slug)
  }

  /** `generateNavigation` under the fixed base `/docs`. */
  function LibGenerateNavigation(dir: DocsDir, le: (string, string) -> bool): (r: seq<NavItem>)
    requires TotalPreorder(le)
    ensures multiset(AllLeaves(r)) == multiset(Leaves("/docs", LibGetAllDocs(dir)))
  {
    NavigationLeafCount(LibGetAllDocs(dir), "/docs", le);
    BuildNavigation(LibGetAllDocs(dir), "/docs", le)
  }

  /** One leaf per document, each linking to `/docs/<slug>`. */
  lemma LibNavigationLeaves(dir: DocsDir, le: (string, string) -> bool)
    requires TotalPreorder(le)
    ensures var leaves := AllLeaves(LibGenerateNavigation(dir, le));
      && |leaves| == |LibGetAllDocs(dir)|
      && forall n :: n in leaves ==> exists d :: d in LibGetAllDocs(dir) && n.href == "/docs" + "/" + d.slug && n.title == d.meta.title
  {
    NavigationLeafCount(LibGetAllDocs(dir), "/docs", le);
    NavigationLeafLinks(LibGetAllDocs(dir), "/docs", le);
  }
}
