# Docsfly core, modelled in Dafny

Docsfly is a documentation framework for Next.js. It turns a directory of `.mdx` files
into a document index and a sidebar navigation, merges a user configuration with its
defaults, watches the content directories during development, and ships client components
for search, listings, the sidebar and blog posts. A separate command scaffolds new
projects. This project models the pure decisions of that core as Dafny functions over
immutable data and proves what the code promises about them.

Modules, one per source concern:

- `Wrappers`, `Strings`, `Seqs`: `Option`/`Result`, and the JavaScript string operations
  the code uses (`startsWith`, `endsWith`, `includes`, `replace` with a string pattern,
  `x || fallback`). Also sequence `Map`/`Filter`.
- `StableSort`: `Array.prototype.sort`. With a consistent comparator it is a stable sort,
  so it is modelled as insertion sort over a total preorder. Its contract states the
  result is sorted, is a permutation, and keeps every class of equivalent elements in its
  original order.
- `Grouping`: grouping by key in first-seen order, which is what the code gets from a
  `Map` and from insertion-ordered object keys.
- `Types`, `Config`: the configuration records, `mergeWithDefaults`, the defaults, and
  the memoised `loadConfig`/`getConfig`. Every configuration field is an `Option`;
  `None` is an absent key, and a present key always holds a defined value.
- `Docs`, `LibDocs`: `getAllDocs`, `getDocBySlug` and `generateNavigation` of the package,
  and the older copy in `lib/docs.ts`. The directory is a snapshot: its listing and the
  parsed front matter of each file, where a `None` is a read that throws.
- `HotReload`, `ReloadCache`: the development file watcher as a state machine, and the
  global hot-reload cache with the clock passed in.
- `Search`, `DocsListing`, `NavigationItem`, `BlogPost`: the decisions inside the client
  components.
- `CreateApp`: package-manager detection, project location and the install/git flags of
  the scaffolding command.
- `WithDocsfly`: the Next.js configuration wrapper.

`localeCompare` is an abstract total preorder `le`, and `toLowerCase` an abstract
function `lower`. Environment facts are parameters: the user agent, which files exist,
the working directory, development mode, whether the code runs in a browser, and the
current time.

## Model

| member | source | states |
|---|---|---|
| StableSort.Sort | packages/docsfly/src/docs.ts:37 | The sorted array is ordered by the comparator, is a permutation of the input, and keeps equal-ranked elements in their original relative order (stability). |
| StableSort.SortByFlag | packages/docsfly/src/components/search.tsx:41-48 | Sorting by a comparator that only separates "flag" from "not flag" puts the flagged elements first, then the rest, each part in its original order. |
| Grouping.GroupBy | packages/docsfly/src/docs.ts:79-94 | Grouping in first-seen order never yields two groups with the same key. |
| Grouping.GroupByItems | packages/docsfly/src/docs.ts:86-93 | Each group holds exactly the elements with its key, in their original order. |
| Grouping.GroupByOrder | packages/docsfly/src/docs.ts:76-90 | Groups come in the order their keys are first met, which is the order a `Map` enumerates its insertion keys. |
| Grouping.GroupByPartition | packages/docsfly/src/docs.ts:79-94 | The grouped elements and the key-less ones together are a permutation of the input. |
| Config.MergeWithDefaults | packages/docsfly/src/config.ts:117-172 | The merged configuration is well-formed and has every top-level section. |
| Config.MergeLaw | packages/docsfly/src/config.ts:117-172 | At every setting outside `header`, the merge gives the user's value if present, else the default. `header` is taken whole from the user when present. |
| Config.SectionwiseLaw | packages/docsfly/src/config.ts:117-172 | Any configuration that is the section-by-section spread of `u` over `d` sees `u`'s value at each setting when present, and `d`'s otherwise. |
| Config.HeaderNotDeepMerged | packages/docsfly/src/config.ts:121-122 | A user header without links loses the default header links. A user `docs` section without `baseUrl` keeps the default `/docs`. |
| Config.MergeEmpty | packages/docsfly/src/config.ts:117-245 | Merging the empty configuration yields exactly the defaults. |
| Config.MergeIdempotent | packages/docsfly/src/config.ts:117-172 | Merging an already merged configuration changes nothing. |
| Config.DefaultsValues | packages/docsfly/src/config.ts:174-245 | The defaults are well-formed, with docs dir `docs`, base URL `/docs`, auto-sort on, and blog and versions disabled. |
| Config.Defaults | packages/docsfly/src/config.ts:174-245 | The defaults are well-formed and have every section: docs in `docs` under `/docs` with auto-sort on, the blog off in `blog` under `/blog` with 10 posts per page, versions off, and the light theme. |
| Config.FirstAttempt | packages/docsfly/src/config.ts:54-93 | The loaded configuration is the first loading attempt that does not throw; it is absent only when every attempt throws. |
| Config.FirstLoaded | packages/docsfly/src/config.ts:45-106 | The first candidate file that loads wins. No configuration results only when no candidate loads. |
| Config.LoadFromDisk | packages/docsfly/src/config.ts:32-114 | In a browser, or when the loader's dependencies fail, the result is the defaults. Otherwise it is the merge of `.js` if that loads, else `.ts`, else the defaults. |
| Config.LoadConfig | packages/docsfly/src/config.ts:23-30 | A memo is returned unless reloading is forced. Otherwise the configuration is loaded afresh. Either way it is memoised. |
| Config.ClearConfigCache | packages/docsfly/src/config.ts:5-6 | Clearing empties the memo. |
| Config.GetConfig | packages/docsfly/src/config.ts:247-251 | The memo slot always ends holding the returned configuration. In development mode every call reloads from disk. Otherwise a forced call or an empty memo loads from disk, and an unforced call with a memo returns the memo. |
| Config.MemoStaysWellFormed | packages/docsfly/src/config.ts:23-114 | The memo and the returned configuration are always well-formed. |
| Config.MemoStable | packages/docsfly/src/config.ts:24-26 | After one load, a call without force returns the same configuration and keeps the memo, whatever is on disk. |
| Docs.MdxFiles | packages/docsfly/src/docs.ts:113-116 | The result is the listing filtered by the `.mdx` suffix, keeping listing order: exactly the listed names ending in `.mdx`. |
| Docs.MetaOf | packages/docsfly/src/docs.ts:21-29 | The title comes from front matter if non-empty, else the slug with hyphens as spaces. `order` falls back to 0 and `tags` to `[]`. The other fields are copied. |
| Docs.DocOf | packages/docsfly/src/docs.ts:19-32 | A document's path is its file, its slug is the file name minus the first `.mdx`, its content is the body, and its metadata is the parsed front matter. |
| Docs.ReadAll | packages/docsfly/src/docs.ts:13-34 | Reading succeeds iff every file reads. The documents then follow the file order one-to-one. |
| Docs.Indexed | packages/docsfly/src/docs.ts:11-34 | Indexing succeeds iff the listing succeeds and every `.mdx` file reads. The i-th document is then read from the i-th `.mdx` name, so every document is a listed `.mdx` file with the slug derived from its name. |
| Docs.ByOrder | packages/docsfly/src/docs.ts:37 | The order comparator is a total preorder that compares `meta.order`. |
| Docs.GetAllDocs | packages/docsfly/src/docs.ts:7-43 | Any listing or read failure yields no documents. Otherwise the documents are stably sorted by `order` unless `autoSort` is `false`, when they stay in listing order. |
| Docs.GetDocBySlug | packages/docsfly/src/docs.ts:45-71 | A document is returned iff `slug.mdx` reads, with that slug and path. |
| Docs.ListedDocResolves | packages/docsfly/src/docs.ts:20 | A listed document is found again by its slug iff its slug plus `.mdx` is its path. |
| Docs.SlugRoundTrip | packages/docsfly/src/docs.ts:20 | For a file whose only `.mdx` is the final one, the slug plus `.mdx` gives back the file name. |
| Docs.SlugNotRoundTrip | packages/docsfly/src/docs.ts:20 | `a.mdxb.mdx` gets the slug `ab.mdx`, which does not lead back to the file. |
| Docs.LeafOf | packages/docsfly/src/docs.ts:80-84 | A document's leaf has the document's title and links to `baseUrl/slug`. |
| Docs.Leaves | packages/docsfly/src/docs.ts:79-84 | There is one leaf per document, in document order. |
| Docs.CategoryOf | packages/docsfly/src/docs.ts:86 | A document is categorised iff its category is non-empty. |
| Docs.ByTitle | packages/docsfly/src/docs.ts:103 | Navigation items compare by their titles. |
| Docs.ByTitleIsTotalPreorder | packages/docsfly/src/docs.ts:103 | Comparing titles by a total preorder is a total preorder on items. |
| Docs.CategoryNode | packages/docsfly/src/docs.ts:100-104 | A category node is titled by its category, links to `#`, and has children. |
| Docs.CategoryNodes | packages/docsfly/src/docs.ts:99-105 | There is one node per category group, in group order. |
| Docs.TopLevelLeaves | packages/docsfly/src/docs.ts:91-108 | The top-level leaves are the uncategorised documents' leaves, one each, reordered so titles ascend under the comparator. None has children. |
| Docs.BuildNavigation | packages/docsfly/src/docs.ts:96-110 | The navigation has one entry per category plus one per uncategorised document. The category entries come first, link to `#`, carry the category as title and have children; the rest have none. |
| Docs.GenerateNavigation | packages/docsfly/src/docs.ts:73-111 | The sidebar's leaves are exactly the leaves of the indexed documents under `docs.baseUrl or /docs`, one per document, each linking to `base/slug` of a document and carrying its title. |
| Docs.CategoryLeaves | packages/docsfly/src/docs.ts:99-105 | The category nodes' leaves are, as a multiset, the leaves of the grouped documents. |
| Docs.NavigationShape | packages/docsfly/src/docs.ts:73-111 | The navigation is one `#` node per category, each with non-empty children, then one leaf per uncategorised document. |
| Docs.NavigationCategoryOrder | packages/docsfly/src/docs.ts:76-105 | Category nodes appear in the order their categories are first met, and every category of a document has a node. |
| Docs.NavigationSorted | packages/docsfly/src/docs.ts:99-108 | Each node's children, and the top-level leaves, are a stable sort by title of the corresponding documents' leaves. |
| Docs.NavigationLeafCount | packages/docsfly/src/docs.ts:79-108 | The navigation's leaves are exactly the documents' leaves: one per document, none lost or duplicated. |
| Docs.NavigationLeafLinks | packages/docsfly/src/docs.ts:80-84 | Every leaf links to `baseUrl/slug` of a document and carries its title. |
| LibDocs.LibGetAllDocs | lib/docs.ts:28-61 | The older index yields no documents on any failure. Otherwise it is always sorted stably by `order`. |
| LibDocs.LibAgreesWithPackage | lib/docs.ts:56 | The older index equals the package's whenever auto-sort is on. |
| LibDocs.LibGetDocBySlug | lib/docs.ts:63-88 | A document is returned iff `slug.mdx` reads, with that slug and path. |
| LibDocs.LibGenerateNavigation | lib/docs.ts:90-126 | The older sidebar's leaves are, as a multiset, the leaves of the older index's documents under the fixed `/docs`. |
| LibDocs.LibNavigationLeaves | lib/docs.ts:90-126 | The older navigation has one leaf per document, each linking to `/docs/slug`. |
| HotReload.Construct | packages/docsfly/src/hot-reload/reload.ts:20-29 | The watcher is enabled per the options, else per development mode. The blog is watched iff enabled. The watcher starts stopped with no watchers open. |
| HotReload.ConstructMerged | packages/docsfly/src/hot-reload/reload.ts:26-28 | A merged configuration always constructs a watcher. |
| HotReload.IsEnabled | packages/docsfly/src/hot-reload/reload.ts:145-147 | `isEnabled` reports the enabled flag. |
| HotReload.Start | packages/docsfly/src/hot-reload/reload.ts:31-55 | A disabled or already watching watcher is left as is. Options, enablement and directories never change. |
| HotReload.StartWatches | packages/docsfly/src/hot-reload/reload.ts:36-51 | A start that does not throw leaves the watcher watching, even with no docs directory. It opens a docs watcher iff the directory exists, and a blog watcher iff the blog is enabled and its directory exists. |
| HotReload.StartFailure | packages/docsfly/src/hot-reload/reload.ts:52-54 | A start that throws leaves the watcher not watching. |
| HotReload.Stop | packages/docsfly/src/hot-reload/reload.ts:131-143 | `stop` clears both handles and `isWatching`, and closes only the watchers the handles point to. |
| HotReload.StartStopIdempotent | packages/docsfly/src/hot-reload/reload.ts:31-143 | A second start of a watching watcher does nothing. A second stop does nothing. A successful start after a stop watches again. |
| HotReload.DocsHandler | packages/docsfly/src/hot-reload/reload.ts:69-92 | Only `.md`/`.mdx` paths fire. Each fires the document callback, and `add`/`unlink` also fire the navigation callback, in that order. |
| HotReload.BlogHandler | packages/docsfly/src/hot-reload/reload.ts:113-128 | Every blog event fires only the blog callback, and never the navigation callback. |
| HotReload.DocsEvent | packages/docsfly/src/hot-reload/reload.ts:69-92 | With no docs watcher open nothing fires. With exactly its handle's watcher open, the handler fires once. |
| HotReload.BlogEvent | packages/docsfly/src/hot-reload/reload.ts:113-128 | With no blog watcher open nothing fires. Blog events never fire the navigation callback. |
| HotReload.StartLeaksDocsWatcher | packages/docsfly/src/hot-reload/reload.ts:40-51 | After a start whose blog watcher throws, a second start and a stop, one docs watcher is still open and still fires document callbacks. |
| HotReload.StartGuarded | packages/docsfly/src/hot-reload/reload.ts:31-55 | The start that skips handles already set keeps every open watcher reachable from its handle, and still watches whenever the original would. |
| HotReload.GuardedStopClosesAll | packages/docsfly/src/hot-reload/reload.ts:131-143 | With the guarded start, `stop` always leaves no watcher open. |
| ReloadCache.Initial | packages/docsfly/src/hot-reload/reload.ts:162-166 | A fresh cache has empty maps and empty slots whose timestamps are 0. |
| ReloadCache.ClearDocsCache | packages/docsfly/src/hot-reload/reload.ts:175-177 | Clearing documents empties only the document map. |
| ReloadCache.ClearBlogCache | packages/docsfly/src/hot-reload/reload.ts:179-183 | Clearing the blog empties the post map and resets the blog-list slot. Nothing else changes. |
| ReloadCache.ClearNavigationCache | packages/docsfly/src/hot-reload/reload.ts:185-188 | Clearing navigation resets only the navigation slot. |
| ReloadCache.GetDocFromCache | packages/docsfly/src/hot-reload/reload.ts:190-192 | A cached document is found iff its slug is a key, and it is the stored value. |
| ReloadCache.SetDocInCache | packages/docsfly/src/hot-reload/reload.ts:194-196 | After a set the slug finds the new document. Every other slug and every other part of the cache is unchanged. |
| ReloadCache.RemoveDocFromCache | packages/docsfly/src/hot-reload/reload.ts:198-200 | After a remove the slug finds nothing. Every other slug and every other part of the cache is unchanged. |
| ReloadCache.GetBlogPostFromCache | packages/docsfly/src/hot-reload/reload.ts:202-204 | A cached post is found iff its slug is a key, and it is the stored value. |
| ReloadCache.SetBlogPostInCache | packages/docsfly/src/hot-reload/reload.ts:206-208 | After a set the slug finds the new post. Every other slug and every other part of the cache is unchanged. |
| ReloadCache.RemoveBlogPostFromCache | packages/docsfly/src/hot-reload/reload.ts:210-212 | After a remove the slug finds nothing. Every other slug and every other part of the cache is unchanged. |
| ReloadCache.SetBlogListInCache | packages/docsfly/src/hot-reload/reload.ts:218-221 | The blog list slot then holds the data stamped with the current time. Nothing else changes. |
| ReloadCache.IsBlogListCacheValid | packages/docsfly/src/hot-reload/reload.ts:223-225 | The blog list is valid iff it holds data stored less than `maxAge` ago. |
| ReloadCache.SetNavigationInCache | packages/docsfly/src/hot-reload/reload.ts:231-234 | The navigation slot then holds the data stamped with the current time. Nothing else changes. |
| ReloadCache.IsNavigationCacheValid | packages/docsfly/src/hot-reload/reload.ts:236-238 | The navigation is valid iff it holds data stored less than `maxAge` ago. |
| ReloadCache.DocCacheLaws | packages/docsfly/src/hot-reload/reload.ts:190-200 | Set-then-get returns the document. Remove-then-get finds nothing. Other slugs and other parts of the cache are unaffected. |
| ReloadCache.BlogCacheLaws | packages/docsfly/src/hot-reload/reload.ts:202-212 | The same map laws hold for blog posts, and clearing the blog forgets every post. |
| ReloadCache.BlogListSlotLaws | packages/docsfly/src/hot-reload/reload.ts:214-225 | A stored blog list is returned. It is valid iff younger than `maxAge`. A cleared slot is never valid. |
| ReloadCache.NavigationSlotLaws | packages/docsfly/src/hot-reload/reload.ts:227-238 | A stored navigation is returned. It is valid iff younger than `maxAge`. Stored `null` and a cleared slot are never valid. |
| ReloadCache.DefaultMaxAgeWindow | packages/docsfly/src/hot-reload/reload.ts:236-238 | With the default `maxAge`, an entry is valid 4999 ms after storing and invalid at 5000 ms. |
| Search.SearchResults | packages/docsfly/src/components/search.tsx:29-48 | An empty query gives no results. Otherwise the results are exactly the matching documents with their multiplicities, and title hits come before other hits. |
| Search.TitleFirst | packages/docsfly/src/components/search.tsx:41-48 | The result comparator is a total preorder that puts a title hit before a non-hit and treats every other pair as equal. |
| Search.SearchIsStablePartition | packages/docsfly/src/components/search.tsx:30-48 | The results are the title-hitting matches in document order, then the other matches in document order. |
| Search.BestMatchHitsTitle | packages/docsfly/src/components/search.tsx:41-48 | When any document's title hits, the first result's title hits. |
| Search.Refresh | packages/docsfly/src/components/search.tsx:28-56 | The dropdown is open iff the query is non-empty, a closed dropdown has no results, and every result matches. |
| Search.HandleSelect | packages/docsfly/src/components/search.tsx:58-62 | Selecting clears the query and closes the dropdown. |
| Search.ResultHref | packages/docsfly/src/components/search.tsx:68 | A result links to `(docs.baseUrl or /docs)/slug`. |
| Search.HandleKeyDown | packages/docsfly/src/components/search.tsx:64-72 | Navigation happens iff Enter is pressed with results. It then goes to the first result, selects it and resets the query. Otherwise nothing changes. |
| Search.EnterResets | packages/docsfly/src/components/search.tsx:64-72 | After Enter with results, the next effect returns the search to its initial state. |
| Search.EnterOpensBestMatch | packages/docsfly/src/components/search.tsx:64-69 | Enter after a query navigates to the link of the first search result. |
| DocsListing.ListingKey | packages/docsfly/src/components/docs-listing.tsx:133 | A document's listing key is its category if non-empty, else `Uncategorized`. Keys are never empty. |
| DocsListing.SortGroup | packages/docsfly/src/components/docs-listing.tsx:141-143 | Each group's documents are stably sorted by `order`, with its key unchanged. |
| DocsListing.Buckets | packages/docsfly/src/components/docs-listing.tsx:132-143 | The buckets are the first-seen groups, each sorted. |
| DocsListing.Rank | packages/docsfly/src/components/docs-listing.tsx:31 | Array-index keys rank by numeric value, below every other key. |
| DocsListing.EntriesOrder | packages/docsfly/src/components/docs-listing.tsx:31 | Object key order is a stable sort of the insertion order by rank. |
| DocsListing.GroupDocsByCategory | packages/docsfly/src/components/docs-listing.tsx:129-146 | The listing has one group per category bucket, each group one of the sorted buckets, in ascending property-key rank. |
| DocsListing.ListedGroupIsBucket | packages/docsfly/src/components/docs-listing.tsx:129-146 | Every listed group is one of the sorted buckets. |
| DocsListing.ListingGroups | packages/docsfly/src/components/docs-listing.tsx:129-146 | Listed groups are non-empty and sorted by `order`, and hold exactly the documents of their key. Their keys are distinct, and together they hold every document once. |
| DocsListing.ListedGroup | packages/docsfly/src/components/docs-listing.tsx:132-143 | A listed group is non-empty, stably sorted, and its documents all carry its key. |
| DocsListing.ListingKeysDistinct | packages/docsfly/src/components/docs-listing.tsx:134-136 | No key is listed twice. |
| DocsListing.ListingCovers | packages/docsfly/src/components/docs-listing.tsx:132-138 | The groups together hold each document exactly as often as the input. |
| DocsListing.ListingOrder | packages/docsfly/src/components/docs-listing.tsx:129-146 | Buckets follow first appearance. In the listing, array-index categories come first in ascending order; the others keep first-seen order. |
| DocsListing.PlainObjectGroups | packages/docsfly/src/components/docs-listing.tsx:130-138 | Grouping into a plain `{}` throws iff some document's key is a name inherited from `Object.prototype`. Otherwise it is the first-seen grouping. |
| DocsListing.GroupDocsByCategoryAsWritten | packages/docsfly/src/components/docs-listing.tsx:129-146 | The function as written throws iff some key is an inherited name. Otherwise it equals the corrected listing. |
| DocsListing.PrototypeCategoryThrows | packages/docsfly/src/components/docs-listing.tsx:134-137 | A single document in category `constructor` makes the function as written throw, while the corrected listing has one group for it. |
| DocsListing.DocCardHref | packages/docsfly/src/components/docs-listing.tsx:78 | A card links to `(docs.baseUrl or /docs)/` followed by the document's slug. |
| DocsListing.HrefsAgree | packages/docsfly/src/components/docs-listing.tsx:78 | A document's card, its search result and its sidebar leaf all link to the same place. |
| NavigationItem.StripHash | packages/docsfly/src/components/navigation.tsx:16 | Exactly the first `#` is removed: the result is the link before its first `#` followed by the link after it. A link without `#` is unchanged. |
| NavigationItem.IsActive | packages/docsfly/src/components/navigation.tsx:16 | A link without `#` is active exactly on its own path. A link with `#` is active exactly on the link with its first `#` removed, so a bare `#` is active only on the empty path. |
| NavigationItem.HasChildren | packages/docsfly/src/components/navigation.tsx:17 | An item has children iff its children list holds at least one item. A missing or empty list counts as none. |
| NavigationItem.InitiallyExpanded | packages/docsfly/src/components/navigation.tsx:18-27 | Only items with children open. An active child forces the item open. Otherwise it opens unless `collapsed` is `true`. |
| NavigationItem.Toggle | packages/docsfly/src/components/navigation.tsx:29-34 | Clicking flips an item with children and does nothing to any other. |
| NavigationItem.ToggleLaws | packages/docsfly/src/components/navigation.tsx:29-34 | Two clicks restore the state, and a childless item never opens. |
| NavigationItem.VisibleChildren | packages/docsfly/src/components/navigation.tsx:70-77 | All children show, one level deeper, iff the item has children and is expanded. |
| NavigationItem.HashChildExpands | packages/docsfly/src/components/navigation.tsx:22 | A child linking to `#` makes its parent start open on every page. |
| NavigationItem.ActiveWithoutHash | packages/docsfly/src/components/navigation.tsx:16 | A link without `#` is active exactly on its own path. |
| NavigationItem.GeneratedSidebarExpansion | packages/docsfly/src/components/navigation.tsx:18-27 | In the generated sidebar every category starts open with all its leaves visible, and every top-level leaf starts closed. |
| BlogPost.GetAuthorInfo | packages/docsfly/src/components/blog/post.tsx:25-31 | Without a key the author is "Anonymous". Without an authors map it is the bare key. Otherwise it is the configured author, or the bare key when unknown. |
| BlogPost.AuthorsSurviveMerge | packages/docsfly/src/components/blog/post.tsx:25-31 | Merging the configuration with the defaults never changes a post's author. |
| BlogPost.ExcerptHref | packages/docsfly/src/components/blog/post.tsx:61 | An excerpt links under `(blog.baseUrl or /blog)/`, followed by the slug. |
| BlogPost.ExcerptHrefSurvivesMerge | packages/docsfly/src/components/blog/post.tsx:113 | Merging with the defaults leaves every excerpt link unchanged. |
| CreateApp.FromUserAgent | packages/create-docsfly-app/src/create-app.ts:114-121 | The detected manager's name occurs in the user agent and no earlier-checked name does. None is detected when the agent is empty or names none. |
| CreateApp.FromLockFiles | packages/create-docsfly-app/src/create-app.ts:124-127 | The detected manager's lock file exists and no earlier-checked one does. None is detected when no lock file exists. |
| CreateApp.DetectPackageManager | packages/create-docsfly-app/src/create-app.ts:112-133 | The user agent decides first, then the lock files. It is an error iff neither decides. |
| CreateApp.PnpmNeverNpm | packages/create-docsfly-app/src/create-app.ts:117-120 | A pnpm user agent also contains `npm` but is never detected as npm, and is detected as pnpm unless it also names bun. |
| CreateApp.LockFileDecides | packages/create-docsfly-app/src/create-app.ts:123-127 | Without a user agent, a single lock file decides its own manager. |
| CreateApp.ResolveProject | packages/create-docsfly-app/src/create-app.ts:28-69 | `.` or `./` means the working directory, named after it. Any other name resolves against it. The prompt is used only without an argument, and an empty answer is an error. |
| CreateApp.CheckTarget | packages/create-docsfly-app/src/create-app.ts:71-84 | Another directory must not exist yet. The working directory must hold only dot-files. |
| CreateApp.CurrentDirForms | packages/create-docsfly-app/src/create-app.ts:32-65 | Both dot forms, as argument or answer, resolve to the working directory. They then need it to contain only dot-files. |
| CreateApp.SettleFlag | packages/create-docsfly-app/src/create-app.ts:103-108 | An explicit flag is kept. An undefined one becomes the negated answer, so no answer means skip. |
| CreateApp.SettleOptions | packages/create-docsfly-app/src/create-app.ts:86-109 | After the set-up prompt both flags are defined, explicit flags are kept, and the template is unchanged. |
| CreateApp.SettleIdempotent | packages/create-docsfly-app/src/create-app.ts:86-109 | Settled options ignore any later answers. Fully explicit options ignore the answers from the start. |
| WithDocsfly.WithDocsfly | packages/docsfly/src/with-docsfly.ts:3-17 | The result has standalone output and the fixed tracing table. It keeps every other key, and keeps `experimental` or makes it `{}`. |
| WithDocsfly.WithDocsflyIdempotent | packages/docsfly/src/with-docsfly.ts:3-17 | Wrapping twice is wrapping once. |
| WithDocsfly.OnlyWrittenKeysChange | packages/docsfly/src/with-docsfly.ts:4-16 | Only `output`, `experimental` and `outputFileTracingIncludes` change, and a configuration without those keys in its other keys stays so. |

## Left out

- File and directory I/O, `gray-matter` front-matter parsing and `process.cwd()`. The directory is a snapshot: a listing plus, per file, parsed front matter or a read failure. `path.join` of the directory is not modelled.
- `getAllDocs` returns no documents when any single file fails to read, because `Promise.all` rejects; failing files are not skipped.
- The watcher's `start` sets `isWatching` even when the docs directory is missing.
- Dynamic loading of the configuration file (`require`, TypeScript transpilation, `eval`) and the `require.cache` eviction in `clearConfigCache`. Each loading attempt is an input that either throws or yields a user configuration; `.default || module` is folded into that input.
- `chokidar` options (dotfile filter, polling, depth, write stabilisation), the blog watcher's glob pattern and the error/ready handlers. Events are inputs.
- Console logging, `process.exit`, the server-sent live-reload bridge and the `actions.ts` wrappers.
- Rendering: the JSX markup of every component, `highlightMatch` (a regular-expression highlighter), class names, the version selector and the mobile menu.
- `Date.now()` is the `now` argument, and `new Date(...).toLocaleDateString()` is not modelled.
- `localeCompare` and `toLowerCase` are abstract. Sorting uses any total preorder on titles, and case folding any string function.
- CreateApp.ResolveProject: does not model the prompt's validation with `validate-npm-package-name`. An answer is taken as given.
- CreateApp.SettleOptions: does not model the prompt's initial values (`true`, and `!isGitRepository()`). The answers are inputs.
- The scaffolding steps after the decisions: copying the template, rewriting `package.json`, running the install and `git init`.
- BlogPost.GetAuthorInfo: a key that is an inherited `Object.prototype` name (`constructor`, …) would return that inherited value in the code. Here only own keys of the `authors` map are found.
- Which exception a failing `start` raises. The model keeps only whether loading `fs`, starting the docs watcher or starting the blog watcher throws.
- Config.MergeLaw: a key that is present with the value `undefined` or `null` is not modelled. The JavaScript spread copies such a key over the default, so `docs.dir: undefined` ends in a `path.join` that throws; here a key is either absent or holds a value.
- HotReload.Construct: for the same reason `{enabled: undefined}`, which the code treats as disabled, is not modelled; an absent `enabled` is.
- Docs.MetaOf: `order` is an integer. A fractional JavaScript number such as `1.5` is not modelled; orders compare as integers.
- The values of Next.js configuration keys that `withDocsfly` does not touch are opaque. `experimental` is copied as one map.

## Findings

| source | as written | input that shows it | evidently intended | confidence | as-written member | corrected member |
|---|---|---|---|---|---|---|
| packages/docsfly/src/components/docs-listing.tsx:130-137 | Documents are grouped into a plain `{}`, so `grouped[category]` also finds names inherited from `Object.prototype`. | One document whose category is `constructor`: `grouped["constructor"]` is the truthy `Object` function, no group is made, and `.push` throws a TypeError. | Every category, whatever its name, gets its own group. | not executed | DocsListing.GroupDocsByCategoryAsWritten | DocsListing.ListingGroups |
| packages/docsfly/src/hot-reload/reload.ts:40-51 | `start` opens the docs watcher before the blog watcher. If the blog watcher throws, `isWatching` stays false but the docs handle is set. A later `start` overwrites the handle with a second docs watcher. | Enabled watcher with the blog enabled: first `start` with the blog watcher throwing, second `start` succeeding, then `stop`. One docs watcher stays open and still fires document callbacks. | After `stop`, no watcher is left running. | not executed | HotReload.StartLeaksDocsWatcher | HotReload.GuardedStopClosesAll |
