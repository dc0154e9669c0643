/** Configuration: the defaults, the merge of a user configuration over them, and the
    one-slot memo behind `loadConfig` and `getConfig`. Loading a configuration file is
    an oracle: each candidate file is absent or yields, per loading attempt, either the
    exported object or a failure. */
module Config {
  import opened Wrappers
  import opened Types

  // ----- defaults -----

  function DefaultHeader(): HeaderConfig {
    HeaderConfig(
      Some("Docsfly"), None,
      Some([HeaderLink("Home", "/"), HeaderLink("Documentation", "/docs"),
            HeaderLink("GitHub", "https://github.com/usedocsfly/docsfly")]),
      Some(true))
  }

  /** `defaultConfig`: every top-level section is present. */
  function Defaults(): (r: DocsflyConfig)
    ensures WellFormed(r)
    ensures r.versions.Some? && r.blog.Some? && r.header.Some? && r.theme.Some? && r.navigation.Some? && r.mdx.Some?
    ensures r.docs.value.dir == Some("docs") && r.docs.value.baseUrl == Some("/docs")
    ensures r.docs.value.sidebar.Some? && r.docs.value.sidebar.value.autoSort == Some(true)
    ensures r.blog.value.enabled == Some(false) && r.blog.value.dir == Some("blog") && r.blog.value.baseUrl == Some("/blog")
    ensures r.blog.value.postsPerPage == Some(10) && r.versions.value.enabled == Some(false)
    ensures r.theme.value.defaultTheme == Some(Light)
  {
    DocsflyConfig(
      site := Some(SiteConfig(Some("Documentation"), Some("Documentation site built with Docsfly"), None, None)),
      docs := Some(DocsConfig(Some("docs"), Some("/docs"), Some(false),
                              Some(SidebarConfig(Some("Documentation"), Some(true), Some(true))))),
      versions := Some(VersionsConfig(Some(false), None, Some([]))),
      blog := Some(BlogConfig(Some(false), Some("blog"), Some("/blog"), Some("Blog"),
                              Some("Latest updates and announcements"), Some(10), Some(map[]))),
      header := Some(DefaultHeader()),
      theme := Some(ThemeConfig(Some(Light), Some(true),
                                Some(ColorsConfig(Some("oklch(0.45 0.3 260)"), Some("oklch(0.9 0.02 260)"),
                                                  None, None, None)))),
      navigation := Some(NavigationConfig(Some(LogoConfig(Some("Docs"), Some("/"), None)), Some([]))),
      mdx := Some(MdxConfig(Some(ComponentsConfig(Some(true), Some(true), Some(true))), Some([]))))
  }

  /** The configuration with no keys at all (`{}`). */
  const Empty := DocsflyConfig(None, None, None, None, None, None, None, None)

  // ----- merge -----

  /** One key of `{...d, ...u}`: the user's value when the key is present. */
  function Pick<T>(u: Option<T>, d: Option<T>): (r: Option<T>)
    ensures u.Some? ==> r == u
    ensures u.None? ==> r == d
  {
    if u.Some? then u else d
  }

  // Spreading an absent sub-object contributes no keys, like spreading the empty record.
  const NoSite := SiteConfig(None, None, None, None)
  const NoSidebar := SidebarConfig(None, None, None)
  const NoDocs := DocsConfig(None, None, None, None)
  const NoVersions := VersionsConfig(None, None, None)
  const NoBlog := BlogConfig(None, None, None, None, None, None, None)
  const NoHeader := HeaderConfig(None, None, None, None)
  const NoColors := ColorsConfig(None, None, None, None, None)
  const NoTheme := ThemeConfig(None, None, None)
  const NoLogo := LogoConfig(None, None, None)
  const NoNavigation := NavigationConfig(None, None)
  const NoComponents := ComponentsConfig(None, None, None)
  const NoMdx := MdxConfig(None, None)

  function SpreadSite(u: SiteConfig, d: SiteConfig): SiteConfig {
    SiteConfig(Pick(u.name, d.name), Pick(u.description, d.description), Pick(u.url, d.url),
               Pick(u.favicon, d.favicon))
  }

  function SpreadSidebar(u: SidebarConfig, d: SidebarConfig): SidebarConfig {
    SidebarConfig(Pick(u.title, d.title), Pick(u.collapsible, d.collapsible), Pick(u.autoSort, d.autoSort))
  }

  /** `{...d, ...u, sidebar: {...d.sidebar, ...u?.sidebar}}`. */
  function MergeDocs(u: DocsConfig, d: DocsConfig): DocsConfig {
    DocsConfig(Pick(u.dir, d.dir), Pick(u.baseUrl, d.baseUrl), Pick(u.compact, d.compact),
               Some(SpreadSidebar(u.sidebar.GetOr(NoSidebar), d.sidebar.GetOr(NoSidebar))))
  }

  function SpreadVersions(u: VersionsConfig, d: VersionsConfig): VersionsConfig {
    VersionsConfig(Pick(u.enabled, d.enabled), Pick(u.defaultVersion, d.defaultVersion),
                   Pick(u.versions, d.versions))
  }

  function SpreadBlog(u: BlogConfig, d: BlogConfig): BlogConfig {
    BlogConfig(Pick(u.enabled, d.enabled), Pick(u.dir, d.dir), Pick(u.baseUrl, d.baseUrl),
               Pick(u.title, d.title), Pick(u.description, d.description),
               Pick(u.postsPerPage, d.postsPerPage), Pick(u.authors, d.authors))
  }

  function SpreadColors(u: ColorsConfig, d: ColorsConfig): ColorsConfig {
    ColorsConfig(Pick(u.primary, d.primary), Pick(u.secondary, d.secondary), Pick(u.accent, d.accent),
                 Pick(u.background, d.background), Pick(u.foreground, d.foreground))
  }

  function MergeTheme(u: ThemeConfig, d: ThemeConfig): ThemeConfig {
    ThemeConfig(Pick(u.defaultTheme, d.defaultTheme), Pick(u.toggleEnabled, d.toggleEnabled),
                Some(SpreadColors(u.colors.GetOr(NoColors), d.colors.GetOr(NoColors))))
  }

  function SpreadLogo(u: LogoConfig, d: LogoConfig): LogoConfig {
    LogoConfig(Pick(u.text, d.text), Pick(u.href, d.href), Pick(u.image, d.image))
  }

  function MergeNavigation(u: NavigationConfig, d: NavigationConfig): NavigationConfig {
    NavigationConfig(Some(SpreadLogo(u.logo.GetOr(NoLogo), d.logo.GetOr(NoLogo))), Pick(u.links, d.links))
  }

  function SpreadComponents(u: ComponentsConfig, d: ComponentsConfig): ComponentsConfig {
    ComponentsConfig(Pick(u.callout, d.callout), Pick(u.codeBlock, d.codeBlock), Pick(u.tabs, d.tabs))
  }

  function MergeMdx(u: MdxConfig, d: MdxConfig): MdxConfig {
    MdxConfig(Some(SpreadComponents(u.components.GetOr(NoComponents), d.components.GetOr(NoComponents))),
              Pick(u.plugins, d.plugins))
  }

  /** `mergeWithDefaults`: `site`, `docs`, `theme`, `navigation` and `mdx` are merged one
      level down (two for `docs.sidebar`, `theme.colors`, `navigation.logo` and
      `mdx.components`); `versions` and `blog` are merged only when the user supplies
      them; `header` comes from the top-level spread and so is replaced wholesale. */
  function MergeWithDefaults(u: DocsflyConfig): (r: DocsflyConfig)
    ensures WellFormed(r)
    ensures r.site.Some? && r.docs.Some? && r.versions.Some? && r.blog.Some? && r.header.Some?
    ensures r.theme.Some? && r.navigation.Some? && r.mdx.Some?
  {
    var d := Defaults();
    DocsflyConfig(
      site := Some(SpreadSite(u.site.GetOr(NoSite), d.site.value)),
      docs := Some(MergeDocs(u.docs.GetOr(NoDocs), d.docs.value)),
      versions := if u.versions.Some? then Some(SpreadVersions(u.versions.value, d.versions.value)) else d.versions,
      blog := if u.blog.Some? then Some(SpreadBlog(u.blog.value, d.blog.value)) else d.blog,
      header := Pick(u.header, d.header),
      theme := Some(MergeTheme(u.theme.GetOr(NoTheme), d.theme.value)),
      navigation := Some(MergeNavigation(u.navigation.GetOr(NoNavigation), d.navigation.value)),
      mdx := Some(MergeMdx(u.mdx.GetOr(NoMdx), d.mdx.value)))
  }

  // ----- reading a configuration by key path -----

  /** The value at the end of a key path. */
  datatype Leaf =
    | Str(s: string)
    | Bool(b: bool)
    | Int(n: int)
    | Mode(m: ThemeMode)
    | HeaderLinks(hl: seq<HeaderLink>)
    | NavLinks(nl: seq<NavLink>)
    | Plugins(p: seq<string>)
    | Versions(v: seq<VersionEntry>)
    | Authors(a: map<string, Author>)

  /** Every leaf key path of a configuration, e.g. `SidebarAutoSort` for
      `docs.sidebar.autoSort`. */
  datatype Path =
    | SiteName | SiteDescription | SiteUrl | SiteFavicon
    | DocsDir | DocsBaseUrl | DocsCompact
    | SidebarTitle | SidebarCollapsible | SidebarAutoSort
    | VersionsEnabled | VersionsDefault | VersionsList
    | BlogEnabled | BlogDir | BlogBaseUrl | BlogTitle | BlogDescription | BlogPostsPerPage | BlogAuthors
    | HeaderTitle | HeaderLogo | HeaderNavigation | HeaderShowSearch
    | ThemeDefault | ThemeToggle
    | ColorPrimary | ColorSecondary | ColorAccent | ColorBackground | ColorForeground
    | LogoText | LogoHref | LogoImage | NavigationLinks
    | MdxCallout | MdxCodeBlock | MdxTabs | MdxPlugins
  {
    predicate InHeader() {
      this.HeaderTitle? || this.HeaderLogo? || this.HeaderNavigation? || this.HeaderShowSearch?
    }

    // The section groups the merge law is proved by, one lemma each.
    predicate InSiteOrDocs() {
      || this.SiteName? || this.SiteDescription? || this.SiteUrl? || this.SiteFavicon?
      || this.DocsDir? || this.DocsBaseUrl? || this.DocsCompact?
      || this.SidebarTitle? || this.SidebarCollapsible? || this.SidebarAutoSort?
    }

    predicate InVersionsOrBlog() {
      || this.VersionsEnabled? || this.VersionsDefault? || this.VersionsList?
      || this.BlogEnabled? || this.BlogDir? || this.BlogBaseUrl? || this.BlogTitle?
      || this.BlogDescription? || this.BlogPostsPerPage? || this.BlogAuthors?
    }

    predicate InTheme() {
      || this.ThemeDefault? || this.ThemeToggle?
      || this.ColorPrimary? || this.ColorSecondary? || this.ColorAccent? || this.ColorBackground? || this.ColorForeground?
    }

    predicate InNavigation() {
      this.LogoText? || this.LogoHref? || this.LogoImage? || this.NavigationLinks?
    }

    predicate InMdx() {
      this.MdxCallout? || this.MdxCodeBlock? || this.MdxTabs? || this.MdxPlugins?
    }
  }

  function StrAt(o: Option<string>): Option<Leaf> { if o.Some? then Some(Str(o.value)) else None }
  function BoolAt(o: Option<bool>): Option<Leaf> { if o.Some? then Some(Bool(o.value)) else None }

  // The sub-object at each level, read as the empty record when a key on the way is absent.
  function SiteOf(c: DocsflyConfig): SiteConfig { c.site.GetOr(NoSite) }
  function DocsOf(c: DocsflyConfig): DocsConfig { c.docs.GetOr(NoDocs) }
  function SidebarOf(c: DocsflyConfig): SidebarConfig { DocsOf(c).sidebar.GetOr(NoSidebar) }
  function VersionsOf(c: DocsflyConfig): VersionsConfig { c.versions.GetOr(NoVersions) }
  function BlogOf(c: DocsflyConfig): BlogConfig { c.blog.GetOr(NoBlog) }
  function HeaderOf(c: DocsflyConfig): HeaderConfig { c.header.GetOr(NoHeader) }
  function ThemeOf(c: DocsflyConfig): ThemeConfig { c.theme.GetOr(NoTheme) }
  function ColorsOf(c: DocsflyConfig): ColorsConfig { ThemeOf(c).colors.GetOr(NoColors) }
  function NavigationOf(c: DocsflyConfig): NavigationConfig { c.navigation.GetOr(NoNavigation) }
  function LogoOf(c: DocsflyConfig): LogoConfig { NavigationOf(c).logo.GetOr(NoLogo) }
  function MdxOf(c: DocsflyConfig): MdxConfig { c.mdx.GetOr(NoMdx) }
  function ComponentsOf(c: DocsflyConfig): ComponentsConfig { MdxOf(c).components.GetOr(NoComponents) }

  /** Reads `c` at path `p`: `c.docs?.sidebar?.autoSort` and so on, `None` when any key on
      the way is absent. */
  function Get(c: DocsflyConfig, p: Path): Option<Leaf> {
    match p
    case SiteName => StrAt(SiteOf(c).name)
    case SiteDescription => StrAt(SiteOf(c).description)
    case SiteUrl => StrAt(SiteOf(c).url)
    case SiteFavicon => StrAt(SiteOf(c).favicon)
    case DocsDir => StrAt(DocsOf(c).dir)
    case DocsBaseUrl => StrAt(DocsOf(c).baseUrl)
    case DocsCompact => BoolAt(DocsOf(c).compact)
    case SidebarTitle => StrAt(SidebarOf(c).title)
    case SidebarCollapsible => BoolAt(SidebarOf(c).collapsible)
    case SidebarAutoSort => BoolAt(SidebarOf(c).autoSort)
    case VersionsEnabled => BoolAt(VersionsOf(c).enabled)
    case VersionsDefault => StrAt(VersionsOf(c).defaultVersion)
    case VersionsList => (if VersionsOf(c).versions.Some? then Some(Versions(VersionsOf(c).versions.value)) else None)
    case BlogEnabled => BoolAt(BlogOf(c).enabled)
    case BlogDir => StrAt(BlogOf(c).dir)
    case BlogBaseUrl => StrAt(BlogOf(c).baseUrl)
    case BlogTitle => StrAt(BlogOf(c).title)
    case BlogDescription => StrAt(BlogOf(c).description)
    case BlogPostsPerPage => (if BlogOf(c).postsPerPage.Some? then Some(Int(BlogOf(c).postsPerPage.value)) else None)
    case BlogAuthors => (if BlogOf(c).authors.Some? then Some(Authors(BlogOf(c).authors.value)) else None)
    case HeaderTitle => StrAt(HeaderOf(c).title)
    case HeaderLogo => StrAt(HeaderOf(c).logo)
    case HeaderNavigation => (if HeaderOf(c).navigation.Some? then Some(HeaderLinks(HeaderOf(c).navigation.value)) else None)
    case HeaderShowSearch => BoolAt(HeaderOf(c).showSearch)
    case ThemeDefault => (if ThemeOf(c).defaultTheme.Some? then Some(Mode(ThemeOf(c).defaultTheme.value)) else None)
    case ThemeToggle => BoolAt(ThemeOf(c).toggleEnabled)
    case ColorPrimary => StrAt(ColorsOf(c).primary)
    case ColorSecondary => StrAt(ColorsOf(c).secondary)
    case ColorAccent => StrAt(ColorsOf(c).accent)
    case ColorBackground => StrAt(ColorsOf(c).background)
    case ColorForeground => StrAt(ColorsOf(c).foreground)
    case LogoText => StrAt(LogoOf(c).text)
    case LogoHref => StrAt(LogoOf(c).href)
    case LogoImage => StrAt(LogoOf(c).image)
    case NavigationLinks => (if NavigationOf(c).links.Some? then Some(NavLinks(NavigationOf(c).links.value)) else None)
    case MdxCallout => BoolAt(ComponentsOf(c).callout)
    case MdxCodeBlock => BoolAt(ComponentsOf(c).codeBlock)
    case MdxTabs => BoolAt(ComponentsOf(c).tabs)
    case MdxPlugins => (if MdxOf(c).plugins.Some? then Some(Plugins(MdxOf(c).plugins.value)) else None)
  }

  /** The merge law: outside the header every key the user sets wins and every key the
      user omits keeps its default; the header is the user's header when there is one,
      keys and all, and the default header otherwise. */
  lemma MergeLaw(u: DocsflyConfig, p: Path)
    ensures !p.InHeader() ==> Get(MergeWithDefaults(u), p) == Pick(Get(u, p), Get(Defaults(), p))
    ensures p.InHeader() ==>
      Get(MergeWithDefaults(u), p) == (if u.header.Some? then Get(u, p) else Get(Defaults(), p))
  {
    MergeSections(u);
    SectionwiseLaw(u, Defaults(), MergeWithDefaults(u), p);
  }

  /** The merge law for any `m` built from `u` and `d` section by section. */
  lemma SectionwiseLaw(u: DocsflyConfig, d: DocsflyConfig, m: DocsflyConfig, p: Path)
    requires SiteOf(m) == SpreadSite(SiteOf(u), SiteOf(d))
    requires DocsOf(m) == MergeDocs(DocsOf(u), DocsOf(d))
    requires SidebarOf(m) == SpreadSidebar(SidebarOf(u), SidebarOf(d))
    requires VersionsOf(m) == SpreadVersions(VersionsOf(u), VersionsOf(d))
    requires BlogOf(m) == SpreadBlog(BlogOf(u), BlogOf(d))
    requires HeaderOf(m) == (if u.header.Some? then HeaderOf(u) else HeaderOf(d))
    requires ThemeOf(m) == MergeTheme(ThemeOf(u), ThemeOf(d))
    requires ColorsOf(m) == SpreadColors(ColorsOf(u), ColorsOf(d))
    requires NavigationOf(m) == MergeNavigation(NavigationOf(u), NavigationOf(d))
    requires LogoOf(m) == SpreadLogo(LogoOf(u), LogoOf(d))
    requires MdxOf(m) == MergeMdx(MdxOf(u), MdxOf(d))
    requires ComponentsOf(m) == SpreadComponents(ComponentsOf(u), ComponentsOf(d))
    ensures !p.InHeader() ==> Get(m, p) == Pick(Get(u, p), Get(d, p))
    ensures p.InHeader() ==> Get(m, p) == (if u.header.Some? then Get(u, p) else Get(d, p))
  {
    PathGroups(p);
    if p.InSiteOrDocs() {
      SiteOrDocsLaw(u, d, m, p);
    } else if p.InVersionsOrBlog() {
      VersionsOrBlogLaw(u, d, m, p);
    } else if p.InTheme() {
      ThemeLaw(u, d, m, p);
    } else if p.InNavigation() {
      NavigationLaw(u, d, m, p);
    } else if p.InHeader() {
      HeaderLaw(u, d, m, p);
    } else {
      MdxLaw(u, d, m, p);
    }
  }

  /** Every path lies in one section group. */
  lemma PathGroups(p: Path)
    ensures p.InSiteOrDocs() || p.InVersionsOrBlog() || p.InTheme() || p.InNavigation() || p.InHeader() || p.InMdx()
    ensures p.InHeader() ==> !p.InSiteOrDocs() && !p.InVersionsOrBlog() && !p.InTheme() && !p.InNavigation() && !p.InMdx()
  {
  }

  lemma HeaderLaw(u: DocsflyConfig, d: DocsflyConfig, m: DocsflyConfig, p: Path)
    requires HeaderOf(m) == (if u.header.Some? then HeaderOf(u) else HeaderOf(d))
    ensures p.InHeader() ==> Get(m, p) == (if u.header.Some? then Get(u, p) else Get(d, p))
  {
  }

  lemma SiteOrDocsLaw(u: DocsflyConfig, d: DocsflyConfig, m: DocsflyConfig, p: Path)
    requires SiteOf(m) == SpreadSite(SiteOf(u), SiteOf(d))
    requires DocsOf(m) == MergeDocs(DocsOf(u), DocsOf(d))
    requires SidebarOf(m) == SpreadSidebar(SidebarOf(u), SidebarOf(d))
    ensures p.InSiteOrDocs() ==> Get(m, p) == Pick(Get(u, p), Get(d, p))
  {
  }

  lemma VersionsOrBlogLaw(u: DocsflyConfig, d: DocsflyConfig, m: DocsflyConfig, p: Path)
    requires VersionsOf(m) == SpreadVersions(VersionsOf(u), VersionsOf(d))
    requires BlogOf(m) == SpreadBlog(BlogOf(u), BlogOf(d))
    ensures p.InVersionsOrBlog() ==> Get(m, p) == Pick(Get(u, p), Get(d, p))
  {
  }

  lemma ThemeLaw(u: DocsflyConfig, d: DocsflyConfig, m: DocsflyConfig, p: Path)
    requires ThemeOf(m) == MergeTheme(ThemeOf(u), ThemeOf(d))
    requires ColorsOf(m) == SpreadColors(ColorsOf(u), ColorsOf(d))
    ensures p.InTheme() ==> Get(m, p) == Pick(Get(u, p), Get(d, p))
  {
  }

  lemma NavigationLaw(u: DocsflyConfig, d: DocsflyConfig, m: DocsflyConfig, p: Path)
    requires NavigationOf(m) == MergeNavigation(NavigationOf(u), NavigationOf(d))
    requires LogoOf(m) == SpreadLogo(LogoOf(u), LogoOf(d))
    ensures p.InNavigation() ==> Get(m, p) == Pick(Get(u, p), Get(d, p))
  {
  }

  lemma MdxLaw(u: DocsflyConfig, d: DocsflyConfig, m: DocsflyConfig, p: Path)
    requires MdxOf(m) == MergeMdx(MdxOf(u), MdxOf(d))
    requires ComponentsOf(m) == SpreadComponents(ComponentsOf(u), ComponentsOf(d))
    ensures p.InMdx() ==> Get(m, p) == Pick(Get(u, p), Get(d, p))
  {
  }

  /** The merged configuration section by section. */
  lemma MergeSections(u: DocsflyConfig)
    ensures var m, d := MergeWithDefaults(u), Defaults();
      && SiteOf(m) == SpreadSite(SiteOf(u), SiteOf(d))
      && DocsOf(m) == MergeDocs(DocsOf(u), DocsOf(d))
      && SidebarOf(m) == SpreadSidebar(SidebarOf(u), SidebarOf(d))
      && VersionsOf(m) == SpreadVersions(VersionsOf(u), VersionsOf(d))
      && BlogOf(m) == SpreadBlog(BlogOf(u), BlogOf(d))
      && HeaderOf(m) == (if u.header.Some? then HeaderOf(u) else HeaderOf(d))
      && ThemeOf(m) == MergeTheme(ThemeOf(u), ThemeOf(d))
      && ColorsOf(m) == SpreadColors(ColorsOf(u), ColorsOf(d))
      && NavigationOf(m) == MergeNavigation(NavigationOf(u), NavigationOf(d))
      && LogoOf(m) == SpreadLogo(LogoOf(u), LogoOf(d))
      && MdxOf(m) == MergeMdx(MdxOf(u), MdxOf(d))
      && ComponentsOf(m) == SpreadComponents(ComponentsOf(u), ComponentsOf(d))
  {
  }

  /** A user header without navigation links drops the default links, while a user
      `docs` section without `baseUrl` keeps the default one. */
  lemma HeaderNotDeepMerged(title: string)
    ensures var u := Empty.(header := Some(HeaderConfig(Some(title), None, None, None)),
                            docs := Some(DocsConfig(Some("guides"), None, None, None)));
            && Get(MergeWithDefaults(u), HeaderNavigation) == None
            && Get(Defaults(), HeaderNavigation).Some?
            && Get(MergeWithDefaults(u), DocsBaseUrl) == Some(Str("/docs"))
            && Get(MergeWithDefaults(u), DocsDir) == Some(Str("guides"))
  {
    var u := Empty.(header := Some(HeaderConfig(Some(title), None, None, None)),
                    docs := Some(DocsConfig(Some("guides"), None, None, None)));
    MergeLaw(u, HeaderNavigation);
    MergeLaw(u, DocsBaseUrl);
    MergeLaw(u, DocsDir);
  }

  /** Merging the empty configuration gives the defaults. */
  lemma MergeEmpty()
    ensures MergeWithDefaults(Empty) == Defaults()
  {
  }

  /** Merging is idempotent: a merged configuration merges to itself. */
  lemma MergeIdempotent(u: DocsflyConfig)
    ensures MergeWithDefaults(MergeWithDefaults(u)) == MergeWithDefaults(u)
  {
  }

  /** The defaults documents are read from `docs/` and served under `/docs`, sorted by
      `order`, with the blog and versions switched off. */
  lemma DefaultsValues()
    ensures WellFormed(Defaults())
    ensures Get(Defaults(), DocsDir) == Some(Str("docs"))
    ensures Get(Defaults(), DocsBaseUrl) == Some(Str("/docs"))
    ensures Get(Defaults(), SidebarAutoSort) == Some(Bool(true))
    ensures Get(Defaults(), BlogEnabled) == Some(Bool(false))
    ensures Get(Defaults(), VersionsEnabled) == Some(Bool(false))
  {
  }

  // ----- loading and the memo -----

  /** A candidate configuration file: absent, or present with the outcome of each way of
      loading it, tried in order (`require` for `.js`; `require`, then transpilation, for
      `.ts`). `None` is an attempt that throws. */
  datatype ConfigFile = Absent | Present(attempts: seq<Option<DocsflyConfig>>)

  /** What the loader observes: whether it runs in a browser, whether its own module
      dependencies load, and the two candidates `docsfly.config.js` and `docsfly.config.ts`. */
  datatype LoadEnv = LoadEnv(isClient: bool, toolingLoads: bool, jsFile: ConfigFile, tsFile: ConfigFile)

  /** The first attempt that does not throw. */
  function FirstAttempt(attempts: seq<Option<DocsflyConfig>>): (r: Option<DocsflyConfig>)
    ensures r.None? <==> forall i :: 0 <= i < |attempts| ==> attempts[i].None?
    ensures r.Some? ==> exists k :: 0 <= k < |attempts| && r == attempts[k]
                                     && forall i :: 0 <= i < k ==> attempts[i].None?
  {
    if attempts == [] then None
    else if attempts[0].Some? then attempts[0]
    else
      var r := FirstAttempt(attempts[1..]);
      assert r.Some? ==> exists k :: 0 <= k < |attempts| && r == attempts[k]
                                     && forall i :: 0 <= i < k ==> attempts[i].None? by {
        if r.Some? {
          var k :| 0 <= k < |attempts[1..]| && r == attempts[1..][k]
                   && forall i :: 0 <= i < k ==> attempts[1..][i].None?;
          assert r == attempts[k + 1];
        }
      }
      r
  }

  /** A candidate file that is present and loads by one of its attempts. */
  predicate Loads(f: ConfigFile) {
    f.Present? && FirstAttempt(f.attempts).Some?
  }

  /** Loads the server-side candidates in order; the first that loads wins. */
  function FirstLoaded(files: seq<ConfigFile>): (r: Option<DocsflyConfig>)
    ensures r.None? <==> forall i :: 0 <= i < |files| ==> !Loads(files[i])
    ensures r.Some? ==> exists k :: 0 <= k < |files| && Loads(files[k]) && r == FirstAttempt(files[k].attempts)
                                    && forall i :: 0 <= i < k ==> !Loads(files[i])
  {
    if files == [] then None
    else if Loads(files[0]) then FirstAttempt(files[0].attempts)
    else
      var r := FirstLoaded(files[1..]);
      FirstLoadedShift(files, r);
      r
  }

  /** A candidate found after a first candidate that does not load is found in the
      whole sequence one place further on. */
  lemma FirstLoadedShift(files: seq<ConfigFile>, r: Option<DocsflyConfig>)
    requires files != [] && !Loads(files[0])
    requires r.Some? ==> exists k :: 0 <= k < |files[1..]| && Loads(files[1..][k]) && r == FirstAttempt(files[1..][k].attempts)
                                     && forall i :: 0 <= i < k ==> !Loads(files[1..][i])
    ensures r.Some? ==> exists k :: 0 <= k < |files| && Loads(files[k]) && r == FirstAttempt(files[k].attempts)
                                    && forall i :: 0 <= i < k ==> !Loads(files[i])
  {
    if r.Some? {
      var k :| 0 <= k < |files[1..]| && Loads(files[1..][k]) && r == FirstAttempt(files[1..][k].attempts)
               && forall i :: 0 <= i < k ==> !Loads(files[1..][i]);
      assert files[k + 1] == files[1..][k];
      forall i | 0 <= i < k + 1
        ensures !Loads(files[i])
      {
        if i > 0 {
          assert files[i] == files[1..][i - 1];
        }
      }
    }
  }

  /** The server-side and client-side loading behind `loadConfig` once the memo is
      bypassed: in a browser, or when the loader's own dependencies fail, the defaults;
      otherwise the merge of the first candidate that loads, `.js` before `.ts`, and the
      defaults when none does. */
  function LoadFromDisk(env: LoadEnv): (r: DocsflyConfig)
    ensures WellFormed(r)
    ensures env.isClient || !env.toolingLoads ==> r == Defaults()
    ensures !env.isClient && env.toolingLoads && Loads(env.jsFile) ==>
      r == MergeWithDefaults(FirstAttempt(env.jsFile.attempts).value)
    ensures !env.isClient && env.toolingLoads && !Loads(env.jsFile) && Loads(env.tsFile) ==>
      r == MergeWithDefaults(FirstAttempt(env.tsFile.attempts).value)
    ensures !Loads(env.jsFile) && !Loads(env.tsFile) ==> r == Defaults()
  {
    if env.isClient || !env.toolingLoads then Defaults()
    else
      var files := [env.jsFile, env.tsFile];
      assert files[0] == env.jsFile && files[1] == env.tsFile;
      match FirstLoaded(files)
      case Some(u) => MergeWithDefaults(u)
      case None => Defaults()
  }

  /** `loadConfig(forceReload)` over the memo slot: answers from the memo unless it is
      empty or a reload is forced, and otherwise loads and fills the slot. */
  function LoadConfig(memo: Option<DocsflyConfig>, forceReload: bool, env: LoadEnv)
    : (r: (Option<DocsflyConfig>, DocsflyConfig))
    ensures r.0 == Some(r.1)
    ensures memo.Some? && !forceReload ==> r.1 == memo.value
    ensures memo.None? || forceReload ==> r.1 == LoadFromDisk(env)
  {
    var memo' := if forceReload then ClearConfigCache(memo) else memo;
    if memo'.Some? then (memo', memo'.value)
    else
      var c := LoadFromDisk(env);
      (Some(c), c)
  }

  /** `clearConfigCache`. */
  function ClearConfigCache(memo: Option<DocsflyConfig>): (r: Option<DocsflyConfig>)
    ensures r.None?
  {
    None
  }

  /** `getConfig`: in development every call reloads. */
  function GetConfig(memo: Option<DocsflyConfig>, forceReload: bool, isDevelopment: bool, env: LoadEnv)
    : (r: (Option<DocsflyConfig>, DocsflyConfig))
    ensures r.0 == Some(r.1)
    ensures isDevelopment ==> r.1 == LoadFromDisk(env)
    ensures !isDevelopment && !forceReload && memo.Some? ==> r.1 == memo.value
    ensures !isDevelopment && (forceReload || memo.None?) ==> r.1 == LoadFromDisk(env)
  {
    LoadConfig(memo, forceReload || isDevelopment, env)
  }

  /** Every configuration the memo hands out is well formed, as long as the slot starts
      empty or well formed: a sequence of calls keeps the slot well formed. */
  lemma MemoStaysWellFormed(memo: Option<DocsflyConfig>, forceReload: bool, env: LoadEnv)
    requires memo.Some? ==> WellFormed(memo.value)
    ensures WellFormed(LoadConfig(memo, forceReload, env).1)
    ensures var m := LoadConfig(memo, forceReload, env).0; m.Some? && WellFormed(m.value)
  {
  }

  /** A cached answer is stable: asking again without forcing returns the same
      configuration and leaves the slot alone, whatever the files now say. */
  lemma MemoStable(memo: Option<DocsflyConfig>, force: bool, env: LoadEnv, env': LoadEnv)
    ensures var (m, c) := LoadConfig(memo, force, env); LoadConfig(m, false, env') == (m, c)
  {
  }
}
