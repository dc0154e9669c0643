/** The records of the documentation framework: documents, navigation items and the
    site configuration. Every optional key of the TypeScript interfaces is an `Option`;
    `None` is a key that is absent from the object. */
module Types {
  import opened Wrappers

  // ----- documents -----

  datatype DocMeta = DocMeta(
    title: string,
    description: Option<string>,
    order: Option<int>,
    category: Option<string>,
    tags: Option<seq<string>>,
    publishedAt: Option<string>,
    updatedAt: Option<string>)

  datatype Doc = Doc(slug: string, meta: DocMeta, content: string, path: string)

  /** A sidebar entry: a leaf links to a page, a category node (`href "#"`) holds
      children. */
  datatype NavItem = NavItem(
    title: string,
    href: string,
    children: Option<seq<NavItem>>,
    order: Option<int>,
    collapsed: Option<bool>)

  /** The sort key both the index and the listing use: `meta.order || 0`. */
  function OrderOf(d: Doc): int {
    d.meta.order.GetOr(0)
  }

  // ----- configuration -----

  datatype SiteConfig = SiteConfig(
    name: Option<string>, description: Option<string>, url: Option<string>, favicon: Option<string>)

  datatype SidebarConfig = SidebarConfig(
    title: Option<string>, collapsible: Option<bool>, autoSort: Option<bool>)

  datatype DocsConfig = DocsConfig(
    dir: Option<string>, baseUrl: Option<string>, compact: Option<bool>, sidebar: Option<SidebarConfig>)

  /** A header link; `caption` is the `label` key (`label` is a Dafny keyword). */
  datatype HeaderLink = HeaderLink(caption: string, href: string)

  datatype HeaderConfig = HeaderConfig(
    title: Option<string>, logo: Option<string>, navigation: Option<seq<HeaderLink>>, showSearch: Option<bool>)

  datatype ThemeMode = Light | Dark | System

  datatype ColorsConfig = ColorsConfig(
    primary: Option<string>, secondary: Option<string>, accent: Option<string>,
    background: Option<string>, foreground: Option<string>)

  datatype ThemeConfig = ThemeConfig(
    defaultTheme: Option<ThemeMode>, toggleEnabled: Option<bool>, colors: Option<ColorsConfig>)

  datatype LogoConfig = LogoConfig(text: Option<string>, href: Option<string>, image: Option<string>)

  datatype NavLink = NavLink(text: string, href: string, external: Option<bool>)

  datatype NavigationConfig = NavigationConfig(logo: Option<LogoConfig>, links: Option<seq<NavLink>>)

  datatype ComponentsConfig = ComponentsConfig(
    callout: Option<bool>, codeBlock: Option<bool>, tabs: Option<bool>)

  /** Plugins are opaque to the framework; they are kept as names. */
  datatype MdxConfig = MdxConfig(components: Option<ComponentsConfig>, plugins: Option<seq<string>>)

  /** `caption` is the `label` key. */
  datatype VersionEntry = VersionEntry(name: string, caption: string, dir: string, isDefault: Option<bool>)

  datatype VersionsConfig = VersionsConfig(
    enabled: Option<bool>, defaultVersion: Option<string>, versions: Option<seq<VersionEntry>>)

  datatype Author = Author(name: string, title: Option<string>, url: Option<string>, imageUrl: Option<string>)

  datatype BlogConfig = BlogConfig(
    enabled: Option<bool>, dir: Option<string>, baseUrl: Option<string>, title: Option<string>,
    description: Option<string>, postsPerPage: Option<int>, authors: Option<map<string, Author>>)

  datatype DocsflyConfig = DocsflyConfig(
    site: Option<SiteConfig>,
    docs: Option<DocsConfig>,
    versions: Option<VersionsConfig>,
    blog: Option<BlogConfig>,
    header: Option<HeaderConfig>,
    theme: Option<ThemeConfig>,
    navigation: Option<NavigationConfig>,
    mdx: Option<MdxConfig>)

  /** The keys the `DocsflyConfig` interface does not mark optional: `site.name` and
      `docs.dir`. */
  predicate WellFormed(c: DocsflyConfig) {
    && c.site.Some? && c.site.value.name.Some?
    && c.docs.Some? && c.docs.value.dir.Some?
  }
}
