/** The development cache of `createHotReloadCache`: per-slug maps of documents and blog
    posts, and two time-stamped slots for the blog list and the navigation. The clock is
    the `now` argument, in milliseconds. A slot's data is `None` for `null`; stored values are always truthy, since
    the validity check `data && …` would treat a falsy one as missing. */
module ReloadCache {
  import opened Wrappers

  datatype Slot<T> = Slot(data: Option<T>, timestamp: int)

  datatype Cache<D, P, L, N> = Cache(
    docs: map<string, D>,
    blog: map<string, P>,
    blogList: Slot<L>,
    navigation: Slot<N>)

  /** The cache a fresh process starts with. */
  function Initial<D, P, L, N>(): (c: Cache<D, P, L, N>)
    ensures c.docs == map[] && c.blog == map[]
    ensures c.blogList == Slot(None, 0) && c.navigation == Slot(None, 0)
  {
    Cache(map[], map[], Slot(None, 0), Slot(None, 0))
  }

  /** The `maxAge` the validity checks use when none is given. */
  const DefaultMaxAge: int := 5000

  function ClearDocsCache<D, P, L, N>(c: Cache<D, P, L, N>): (r: Cache<D, P, L, N>)
    ensures r.docs == map[] && r.blog == c.blog && r.blogList == c.blogList && r.navigation == c.navigation
  {
    c.(docs := map[])
  }

  function ClearBlogCache<D, P, L, N>(c: Cache<D, P, L, N>): (r: Cache<D, P, L, N>)
    ensures r.blog == map[] && r.blogList == Slot(None, 0)
    ensures r.docs == c.docs && r.navigation == c.navigation
  {
    c.(blog := map[], blogList := Slot(None, 0))
  }

  function ClearNavigationCache<D, P, L, N>(c: Cache<D, P, L, N>): (r: Cache<D, P, L, N>)
    ensures r.navigation == Slot(None, 0)
    ensures r.docs == c.docs && r.blog == c.blog && r.blogList == c.blogList
  {
    c.(navigation := Slot(None, 0))
  }

  /** `Map.get`: the cached value, `None` for `undefined`. */
  function Lookup<V>(m: map<string, V>, slug: string): Option<V> {
    if slug in m then Some(m[slug]) else None
  }

  function GetDocFromCache<D, P, L, N>(c: Cache<D, P, L, N>, slug: string): (r: Option<D>)
    ensures r.Some? <==> slug in c.docs
    ensures r.Some? ==> r.value == c.docs[slug]
  {
    Lookup(c.docs, slug)
  }

  function SetDocInCache<D, P, L, N>(c: Cache<D, P, L, N>, slug: string, doc: D): (r: Cache<D, P, L, N>)
    ensures GetDocFromCache(r, slug) == Some(doc)
    ensures forall s :: s != slug ==> GetDocFromCache(r, s) == GetDocFromCache(c, s)
    ensures r.blog == c.blog && r.blogList == c.blogList && r.navigation == c.navigation
  {
    c.(docs := c.docs[slug := doc])
  }

  function RemoveDocFromCache<D, P, L, N>(c: Cache<D, P, L, N>, slug: string): (r: Cache<D, P, L, N>)
    ensures GetDocFromCache(r, slug) == None
    ensures forall s :: s != slug ==> GetDocFromCache(r, s) == GetDocFromCache(c, s)
    ensures r.blog == c.blog && r.blogList == c.blogList && r.navigation == c.navigation
  {
    c.(docs := c.docs - {slug})
  }

  function GetBlogPostFromCache<D, P, L, N>(c: Cache<D, P, L, N>, slug: string): (r: Option<P>)
    ensures r.Some? <==> slug in c.blog
    ensures r.Some? ==> r.value == c.blog[slug]
  {
    Lookup(c.blog, slug)
  }

  function SetBlogPostInCache<D, P, L, N>(c: Cache<D, P, L, N>, slug: string, post: P): (r: Cache<D, P, L, N>)
    ensures GetBlogPostFromCache(r, slug) == Some(post)
    ensures forall s :: s != slug ==> GetBlogPostFromCache(r, s) == GetBlogPostFromCache(c, s)
    ensures r.docs == c.docs && r.blogList == c.blogList && r.navigation == c.navigation
  {
    c.(blog := c.blog[slug := post])
  }

  function RemoveBlogPostFromCache<D, P, L, N>(c: Cache<D, P, L, N>, slug: string): (r: Cache<D, P, L, N>)
    ensures GetBlogPostFromCache(r, slug) == None
    ensures forall s :: s != slug ==> GetBlogPostFromCache(r, s) == GetBlogPostFromCache(c, s)
    ensures r.docs == c.docs && r.blogList == c.blogList && r.navigation == c.navigation
  {
    c.(blog := c.blog - {slug})
  }

  /** The document map behaves as a map: a get after a set of the same slug returns the
      value set, a get after a remove of it returns nothing, and neither touches any other
      slug or any other part of the cache. */
  lemma DocCacheLaws<D, P, L, N>(c: Cache<D, P, L, N>, slug: string, other: string, doc: D)
    requires other != slug
    ensures GetDocFromCache(SetDocInCache(c, slug, doc), slug) == Some(doc)
    ensures GetDocFromCache(SetDocInCache(c, slug, doc), other) == GetDocFromCache(c, other)
    ensures GetDocFromCache(RemoveDocFromCache(c, slug), slug) == None
    ensures GetDocFromCache(RemoveDocFromCache(c, slug), other) == GetDocFromCache(c, other)
    ensures SetDocInCache(c, slug, doc).(docs := c.docs) == c
    ensures RemoveDocFromCache(c, slug).(docs := c.docs) == c
    ensures GetDocFromCache(ClearDocsCache(c), slug) == None
  {
  }

  /** The same laws for the blog post map. */
  lemma BlogCacheLaws<D, P, L, N>(c: Cache<D, P, L, N>, slug: string, other: string, post: P)
    requires other != slug
    ensures GetBlogPostFromCache(SetBlogPostInCache(c, slug, post), slug) == Some(post)
    ensures GetBlogPostFromCache(SetBlogPostInCache(c, slug, post), other) == GetBlogPostFromCache(c, other)
    ensures GetBlogPostFromCache(RemoveBlogPostFromCache(c, slug), slug) == None
    ensures GetBlogPostFromCache(RemoveBlogPostFromCache(c, slug), other) == GetBlogPostFromCache(c, other)
    ensures SetBlogPostInCache(c, slug, post).(blog := c.blog) == c
    ensures GetBlogPostFromCache(ClearBlogCache(c), slug) == None
  {
  }

  function GetBlogListFromCache<D, P, L, N>(c: Cache<D, P, L, N>): Option<L> {
    c.blogList.data
  }

  /** `setBlogListInCache(data)`, stamped with `now`. */
  function SetBlogListInCache<D, P, L, N>(c: Cache<D, P, L, N>, data: Option<L>, now: int): (r: Cache<D, P, L, N>)
    ensures GetBlogListFromCache(r) == data && r.blogList.timestamp == now
    ensures r.docs == c.docs && r.blog == c.blog && r.navigation == c.navigation
  {
    c.(blogList := Slot(data, now))
  }

  function GetNavigationFromCache<D, P, L, N>(c: Cache<D, P, L, N>): Option<N> {
    c.navigation.data
  }

  function SetNavigationInCache<D, P, L, N>(c: Cache<D, P, L, N>, data: Option<N>, now: int): (r: Cache<D, P, L, N>)
    ensures GetNavigationFromCache(r) == data && r.navigation.timestamp == now
    ensures r.docs == c.docs && r.blog == c.blog && r.blogList == c.blogList
  {
    c.(navigation := Slot(data, now))
  }

  /** A slot is fresh when it holds data stored less than `maxAge` ago. */
  predicate IsFresh<T>(s: Slot<T>, now: int, maxAge: int) {
    s.data.Some? && now - s.timestamp < maxAge
  }

  function IsBlogListCacheValid<D, P, L, N>(c: Cache<D, P, L, N>, now: int, maxAge: int): (b: bool)
    ensures b <==> GetBlogListFromCache(c).Some? && now - c.blogList.timestamp < maxAge
  {
    IsFresh(c.blogList, now, maxAge)
  }

  function IsNavigationCacheValid<D, P, L, N>(c: Cache<D, P, L, N>, now: int, maxAge: int): (b: bool)
    ensures b <==> GetNavigationFromCache(c).Some? && now - c.navigation.timestamp < maxAge
  {
    IsFresh(c.navigation, now, maxAge)
  }

  /** Data stored at time `t` reads back and stays valid exactly while less than `maxAge`
      has passed; a cleared slot is never valid. */
  lemma NavigationSlotLaws<D, P, L, N>(c: Cache<D, P, L, N>, data: N, t: int, now: int, maxAge: int)
    ensures GetNavigationFromCache(SetNavigationInCache(c, Some(data), t)) == Some(data)
    ensures IsNavigationCacheValid(SetNavigationInCache(c, Some(data), t), now, maxAge) <==> now - t < maxAge
    ensures !IsNavigationCacheValid(SetNavigationInCache(c, None, t), now, maxAge)
    ensures !IsNavigationCacheValid(ClearNavigationCache(c), now, maxAge)
    ensures GetNavigationFromCache(ClearNavigationCache(c)).None?
  {
  }

  /** The same for the blog list, which `clearBlogCache` also clears. */
  lemma BlogListSlotLaws<D, P, L, N>(c: Cache<D, P, L, N>, data: L, t: int, now: int, maxAge: int)
    ensures GetBlogListFromCache(SetBlogListInCache(c, Some(data), t)) == Some(data)
    ensures IsBlogListCacheValid(SetBlogListInCache(c, Some(data), t), now, maxAge) <==> now - t < maxAge
    ensures !IsBlogListCacheValid(ClearBlogCache(c), now, maxAge)
    ensures GetBlogListFromCache(ClearBlogCache(c)).None?
  {
  }

  /** With the default age, navigation stored at `t` is valid until just before `t + 5000`. */
  lemma DefaultMaxAgeWindow<D, P, L, N>(c: Cache<D, P, L, N>, data: N, t: int)
    ensures IsNavigationCacheValid(SetNavigationInCache(c, Some(data), t), t + 4999, DefaultMaxAge)
    ensures !IsNavigationCacheValid(SetNavigationInCache(c, Some(data), t), t + 5000, DefaultMaxAge)
  {
  }
}
