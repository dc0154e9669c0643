/** The blog post component's two rules: which author a post shows and where an excerpt
    links. */
module BlogPost {
  import opened Wrappers
  import opened Strings
  import opened Types
  import Config

  /** The record `{ name }` the component builds when no configured author applies. */
  function NameOnly(name: string): Author {
    Author(name, None, None, None)
  }

  /** `getAuthorInfo(authorKey)`: "Anonymous" without a key (absent or empty); the bare
      key when the configuration has no `blog.authors`; otherwise the configured author
      of that key, or the bare key when none is configured. */
  function GetAuthorInfo(cfg: DocsflyConfig, authorKey: Option<string>): (a: Author)
    ensures !Truthy(authorKey) ==> a == NameOnly("Anonymous")
    ensures Truthy(authorKey) && Config.BlogOf(cfg).authors.None? ==> a == NameOnly(authorKey.value)
    ensures Truthy(authorKey) && Config.BlogOf(cfg).authors.Some? ==>
      var authors := Config.BlogOf(cfg).authors.value;
      && (authorKey.value in authors ==> a == authors[authorKey.value])
      && (authorKey.value !in authors ==> a == NameOnly(authorKey.value))
  {
    var authors := Config.BlogOf(cfg).authors;
    if !Truthy(authorKey) || authors.None? then
      NameOnly(OrElse(authorKey, "Anonymous"))
    else if authorKey.value in authors.value then
      authors.value[authorKey.value]
    else
      NameOnly(authorKey.value)
  }

  /** Merging with the defaults changes no post's author: the default `authors` map is
      empty, which resolves every key to itself just as a missing map does. */
  lemma AuthorsSurviveMerge(u: DocsflyConfig, authorKey: Option<string>)
    ensures GetAuthorInfo(Config.MergeWithDefaults(u), authorKey) == GetAuthorInfo(u, authorKey)
  {
  }

  /** The link of an excerpt: `${blog.baseUrl || "/blog"}/${slug}`. */
  function ExcerptHref(cfg: DocsflyConfig, slug: string): (h: string)
    ensures StartsWith(h, OrElse(Config.BlogOf(cfg).baseUrl, "/blog") + "/")
    ensures h[|OrElse(Config.BlogOf(cfg).baseUrl, "/blog")| + 1..] == slug
  {
    SlugHref(Config.BlogOf(cfg).baseUrl, "/blog", slug)
  }

  /** Merging with the defaults leaves every excerpt link as it was: the default base
      is "/blog", the same as the fallback. */
  lemma ExcerptHrefSurvivesMerge(u: DocsflyConfig, slug: string)
    ensures ExcerptHref(Config.MergeWithDefaults(u), slug) == ExcerptHref(u, slug)
  {
  }
}
