/** `withDocsfly`, the wrapper around a Next.js configuration: it keeps every key of the
    user's configuration, copies `experimental`, and forces standalone output with file
    tracing of the `docs` and `blog` directories. The values of keys the wrapper does not
    touch are opaque (`V`). */
module WithDocsfly {
  import opened Wrappers

  /** A Next.js configuration: the three keys the wrapper writes, and every other key. */
  datatype NextConfig<V> = NextConfig(
    rest: map<string, V>,
    experimental: Option<map<string, V>>,
    output: Option<string>,
    outputFileTracingIncludes: Option<map<string, seq<string>>>)

  /** `rest` holds only the keys that have no field of their own. */
  predicate Valid<V>(c: NextConfig<V>) {
    "experimental" !in c.rest && "output" !in c.rest && "outputFileTracingIncludes" !in c.rest
  }

  /** The configuration `{}` the parameter defaults to. */
  function EmptyConfig<V>(): NextConfig<V> {
    NextConfig(map[], None, None, None)
  }

  /** The route-to-glob table the wrapper installs. */
  const TracingIncludes: map<string, seq<string>> := map[
    "/*" := ["./docs/**/*", "./blog/**/*"],
    "/docs/*" := ["./docs/**/*"],
    "/blog/*" := ["./blog/**/*"]]

  /** `withDocsfly(nextConfig = {})`. */
  function WithDocsfly<V>(nextConfig: Option<NextConfig<V>>): (r: NextConfig<V>)
    ensures r.output == Some("standalone")
    ensures r.outputFileTracingIncludes == Some(TracingIncludes)
    ensures nextConfig.None? ==> r.rest == map[] && r.experimental == Some(map[])
    ensures nextConfig.Some? ==> r.rest == nextConfig.value.rest
    ensures nextConfig.Some? && nextConfig.value.experimental.Some? ==> r.experimental == nextConfig.value.experimental
    ensures nextConfig.Some? && nextConfig.value.experimental.None? ==> r.experimental == Some(map[])
  {
    var c := nextConfig.GetOr(EmptyConfig());
    NextConfig(c.rest, Some(c.experimental.GetOr(map[])), Some("standalone"), Some(TracingIncludes))
  }

  /** Wrapping twice is wrapping once. */
  lemma WithDocsflyIdempotent<V>(c: Option<NextConfig<V>>)
    ensures WithDocsfly(Some(WithDocsfly(c))) == WithDocsfly(c)
  {
  }

  /** Only the three written keys change: putting the user's values for them back gives
      the user's configuration, and a valid configuration stays valid. */
  lemma OnlyWrittenKeysChange<V>(c: NextConfig<V>)
    ensures var r := WithDocsfly(Some(c));
      r.(experimental := c.experimental, output := c.output,
         outputFileTracingIncludes := c.outputFileTracingIncludes) == c
    ensures Valid(c) ==> Valid(WithDocsfly(Some(c)))
  {
  }
}
