/** The development file watcher `DocsflyHotReload` as a state machine. A watcher handle
    field is either set or null; besides the handles the state counts the watchers that
    are actually open, because a handle can be overwritten while its watcher keeps
    running. Each open watcher runs the event handlers attached to it. Whether the
    directories exist and whether starting a watcher throws are observations passed in. */
module HotReload {
  import opened Wrappers
  import opened Strings
  import opened Types
  import Config

  /** The constructor options: which callbacks are given, and `enabled` if given. */
  datatype Options = Options(
    hasOnDocChange: bool, hasOnBlogChange: bool, hasOnNavigationChange: bool, enabled: Option<bool>)

  datatype Watcher = Watcher(
    options: Options,
    enabled: bool,
    docsDirectory: string,
    blogDirectory: Option<string>,
    docsWatcher: bool,
    blogWatcher: bool,
    isWatching: bool,
    openDocs: nat,
    openBlog: nat)

  /** The constructor: `enabled` is development mode unless the options say otherwise;
      the blog is watched only when the configuration enables it. Reading an absent
      `docs.dir`, or an absent `blog.dir` of an enabled blog, throws. */
  function Construct(options: Options, isDevelopment: bool, cfg: DocsflyConfig): (r: Option<Watcher>)
    ensures r.Some? <==>
      Config.DocsOf(cfg).dir.Some? && (Config.BlogOf(cfg).enabled == Some(true) ==> Config.BlogOf(cfg).dir.Some?)
    ensures r.Some? ==>
      && r.value.enabled == (if options.enabled.Some? then options.enabled.value else isDevelopment)
      && r.value.docsDirectory == Config.DocsOf(cfg).dir.value
      && (r.value.blogDirectory.Some? <==> Config.BlogOf(cfg).enabled == Some(true))
      && !r.value.isWatching && !r.value.docsWatcher && !r.value.blogWatcher
      && r.value.openDocs == 0 && r.value.openBlog == 0
  {
    var docs, blog := Config.DocsOf(cfg), Config.BlogOf(cfg);
    if docs.dir.None? then None
    else if blog.enabled == Some(true) && blog.dir.None? then None
    else
      var blogDirectory := if blog.enabled == Some(true) then Some(blog.dir.value) else None;
      Some(Watcher(options, options.enabled.GetOr(isDevelopment), docs.dir.value, blogDirectory,
                   false, false, false, 0, 0))
  }

  /** A configuration produced by the merge always constructs. */
  lemma ConstructMerged(options: Options, isDevelopment: bool, u: DocsflyConfig)
    ensures Construct(options, isDevelopment, Config.MergeWithDefaults(u)).Some?
  {
    Config.MergeSections(u);
  }

  /** `isEnabled`. */
  function IsEnabled(w: Watcher): (r: bool)
    ensures r == w.enabled
  {
    w.enabled
  }

  /** What `start` observes: whether its `fs` dependency loads, whether each directory
      exists, and whether starting each watcher throws. */
  datatype StartEnv = StartEnv(
    fsLoads: bool, docsExists: bool, blogExists: bool, docsWatchThrows: bool, blogWatchThrows: bool)

  /** `start`, as written. A throw anywhere leaves `isWatching` false but keeps whatever
      was already assigned, so a docs watcher opened before a failing blog watcher stays
      open. */
  function Start(w: Watcher, env: StartEnv): (r: Watcher)
    ensures !w.enabled || w.isWatching ==> r == w
    ensures r.options == w.options && r.enabled == w.enabled
    ensures r.docsDirectory == w.docsDirectory && r.blogDirectory == w.blogDirectory
  {
    if !w.enabled || w.isWatching || !env.fsLoads then w
    else if env.docsExists && env.docsWatchThrows then w
    else
      var w1 := if env.docsExists then w.(docsWatcher := true, openDocs := w.openDocs + 1) else w;
      var startBlog := w.blogDirectory.Some? && env.blogExists;
      if startBlog && env.blogWatchThrows then w1
      else
        var w2 := if startBlog then w1.(blogWatcher := true, openBlog := w1.openBlog + 1) else w1;
        w2.(isWatching := true)
  }

  /** A start that does not throw. */
  predicate StartSucceeds(w: Watcher, env: StartEnv) {
    && env.fsLoads
    && !(env.docsExists && env.docsWatchThrows)
    && !(w.blogDirectory.Some? && env.blogExists && env.blogWatchThrows)
  }

  /** An enabled, stopped watcher whose start does not throw is watching afterwards,
      even when the documents directory is missing; it opens a docs watcher exactly when
      the directory exists and a blog watcher exactly when the blog is enabled and its
      directory exists. */
  lemma StartWatches(w: Watcher, env: StartEnv)
    requires w.enabled && !w.isWatching && StartSucceeds(w, env)
    ensures var r := Start(w, env);
      && r.isWatching
      && r.openDocs == w.openDocs + (if env.docsExists then 1 else 0)
      && r.openBlog == w.openBlog + (if w.blogDirectory.Some? && env.blogExists then 1 else 0)
      && (env.docsExists ==> r.docsWatcher) && (!env.docsExists ==> r.docsWatcher == w.docsWatcher)
  {
  }

  /** A start that throws leaves the watcher not watching. */
  lemma StartFailure(w: Watcher, env: StartEnv)
    requires w.enabled && !w.isWatching && !StartSucceeds(w, env)
    ensures !Start(w, env).isWatching
  {
  }

  /** `stop`: closes the watchers the handles point to and clears them. */
  function Stop(w: Watcher): (r: Watcher)
    ensures !r.isWatching && !r.docsWatcher && !r.blogWatcher
    ensures r.openDocs == w.openDocs - (if w.docsWatcher && w.openDocs > 0 then 1 else 0)
    ensures r.openBlog == w.openBlog - (if w.blogWatcher && w.openBlog > 0 then 1 else 0)
    ensures r.enabled == w.enabled && r.options == w.options
  {
    var openDocs := if w.docsWatcher && w.openDocs > 0 then w.openDocs - 1 else w.openDocs;
    var openBlog := if w.blogWatcher && w.openBlog > 0 then w.openBlog - 1 else w.openBlog;
    w.(docsWatcher := false, blogWatcher := false, isWatching := false,
       openDocs := openDocs, openBlog := openBlog)
  }

  /** Starting twice is starting once, and stopping twice is stopping once; after a stop
      an enabled watcher can be started again. */
  lemma StartStopIdempotent(w: Watcher, env: StartEnv, env': StartEnv)
    ensures Start(w, env).isWatching ==> Start(Start(w, env), env') == Start(w, env)
    ensures Stop(Stop(w)) == Stop(w)
    ensures w.enabled && StartSucceeds(Stop(w), env) ==> Start(Stop(w), env).isWatching
  {
  }

  /** Every open watcher is the one its handle points to. */
  predicate Tidy(w: Watcher) {
    && w.openDocs == (if w.docsWatcher then 1 else 0)
    && w.openBlog == (if w.blogWatcher then 1 else 0)
  }

  /** `start` with a guard against opening a watcher whose handle is already set. */
  function StartGuarded(w: Watcher, env: StartEnv): (r: Watcher)
    ensures Tidy(w) ==> Tidy(r)
    ensures !w.enabled || w.isWatching ==> r == w
    ensures w.enabled && !w.isWatching && StartSucceeds(w, env) ==> r.isWatching
  {
    if !w.enabled || w.isWatching || !env.fsLoads then w
    else
      var openingDocs := env.docsExists && !w.docsWatcher;
      if openingDocs && env.docsWatchThrows then w
      else
        var w1 := if openingDocs then w.(docsWatcher := true, openDocs := w.openDocs + 1) else w;
        var openingBlog := w.blogDirectory.Some? && env.blogExists && !w.blogWatcher;
        if openingBlog && env.blogWatchThrows then w1
        else
          var w2 := if openingBlog then w1.(blogWatcher := true, openBlog := w1.openBlog + 1) else w1;
          w2.(isWatching := true)
  }

  /** With the guarded start, a stop always leaves no watcher open, whatever happened
      before. */
  lemma GuardedStopClosesAll(w: Watcher, env: StartEnv)
    requires Tidy(w)
    ensures Tidy(Stop(w)) && Stop(w).openDocs == 0 && Stop(w).openBlog == 0
    ensures Tidy(StartGuarded(w, env))
  {
  }

  // ----- events -----

  datatype EventKind = Add | Change | Unlink

  datatype Callback = DocChange(path: string, kind: EventKind) | BlogChange(path: string, kind: EventKind) | NavigationChange

  predicate IsMarkdown(path: string) {
    EndsWith(path, ".mdx") || EndsWith(path, ".md")
  }

  /** The docs watcher's handler: Markdown paths only; `add` and `unlink` also announce a
      navigation change, after the document change. Absent callbacks are skipped. */
  function DocsHandler(o: Options, kind: EventKind, path: string): (r: seq<Callback>)
    ensures !IsMarkdown(path) ==> r == []
    ensures DocChange(path, kind) in r <==> IsMarkdown(path) && o.hasOnDocChange
    ensures NavigationChange in r <==> IsMarkdown(path) && o.hasOnNavigationChange && kind != Change
    ensures forall c :: c in r ==> c == DocChange(path, kind) || c == NavigationChange
    ensures |r| == 2 ==> r == [DocChange(path, kind), NavigationChange]
  {
    if !IsMarkdown(path) then []
    else
      (if o.hasOnDocChange then [DocChange(path, kind)] else [])
      + (if kind != Change && o.hasOnNavigationChange then [NavigationChange] else [])
  }

  /** The blog watcher's handler: every path, the same kind, never a navigation change. */
  function BlogHandler(o: Options, kind: EventKind, path: string): (r: seq<Callback>)
    ensures NavigationChange !in r
    ensures r == [] || r == [BlogChange(path, kind)]
    ensures r != [] <==> o.hasOnBlogChange
  {
    if o.hasOnBlogChange then [BlogChange(path, kind)] else []
  }

  function Repeat<T>(s: seq<T>, n: nat): (r: seq<T>)
    ensures n == 0 ==> r == []
    ensures n == 1 ==> r == s
    ensures forall x :: x in r ==> x in s
  {
    if n == 0 then [] else s + Repeat(s, n - 1)
  }

  /** A file event under the documents directory: every open docs watcher runs the handler. */
  function DocsEvent(w: Watcher, kind: EventKind, path: string): (r: seq<Callback>)
    ensures w.openDocs == 0 ==> r == []
    ensures Tidy(w) && w.docsWatcher ==> r == DocsHandler(w.options, kind, path)
  {
    Repeat(DocsHandler(w.options, kind, path), w.openDocs)
  }

  /** A file event under the blog directory. */
  function BlogEvent(w: Watcher, kind: EventKind, path: string): (r: seq<Callback>)
    ensures w.openBlog == 0 ==> r == []
    ensures Tidy(w) && w.blogWatcher ==> r == BlogHandler(w.options, kind, path)
    ensures NavigationChange !in r
  {
    Repeat(BlogHandler(w.options, kind, path), w.openBlog)
  }

  /** When the blog watcher fails to start after the docs watcher started, a second
      `start` opens another docs watcher over the first, and `stop` closes only one:
      document events still fire after the stop. */
  lemma StartLeaksDocsWatcher(o: Options, dir: string, blogDir: string)
    requires o.hasOnDocChange
    ensures var w0 := Watcher(o, true, dir, Some(blogDir), false, false, false, 0, 0);
            var failing := StartEnv(true, true, true, false, true);
            var ok := StartEnv(true, true, true, false, false);
            var w3 := Stop(Start(Start(w0, failing), ok));
            && w3.openDocs == 1 && !w3.isWatching && !w3.docsWatcher
            && DocsEvent(w3, Change, "a.mdx") == [DocChange("a.mdx", Change)]
  {
    var w0 := Watcher(o, true, dir, Some(blogDir), false, false, false, 0, 0);
    var failing := StartEnv(true, true, true, false, true);
    var ok := StartEnv(true, true, true, false, false);
    var w1 := Start(w0, failing);
    assert w1.openDocs == 1 && w1.docsWatcher && !w1.isWatching;
    var w2 := Start(w1, ok);
    assert w2.openDocs == 2;
    assert IsMarkdown("a.mdx") by {
      assert "a.mdx"[|"a.mdx"| - |".mdx"|..] == ".mdx";
    }
  }
}
