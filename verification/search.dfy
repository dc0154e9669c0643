/** The search box of the documentation site: which documents match a query, the
    title-first order of the matches, and what pressing Enter or choosing a result does.
    `toLowerCase` is the parameter `lower`; the router and the `onSelect` callback are
    replaced by the href pushed and the document selected, which the model returns. */
module Search {
  import opened Wrappers
  import opened Strings
  import opened StableSort
  import opened Seqs
  import opened Types
  import Config

  /** The lower-cased query occurs in the lower-cased title. */
  predicate TitleHit(d: Doc, q: string, lower: string -> string) {
    Contains(lower(d.meta.title), lower(q))
  }

  /** The filter of the search effect: the lower-cased query occurs in the title, the
      description when there is one, one of the tags when there are any, or the content
      when it is a non-empty string. */
  predicate Matches(d: Doc, q: string, lower: string -> string) {
    || TitleHit(d, q, lower)
    || (d.meta.description.Some? && Contains(lower(d.meta.description.value), lower(q)))
    || (d.meta.tags.Some? && exists t :: t in d.meta.tags.value && Contains(lower(t), lower(q)))
    || (d.content != "" && Contains(lower(d.content), lower(q)))
  }

  function MatchFn(q: string, lower: string -> string): Doc -> bool {
    (d: Doc) => Matches(d, q, lower)
  }

  function TitleFn(q: string, lower: string -> string): Doc -> bool {
    (d: Doc) => TitleHit(d, q, lower)
  }

  /** The results the effect stores for query `q`: nothing for the empty query, otherwise
      the matching documents sorted by the comparator that puts title hits first and
      returns 0 for every other pair. */
  function SearchResults(docs: seq<Doc>, q: string, lower: string -> string): (r: seq<Doc>)
    ensures q == "" ==> r == []
    ensures q != "" ==> forall d :: multiset(r)[d] == if Matches(d, q, lower) then multiset(docs)[d] else 0
    ensures forall d :: d in r <==> d in docs && Matches(d, q, lower) && q != ""
    ensures forall i, j :: 0 <= i < j < |r| && TitleHit(r[j], q, lower) ==> TitleHit(r[i], q, lower)
  {
    if q == "" then []
    else
      SortedMatches(docs, q, lower);
      Sort(Filter(MatchFn(q, lower), docs), TitleFirst(q, lower))
  }

  /** The comparator of the results, which returns -1 when only `a` is a title hit, 1 when
      only `b` is, and 0 otherwise: title hits before everything else, all other pairs
      equal. */
  function TitleFirst(q: string, lower: string -> string): (le: (Doc, Doc) -> bool)
    ensures TotalPreorder(le)
    ensures forall a, b :: le(a, b) <==> TitleHit(a, q, lower) || !TitleHit(b, q, lower)
  {
    ByKeyIsTotalPreorder(FlagRank(TitleFn(q, lower)));
    ByKey(FlagRank(TitleFn(q, lower)))
  }

  /** The matches sorted title hits first hold each matching document as often as the
      input does, and no title hit follows another result. */
  lemma SortedMatches(docs: seq<Doc>, q: string, lower: string -> string)
    ensures var r := Sort(Filter(MatchFn(q, lower), docs), TitleFirst(q, lower));
      && (forall d :: multiset(r)[d] == if Matches(d, q, lower) then multiset(docs)[d] else 0)
      && (forall d :: d in r <==> d in docs && Matches(d, q, lower))
      && (forall i, j :: 0 <= i < j < |r| && TitleHit(r[j], q, lower) ==> TitleHit(r[i], q, lower))
  {
    var r := Sort(Filter(MatchFn(q, lower), docs), TitleFirst(q, lower));
    MatchesKept(docs, q, lower, r);
    TitleHitsFirst(q, lower, r);
  }

  lemma MatchesKept(docs: seq<Doc>, q: string, lower: string -> string, r: seq<Doc>)
    requires multiset(r) == multiset(Filter(MatchFn(q, lower), docs))
    ensures forall d :: multiset(r)[d] == if Matches(d, q, lower) then multiset(docs)[d] else 0
    ensures forall d :: d in r <==> d in docs && Matches(d, q, lower)
  {
    forall d
      ensures d in r <==> d in docs && Matches(d, q, lower)
    {
      assert d in r <==> multiset(r)[d] > 0;
      assert d in docs <==> multiset(docs)[d] > 0;
    }
  }

  lemma TitleHitsFirst(q: string, lower: string -> string, r: seq<Doc>)
    requires Sorted(r, TitleFirst(q, lower))
    ensures forall i, j :: 0 <= i < j < |r| && TitleHit(r[j], q, lower) ==> TitleHit(r[i], q, lower)
  {
    forall i, j | 0 <= i < j < |r| && TitleHit(r[j], q, lower)
      ensures TitleHit(r[i], q, lower)
    {
      assert TitleFirst(q, lower)(r[i], r[j]);
    }
  }

  /** Because the sort is stable and the comparator only separates title hits from the
      rest, the results are the matching title hits in input order followed by the other
      matches in input order. */
  lemma SearchIsStablePartition(docs: seq<Doc>, q: string, lower: string -> string)
    requires q != ""
    ensures SearchResults(docs, q, lower)
         == Filter(TitleFn(q, lower), Filter(MatchFn(q, lower), docs))
          + Filter(Not(TitleFn(q, lower)), Filter(MatchFn(q, lower), docs))
  {
    SortByFlag(Filter(MatchFn(q, lower), docs), TitleFn(q, lower));
  }

  /** When some document's title contains the query, the first result, the one Enter
      opens, is a title hit. */
  lemma BestMatchHitsTitle(docs: seq<Doc>, q: string, lower: string -> string, d: Doc)
    requires q != "" && d in docs && TitleHit(d, q, lower)
    ensures SearchResults(docs, q, lower) != []
    ensures TitleHit(SearchResults(docs, q, lower)[0], q, lower)
  {
    var r := SearchResults(docs, q, lower);
    assert multiset(r)[d] > 0;
    var j :| 0 <= j < |r| && r[j] == d;
    if j > 0 {
      assert TitleHit(r[j], q, lower);
    }
  }

  datatype SearchState = SearchState(query: string, results: seq<Doc>, isOpen: bool)

  /** The state the component mounts with. */
  const Initial := SearchState("", [], false)

  /** The effect that runs after the query or the documents change. */
  function Refresh(st: SearchState, docs: seq<Doc>, lower: string -> string): (r: SearchState)
    ensures r.query == st.query
    ensures r.isOpen <==> st.query != ""
    ensures !r.isOpen ==> r.results == []
    ensures forall d :: d in r.results ==> d in docs && Matches(d, st.query, lower)
  {
    SearchState(st.query, SearchResults(docs, st.query, lower), st.query != "")
  }

  /** `handleSelect`: clears the query and closes the dropdown; the results stay until
      the effect runs again. */
  function HandleSelect(st: SearchState): (r: SearchState)
    ensures r.query == "" && !r.isOpen && r.results == st.results
  {
    st.(query := "", isOpen := false)
  }

  /** The link of a result, and the page Enter navigates to. */
  function ResultHref(cfg: DocsflyConfig, d: Doc): (h: string)
    ensures h == OrElse(Config.DocsOf(cfg).baseUrl, "/docs") + "/" + d.slug
  {
    SlugHref(Config.DocsOf(cfg).baseUrl, "/docs", d.slug)
  }

  /** What a key press does: the new state, the href pushed to the router, and the
      document handed to `onSelect`. */
  datatype KeyOutcome = KeyOutcome(state: SearchState, pushed: Option<string>, selected: Option<Doc>)

  /** `handleKeyDown`: Enter with at least one result opens the first result and selects
      it; any other key, or Enter with no results, does nothing. */
  function HandleKeyDown(st: SearchState, key: string, cfg: DocsflyConfig): (r: KeyOutcome)
    ensures r.pushed.Some? <==> key == "Enter" && st.results != []
    ensures r.pushed.Some? ==>
      && r.pushed.value == ResultHref(cfg, st.results[0])
      && r.selected == Some(st.results[0])
      && r.state == HandleSelect(st)
    ensures r.pushed.None? ==> r == KeyOutcome(st, None, None)
  {
    if key == "Enter" && |st.results| > 0 then
      var best := st.results[0];
      KeyOutcome(HandleSelect(st), Some(ResultHref(cfg, best)), Some(best))
    else
      KeyOutcome(st, None, None)
  }

  /** After Enter opens a result and the effect runs, the box is back in its initial
      state: empty query, no results, closed. */
  lemma EnterResets(st: SearchState, cfg: DocsflyConfig, docs: seq<Doc>, lower: string -> string)
    requires st.results != []
    ensures Refresh(HandleKeyDown(st, "Enter", cfg).state, docs, lower) == Initial
  {
  }

  /** A document typed into the box and opened with Enter is the first result of the
      query, and the page opened is that result's link. */
  lemma EnterOpensBestMatch(q: string, docs: seq<Doc>, lower: string -> string, cfg: DocsflyConfig)
    requires q != "" && SearchResults(docs, q, lower) != []
    ensures var st := Refresh(SearchState(q, [], false), docs, lower);
      var out := HandleKeyDown(st, "Enter", cfg);
      && out.selected == Some(SearchResults(docs, q, lower)[0])
      && out.pushed == Some(ResultHref(cfg, SearchResults(docs, q, lower)[0]))
      && Matches(SearchResults(docs, q, lower)[0], q, lower)
  {
    var r := SearchResults(docs, q, lower);
    assert multiset(r)[r[0]] > 0;
  }
}
