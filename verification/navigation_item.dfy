/** One entry of the sidebar (`NavigationItem`): whether it marks the current page,
    whether it starts expanded, what its expand button does and which children it shows.
    `pathname` is the path of the current URL. */
module NavigationItem {
  import opened Wrappers
  import opened Strings
  import opened StableSort
  import opened Grouping
  import opened Types
  import Docs

  /** `href.replace("#", "")`: the first `#` removed. */
  function StripHash(href: string): (r: string)
    ensures !Contains(href, "#") ==> r == href
    ensures Contains(href, "#") ==>
      exists i :: OccursAt(href, "#", i) && (forall j :: 0 <= j < i ==> !OccursAt(href, "#", j))
                  && r == href[..i] + href[i + 1..]
    ensures Contains(href, "#") ==> r == href[..IndexOf(href, "#")] + href[IndexOf(href, "#") + 1..]
    ensures |r| == |href| - (if Contains(href, "#") then 1 else 0)
  {
    var i := IndexOf(href, "#");
    if i < 0 then href
    else
      assert OccursAt(href, "#", i);
      href[..i] + href[i + 1..]
  }

  /** The entry is highlighted as the current page. */
  function IsActive(pathname: string, item: NavItem): (b: bool)
    ensures !Contains(item.href, "#") ==> (b <==> pathname == item.href)
    ensures Contains(item.href, "#") ==>
      (b <==> pathname == item.href[..IndexOf(item.href, "#")] + item.href[IndexOf(item.href, "#") + 1..])
    ensures b ==> |pathname| == |item.href| - (if Contains(item.href, "#") then 1 else 0)
    ensures item.href == "#" ==> (b <==> pathname == "")
  {
    pathname == StripHash(item.href)
  }

  /** `item.children && item.children.length > 0`: an empty list counts as no children. */
  function HasChildren(item: NavItem): (b: bool)
    ensures item.children.None? ==> !b
    ensures item.children == Some([]) ==> !b
    ensures b <==> exists c :: item.children.Some? && c in item.children.value
  {
    if item.children.Some? && |item.children.value| > 0 then
      assert item.children.value[0] in item.children.value;
      true
    else false
  }

  /** Some child's link, `#` removed, is a prefix of the current path. */
  predicate HasActiveChild(pathname: string, item: NavItem) {
    item.children.Some? && exists c :: c in item.children.value && StartsWith(pathname, StripHash(c.href))
  }

  /** The initial value of `isExpanded`: closed without children; open when a child
      matches the current path, whatever `collapsed` says; otherwise open unless
      `collapsed` is `true`. */
  function InitiallyExpanded(pathname: string, item: NavItem): (e: bool)
    ensures e ==> HasChildren(item)
    ensures HasChildren(item) && HasActiveChild(pathname, item) ==> e
    ensures HasChildren(item) && !HasActiveChild(pathname, item) ==> (e <==> item.collapsed != Some(true))
  {
    if !HasChildren(item) then false
    else if HasActiveChild(pathname, item) then true
    else item.collapsed != Some(true)
  }

  /** `toggleExpanded`: flips the state of an entry with children, and does nothing to
      any other entry. */
  function Toggle(item: NavItem, expanded: bool): (e: bool)
    ensures HasChildren(item) ==> e != expanded
    ensures !HasChildren(item) ==> e == expanded
  {
    if HasChildren(item) then !expanded else expanded
  }

  /** Clicking twice restores the state; an entry without children never opens. */
  lemma ToggleLaws(item: NavItem, expanded: bool, pathname: string)
    ensures Toggle(item, Toggle(item, expanded)) == expanded
    ensures !HasChildren(item) ==> !Toggle(item, InitiallyExpanded(pathname, item))
  {
  }

  /** The children rendered below the entry, each with its depth: all of them, one level
      deeper, when the entry has children and is expanded; none otherwise. */
  function VisibleChildren(item: NavItem, expanded: bool, depth: nat): (r: seq<(NavItem, nat)>)
    ensures r != [] <==> HasChildren(item) && expanded
    ensures r != [] ==> |r| == |item.children.value|
    ensures forall i :: 0 <= i < |r| ==> r[i] == (item.children.value[i], depth + 1)
  {
    if HasChildren(item) && expanded then
      seq(|item.children.value|, i requires 0 <= i < |item.children.value| => (item.children.value[i], depth + 1))
    else []
  }

  /** A child linking to `#` strips to the empty path, a prefix of every path, so its
      parent starts expanded on every page, even when marked `collapsed`. */
  lemma HashChildExpands(item: NavItem, pathname: string, c: NavItem)
    requires item.children.Some? && c in item.children.value && c.href == "#"
    ensures InitiallyExpanded(pathname, item)
  {
    assert OccursAt(c.href, "#", 0);
    assert StripHash(c.href) == "";
  }

  /** A link without `#` is active exactly on its own path. */
  lemma ActiveWithoutHash(pathname: string, item: NavItem)
    requires !Contains(item.href, "#")
    ensures IsActive(pathname, item) <==> pathname == item.href
  {
  }

  /** In the generated sidebar, on every page, each category node starts expanded and
      shows all its leaves one level down, and each document leaf starts closed. */
  lemma GeneratedSidebarExpansion(docs: seq<Doc>, base: string, le: (string, string) -> bool, pathname: string)
    requires TotalPreorder(le)
    ensures var r, k := Docs.BuildNavigation(docs, base, le), |GroupBy(docs, Docs.CategoryOf)|;
      && (forall i :: 0 <= i < k ==>
            InitiallyExpanded(pathname, r[i]) && |VisibleChildren(r[i], true, 0)| == |r[i].children.value|)
      && (forall i :: k <= i < |r| ==> !InitiallyExpanded(pathname, r[i]))
  {
    var r, gs := Docs.BuildNavigation(docs, base, le), GroupBy(docs, Docs.CategoryOf);
    Docs.NavigationShape(docs, base, le);
    forall i | 0 <= i < |gs|
      ensures r[i].collapsed.None?
    {
      assert r[i] == Docs.CategoryNodes(gs, base, le)[i];
    }
  }
}
