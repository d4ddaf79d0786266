/**
 * The folder tree of the document-library viewer: searching it
 * (`filterTree`), serialising it to HTML (`renderTreeItem`) and ordering the
 * top-level folders by name.
 */
module FolderTree {
  import opened Common
  import opened Text

  /**
   * A folder of the tree (`ITreeItem`): its server-relative URL as `id`, its
   * name as `text`, optional sub-folders, an optional `children` list the
   * viewer never reads, and an optional expanded flag.
   */
  datatype TreeItem = TreeItem(
    id: string,
    text: string,
    items: SubFolders,
    children: SubFolders,
    expanded: Option<bool>)

  /** An optional list of sub-folders (the `items?` and `children?` properties). */
  datatype SubFolders = Absent | Present(folders: seq<TreeItem>)

  /** `item.items`, an absent list read as empty. */
  function ItemsOf(item: TreeItem): seq<TreeItem> {
    if item.items.Present? then item.items.folders else []
  }

  /** The search test: the lower-cased name contains the lower-cased query. */
  predicate Matches(text: string, query: string) {
    IndexOf(Lower(text), Lower(query)) != -1
  }

  // ---------------------------------------------------------------------------
  // Search
  // ---------------------------------------------------------------------------

  /**
   * What `filterTree(items, query)` returns, written as the left fold its
   * `reduce` performs: each item contributes `FilterNode` in turn.
   */
  function FilterForest(items: seq<TreeItem>, query: string): seq<TreeItem>
    decreases items
  {
    if items == [] then []
    else FilterForest(items[..|items| - 1], query) + FilterNode(items[|items| - 1], query)
  }

  /**
   * One item's contribution: the item with its sub-folders filtered and its
   * expanded flag set to "the query is not empty", kept when its own name
   * matches or some sub-folder survives; nothing otherwise.
   */
  function FilterNode(item: TreeItem, query: string): seq<TreeItem>
    decreases item
  {
    var kids := if item.items.Present? then FilterForest(item.items.folders, query) else [];
    if Matches(item.text, query) || |kids| > 0 then
      [item.(items := Present(kids), expanded := Some(|query| > 0))]
    else []
  }

  /**
   * `filterTree`: the reducer pushes each surviving item onto the accumulator;
   * the sub-folders are filtered by a recursive call.
   */
  method FilterTree(items: seq<TreeItem>, searchQuery: string) returns (filtered: seq<TreeItem>)
    ensures filtered == FilterForest(items, searchQuery)
    decreases items
  {
    filtered := [];
    for i := 0 to |items|
      invariant filtered == FilterForest(items[..i], searchQuery)
    {
      var item := items[i];
      var matchesSearch := IndexOf(Lower(item.text), Lower(searchQuery)) != -1;
      var filteredChildren := [];
      if item.items.Present? {
        filteredChildren := FilterTree(item.items.folders, searchQuery);
      }
      if matchesSearch || |filteredChildren| > 0 {
        filtered := filtered + [item.(items := Present(filteredChildren), expanded := Some(|searchQuery| > 0))];
      }
      assert items[..i + 1][..i] == items[..i];
    }
    assert items[..|items|] == items;
  }

  /** The reference notion of a hit: the name of the item or of some folder below it matches. */
  predicate HasMatch(item: TreeItem, query: string)
    decreases item
  {
    Matches(item.text, query)
    || (item.items.Present? && exists i :: 0 <= i < |item.items.folders| && HasMatch(item.items.folders[i], query))
  }

  /** `HasMatch` for a fixed query, as a predicate value for `Filter`. */
  function HasMatchFor(query: string): TreeItem -> bool {
    x => HasMatch(x, query)
  }

  /** A surviving item: everything kept except its sub-folders (filtered) and its expanded flag. */
  function Pruned(item: TreeItem, query: string): TreeItem {
    item.(items := Present(FilterForest(ItemsOf(item), query)), expanded := Some(|query| > 0))
  }

  function PruneAll(items: seq<TreeItem>, query: string): (r: seq<TreeItem>)
    ensures |r| == |items|
    ensures forall i :: 0 <= i < |items| ==> r[i] == Pruned(items[i], query)
  {
    seq(|items|, i requires 0 <= i < |items| => Pruned(items[i], query))
  }

  lemma PruneAllAppend(a: seq<TreeItem>, b: seq<TreeItem>, query: string)
    ensures PruneAll(a + b, query) == PruneAll(a, query) + PruneAll(b, query)
  {
  }

  /**
   * What the search keeps: exactly the items with a match in their subtree,
   * in their input order, each pruned the same way below.
   */
  lemma {:induction false} FilterForestIsSelection(items: seq<TreeItem>, query: string)
    ensures FilterForest(items, query) == PruneAll(Filter(items, HasMatchFor(query)), query)
    decreases items
  {
    if items != [] {
      var init, last := items[..|items| - 1], items[|items| - 1];
      assert items == init + [last];
      var p := HasMatchFor(query);
      FilterForestIsSelection(init, query);
      FilterNodeKeepsHits(last, query);
      FilterAppend(init, [last], p);
      FilterSingle(last, p);
      assert p(last) == HasMatch(last, query);
      var tail := Filter([last], p);
      PruneAllAppend(Filter(init, p), tail, query);
      assert PruneAll(tail, query) == FilterNode(last, query);
    }
  }

  /** An item survives the search exactly when its subtree holds a match. */
  lemma {:induction false} FilterNodeKeepsHits(item: TreeItem, query: string)
    ensures FilterNode(item, query) == if HasMatch(item, query) then [Pruned(item, query)] else []
    decreases item
  {
    if item.items.Present? {
      var kids := item.items.folders;
      FilterForestIsSelection(kids, query);
      FilterEmpty(kids, HasMatchFor(query));
      assert |FilterForest(kids, query)| > 0 <==> exists i :: 0 <= i < |kids| && HasMatch(kids[i], query);
    }
  }

  /** Every folder at every depth of a forest is present with `items` and has the given expanded flag. */
  predicate ExpandedThroughout(forest: seq<TreeItem>, flag: bool)
    decreases forest
  {
    forall i :: 0 <= i < |forest| ==>
      forest[i].expanded == Some(flag) && forest[i].items.Present? && ExpandedThroughout(forest[i].items.folders, flag)
  }

  lemma ExpandedThroughoutAppend(a: seq<TreeItem>, b: seq<TreeItem>, flag: bool)
    requires ExpandedThroughout(a, flag) && ExpandedThroughout(b, flag)
    ensures ExpandedThroughout(a + b, flag)
  {
    forall i | 0 <= i < |a + b|
      ensures (a + b)[i].expanded == Some(flag) && (a + b)[i].items.Present? && ExpandedThroughout((a + b)[i].items.folders, flag)
    {
      if i < |a| { assert (a + b)[i] == a[i]; } else { assert (a + b)[i] == b[i - |a|]; }
    }
  }

  /** Every folder of a search result, at every depth, is expanded exactly when the query is not empty. */
  lemma {:induction false} FilterForestExpanded(items: seq<TreeItem>, query: string)
    ensures ExpandedThroughout(FilterForest(items, query), |query| > 0)
    decreases items
  {
    if items != [] {
      var init, last := items[..|items| - 1], items[|items| - 1];
      FilterForestExpanded(init, query);
      FilterNodeExpanded(last, query);
      ExpandedThroughoutAppend(FilterForest(init, query), FilterNode(last, query), |query| > 0);
    }
  }

  lemma {:induction false} FilterNodeExpanded(item: TreeItem, query: string)
    ensures ExpandedThroughout(FilterNode(item, query), |query| > 0)
    decreases item
  {
    if item.items.Present? {
      FilterForestExpanded(item.items.folders, query);
    }
  }

  /** With an empty query every folder survives, in order, at every depth. */
  lemma EmptyQueryKeepsEverything(items: seq<TreeItem>)
    ensures FilterForest(items, "") == PruneAll(items, "")
    ensures |FilterForest(items, "")| == |items|
  {
    forall i | 0 <= i < |items| ensures HasMatch(items[i], "") {
      assert OccursAt(Lower(items[i].text), Lower(""), 0);
    }
    FilterAll(items, HasMatchFor(""));
    FilterForestIsSelection(items, "");
  }

  /** The search result of a concatenation is the concatenation of the search results. */
  lemma {:induction false} FilterForestAppend(a: seq<TreeItem>, b: seq<TreeItem>, query: string)
    ensures FilterForest(a + b, query) == FilterForest(a, query) + FilterForest(b, query)
    decreases |b|
  {
    if b == [] {
      assert a + b == a;
    } else {
      var init := b[..|b| - 1];
      assert (a + b)[..|a + b| - 1] == a + init;
      assert (a + b)[|a + b| - 1] == b[|b| - 1];
      FilterForestAppend(a, init, query);
    }
  }

  /** Searching a search result again with the same query changes nothing. */
  lemma {:induction false} FilterForestIdempotent(items: seq<TreeItem>, query: string)
    ensures FilterForest(FilterForest(items, query), query) == FilterForest(items, query)
    decreases items
  {
    if items != [] {
      var init, last := items[..|items| - 1], items[|items| - 1];
      FilterForestIdempotent(init, query);
      FilterNodeIdempotent(last, query);
      FilterForestAppend(FilterForest(init, query), FilterNode(last, query), query);
    }
  }

  lemma {:induction false} FilterNodeIdempotent(item: TreeItem, query: string)
    ensures FilterForest(FilterNode(item, query), query) == FilterNode(item, query)
    decreases item
  {
    var out := FilterNode(item, query);
    if out != [] {
      var n := out[0];
      var kids := if item.items.Present? then FilterForest(item.items.folders, query) else [];
      if item.items.Present? {
        FilterForestIdempotent(item.items.folders, query);
      }
      assert n.items == Present(kids);
      assert FilterForest(kids, query) == kids;
      assert FilterNode(n, query) == [n];
      assert out == [n];
      assert [n][..0] == [];
    }
  }

  // ---------------------------------------------------------------------------
  // HTML serialisation
  // ---------------------------------------------------------------------------

  /** `item.items && item.items.length > 0`. */
  predicate HasChildren(item: TreeItem) {
    item.items.Present? && |item.items.folders| > 0
  }

  /** `item.expanded` read as a condition: an absent flag is false. */
  predicate IsExpanded(item: TreeItem) {
    item.expanded == Some(true)
  }

  const RowOpen := "\n          <div class=\"tree-item "
  const ExpandIconOpen := "<span class=\"expand-icon\">"
  const ChildrenOpen := "<div class=\"tree-children\" style=\"display: "
  const RowClose := "\n          </div>\n      "

  function ExpandedClass(item: TreeItem): string {
    if IsExpanded(item) then "expanded" else ""
  }

  function SelectedClass(item: TreeItem, currentUrl: string): string {
    if item.id == currentUrl then "selected" else ""
  }

  /** Everything up to the icon: the row's opening tag with its classes and the content line's opening tag. */
  function RowHead(item: TreeItem, currentUrl: string): string {
    HeadOf(ExpandedClass(item), SelectedClass(item, currentUrl), item.id)
  }

  function HeadOf(expanded: string, selected: string, id: string): string {
    ClassPart(expanded) + IdPart(selected, id)
  }

  /** `<div class="tree-item ${expanded} ` */
  function ClassPart(expanded: string): string {
    RowOpen + expanded + " "
  }

  /** `${selected}" data-id="${item.id}">` and the content line's opening tag. */
  function IdPart(selected: string, id: string): string {
    selected + "\" data-id=\"" + id + ContentOpen
  }

  /** The content line's opening tag, between the row's opening tag and the icon. */
  const ContentOpen := "\">\n              <div class=\"tree-item-content\" style=\"display: flex; align-items: center;\">\n                  "

  /** The expand icon ('−' or '+') for a folder with sub-folders, a fixed-width spacer otherwise. */
  function IconHtml(item: TreeItem): string {
    if HasChildren(item) then ExpandIconOpen + [if IsExpanded(item) then '\U{2212}' else '+'] + "</span>"
    else "<span style=\"width: 20px;\"></span>"
  }

  function TextHtml(item: TreeItem): string {
    "\n                  <span class=\"item-text\">" + item.text + "</span>\n              </div>\n              "
  }

  /** One row's template with its variable parts filled in. */
  function Row(expanded: string, selected: string, id: string, icon: string, text: string, children: string): string {
    HeadOf(expanded, selected, id) + RowBody(icon, text, children)
  }

  /** Everything from the icon on: the icon, the name, the children part and the closing tag. */
  function RowBody(icon: string, text: string, children: string): string {
    (icon + text) + (children + RowClose)
  }

  /** `renderTreeItem(item)` with `this.state.currentURL` passed as `currentUrl`. */
  function RenderTreeItem(item: TreeItem, currentUrl: string): string
    decreases item, 1
  {
    Row(ExpandedClass(item), SelectedClass(item, currentUrl), item.id, IconHtml(item), TextHtml(item), ChildrenHtml(item, currentUrl))
  }

  /** The children wrapper, shown or hidden by the expanded flag, around the rendered sub-folders. */
  function ChildrenHtml(item: TreeItem, currentUrl: string): string
    decreases item, 0
  {
    if HasChildren(item) then Wrapper(Display(item), RenderForest(item.items.folders, currentUrl)) else ""
  }

  /** The CSS `display` value of the children wrapper. */
  function Display(item: TreeItem): string {
    if IsExpanded(item) then "block" else "none"
  }

  function Wrapper(display: string, inner: string): string {
    ChildrenOpen + (display + ("; margin-left: 20px;\">\n              " + inner + "\n             </div>"))
  }

  /** `items.map(child => renderTreeItem(child)).join('')`. */
  function RenderForest(items: seq<TreeItem>, currentUrl: string): string
    decreases items
  {
    if items == [] then "" else RenderTreeItem(items[0], currentUrl) + RenderForest(items[1..], currentUrl)
  }

  /** `t` stands in `s` at index `k`. */
  predicate StandsAt(s: string, k: int, t: string) {
    0 <= k && k + |t| <= |s| && s[k..k + |t|] == t
  }

  lemma Regroup(a: string, b: string, c: string)
    ensures (a + b) + c == a + (b + c)
  {
  }

  /** A string stands at the start of anything it begins. */
  lemma StandsAtStart(a: string, b: string)
    ensures StandsAt(a + b, 0, a)
  {
    assert (a + b)[..|a|] == a;
  }

  /** A text does not stand where one of its characters differs from the string's. */
  lemma StandsNot(s: string, k: nat, t: string, j: nat)
    requires j < |t| && k + j < |s| && s[k + j] != t[j]
    ensures !StandsAt(s, k, t)
  {
    if k + |t| <= |s| {
      assert s[k..k + |t|][j] == s[k + j];
    }
  }

  /** The row's head, split after the opening text of the tag and after its class list. */
  lemma HeadLayout(e: string, sel: string, id: string, body: string)
    ensures HeadOf(e, sel, id) + body == RowOpen + (e + (" " + (IdPart(sel, id) + body)))
    ensures HeadOf(e, sel, id) + body == ClassPart(e) + (sel + ((("\" data-id=\"" + id) + ContentOpen) + body))
  {
    Regroup(ClassPart(e), IdPart(sel, id), body);
    Regroup(RowOpen + e, " ", IdPart(sel, id) + body);
    Regroup(RowOpen, e, " " + (IdPart(sel, id) + body));
    Regroup(sel + "\" data-id=\"", id, ContentOpen);
    Regroup(sel, "\" data-id=\"", id + ContentOpen);
    Regroup(sel, ("\" data-id=\"" + id) + ContentOpen, body);
    assert IdPart(sel, id) == sel + (("\" data-id=\"" + id) + ContentOpen);
  }

  /** Right after `class="tree-item ` the rendered row carries "expanded" exactly when the folder is expanded. */
  lemma RenderedExpandedClass(item: TreeItem, currentUrl: string)
    ensures StandsAt(RenderTreeItem(item, currentUrl), |RowOpen|, "expanded") <==> IsExpanded(item)
  {
    var e, sel := ExpandedClass(item), SelectedClass(item, currentUrl);
    var body := RowBody(IconHtml(item), TextHtml(item), ChildrenHtml(item, currentUrl));
    var rest := " " + (IdPart(sel, item.id) + body);
    HeadLayout(e, sel, item.id, body);
    StandsAfter(RowOpen, e + rest, 0, "expanded");
    if IsExpanded(item) {
      StandsAtStart(e, rest);
    } else {
      StandsNot(e + rest, 0, "expanded", 0);
    }
  }

  /** After the expanded class and one space, the row carries "selected" exactly when its id is the current URL. */
  lemma RenderedSelectedClass(item: TreeItem, currentUrl: string)
    ensures StandsAt(RenderTreeItem(item, currentUrl), |RowOpen| + |ExpandedClass(item)| + 1, "selected")
        <==> item.id == currentUrl
  {
    var e, sel := ExpandedClass(item), SelectedClass(item, currentUrl);
    var body := RowBody(IconHtml(item), TextHtml(item), ChildrenHtml(item, currentUrl));
    var rest := (("\" data-id=\"" + item.id) + ContentOpen) + body;
    HeadLayout(e, sel, item.id, body);
    assert |ClassPart(e)| == |RowOpen| + |e| + 1;
    StandsAfter(ClassPart(e), sel + rest, 0, "selected");
    if item.id == currentUrl {
      StandsAtStart(sel, rest);
    } else {
      StandsNot(sel + rest, 0, "selected", 0);
    }
  }

  /** The icon, whatever follows it, opens with an expand-icon span exactly for a folder with sub-folders. */
  lemma IconSlot(item: TreeItem, after: string)
    ensures StandsAt(IconHtml(item) + after, 0, ExpandIconOpen) <==> HasChildren(item)
    ensures HasChildren(item) ==> (IconHtml(item) + after)[|ExpandIconOpen|] == if IsExpanded(item) then '\U{2212}' else '+'
  {
    var icon := IconHtml(item);
    if HasChildren(item) {
      var mark := [if IsExpanded(item) then '\U{2212}' else '+'];
      Regroup(ExpandIconOpen, mark + "</span>", after);
      StandsAtStart(ExpandIconOpen, mark + "</span>" + after);
      assert (icon + after)[|ExpandIconOpen|] == mark[0];
    } else {
      assert (icon + after)[6] == 's' && ExpandIconOpen[6] == 'c';
      StandsNot(icon + after, 0, ExpandIconOpen, 6);
    }
  }

  /** Past a prefix, a text stands where it stands in what follows the prefix. */
  lemma StandsAfter(a: string, b: string, k: nat, t: string)
    ensures StandsAt(a + b, |a| + k, t) <==> StandsAt(b, k, t)
  {
    if k + |t| <= |b| {
      assert (a + b)[|a| + k..|a| + k + |t|] == b[k..k + |t|];
    }
  }

  /** In any row, what stands after the head is what begins the icon and the rest of the row. */
  lemma RowIconSlot(e: string, sel: string, id: string, icon: string, text: string, children: string, k: nat, t: string)
    ensures StandsAt(Row(e, sel, id, icon, text, children), |HeadOf(e, sel, id)| + k, t)
        <==> StandsAt(icon + (text + (children + RowClose)), k, t)
    ensures k < |icon| ==> Row(e, sel, id, icon, text, children)[|HeadOf(e, sel, id)| + k] == icon[k]
  {
    Regroup(icon, text, children + RowClose);
    StandsAfter(HeadOf(e, sel, id), icon + (text + (children + RowClose)), k, t);
  }

  /** At the icon slot the row carries an expand-icon span exactly when the folder has at least one sub-folder. */
  lemma RenderedExpandIcon(item: TreeItem, currentUrl: string)
    ensures StandsAt(RenderTreeItem(item, currentUrl), |RowHead(item, currentUrl)|, ExpandIconOpen) <==> HasChildren(item)
  {
    var e, sel, icon, text, children := ExpandedClass(item), SelectedClass(item, currentUrl), IconHtml(item), TextHtml(item), ChildrenHtml(item, currentUrl);
    assert RenderTreeItem(item, currentUrl) == Row(e, sel, item.id, icon, text, children);
    assert |RowHead(item, currentUrl)| == |HeadOf(e, sel, item.id)| + 0;
    RowIconSlot(e, sel, item.id, icon, text, children, 0, ExpandIconOpen);
    IconSlot(item, text + (children + RowClose));
  }

  /** The expand icon of a folder with sub-folders shows '−' when the folder is expanded and '+' otherwise. */
  lemma RenderedIconMark(item: TreeItem, currentUrl: string)
    requires HasChildren(item)
    ensures RenderTreeItem(item, currentUrl)[|RowHead(item, currentUrl)| + |ExpandIconOpen|]
         == if IsExpanded(item) then '\U{2212}' else '+'
  {
    var icon, after := IconHtml(item), TextHtml(item) + (ChildrenHtml(item, currentUrl) + RowClose);
    RowIconSlot(ExpandedClass(item), SelectedClass(item, currentUrl), item.id, icon, TextHtml(item),
                ChildrenHtml(item, currentUrl), |ExpandIconOpen|, ExpandIconOpen);
    IconSlot(item, after);
    assert (icon + after)[|ExpandIconOpen|] == icon[|ExpandIconOpen|];
  }

  /** The children part, with the closing tag after it, opens with the wrapper exactly for a folder with sub-folders. */
  lemma ChildrenSlot(item: TreeItem, currentUrl: string)
    ensures StandsAt(ChildrenHtml(item, currentUrl) + RowClose, 0, ChildrenOpen) <==> HasChildren(item)
  {
    var rest := ChildrenHtml(item, currentUrl) + RowClose;
    if HasChildren(item) {
      var w := Display(item) + ("; margin-left: 20px;\">\n              " + RenderForest(item.items.folders, currentUrl) + "\n             </div>");
      Regroup(ChildrenOpen, w, RowClose);
      StandsAtStart(ChildrenOpen, w + RowClose);
    } else {
      assert rest[0] == '\n' && ChildrenOpen[0] == '<';
      StandsNot(rest, 0, ChildrenOpen, 0);
    }
  }

  /** The wrapper of a folder with sub-folders shows "block" right after `display: ` exactly when the folder is expanded. */
  lemma DisplaySlot(item: TreeItem, currentUrl: string)
    requires HasChildren(item)
    ensures StandsAt(ChildrenHtml(item, currentUrl) + RowClose, |ChildrenOpen|, "block") <==> IsExpanded(item)
  {
    var display := Display(item);
    var tail := "; margin-left: 20px;\">\n              " + RenderForest(item.items.folders, currentUrl) + "\n             </div>";
    var rest := display + (tail + RowClose);
    Regroup(ChildrenOpen, display + tail, RowClose);
    Regroup(display, tail, RowClose);
    assert ChildrenHtml(item, currentUrl) + RowClose == ChildrenOpen + rest;
    StandsAfter(ChildrenOpen, rest, 0, "block");
    if IsExpanded(item) {
      StandsAtStart(display, tail + RowClose);
    } else {
      assert rest[0] == 'n';
      StandsNot(rest, 0, "block", 0);
    }
  }

  /** In any row, what stands after the head, the icon and the name is what begins the children part. */
  lemma RowChildrenSlot(e: string, sel: string, id: string, icon: string, text: string, children: string, k: nat, t: string)
    ensures StandsAt(Row(e, sel, id, icon, text, children), |HeadOf(e, sel, id)| + |icon| + |text| + k, t)
        <==> StandsAt(children + RowClose, k, t)
  {
    var before := HeadOf(e, sel, id) + (icon + text);
    Regroup(HeadOf(e, sel, id), icon + text, children + RowClose);
    StandsAfter(before, children + RowClose, k, t);
  }

  /** After the icon and the name, the row carries the children wrapper exactly when the folder has sub-folders. */
  lemma RenderedChildrenWrapper(item: TreeItem, currentUrl: string)
    ensures StandsAt(RenderTreeItem(item, currentUrl), |RowHead(item, currentUrl)| + |IconHtml(item)| + |TextHtml(item)|, ChildrenOpen)
        <==> HasChildren(item)
  {
    RowChildrenSlot(ExpandedClass(item), SelectedClass(item, currentUrl), item.id, IconHtml(item), TextHtml(item),
                    ChildrenHtml(item, currentUrl), 0, ChildrenOpen);
    ChildrenSlot(item, currentUrl);
  }

  /** The children wrapper of a folder with sub-folders is displayed "block" exactly when the folder is expanded. */
  lemma RenderedChildrenDisplay(item: TreeItem, currentUrl: string)
    requires HasChildren(item)
    ensures StandsAt(RenderTreeItem(item, currentUrl),
                     |RowHead(item, currentUrl)| + |IconHtml(item)| + |TextHtml(item)| + |ChildrenOpen|, "block")
        <==> IsExpanded(item)
  {
    RowChildrenSlot(ExpandedClass(item), SelectedClass(item, currentUrl), item.id, IconHtml(item), TextHtml(item),
                    ChildrenHtml(item, currentUrl), |ChildrenOpen|, "block");
    DisplaySlot(item, currentUrl);
  }

  // ---------------------------------------------------------------------------
  // Ordering of the top-level folders
  // ---------------------------------------------------------------------------

  /** Ascending by name. */
  predicate SortedByText(s: seq<TreeItem>) {
    forall i, j :: 0 <= i < j < |s| ==> Leq(s[i].text, s[j].text)
  }

  /** A folder whose name comes no later than every name of a sorted list can be put in front of it. */
  lemma ConsSorted(h: TreeItem, rest: seq<TreeItem>)
    requires SortedByText(rest)
    requires forall y :: y in rest ==> Leq(h.text, y.text)
    ensures SortedByText([h] + rest)
  {
    var r := [h] + rest;
    forall i, j | 0 <= i < j < |r| ensures Leq(r[i].text, r[j].text) {
      assert r[j] == rest[j - 1];
      if i > 0 { assert r[i] == rest[i - 1]; }
    }
  }

  /** A name that comes no later than the first of a sorted list comes no later than any of them. */
  lemma BelowSorted(x: TreeItem, sorted: seq<TreeItem>)
    requires SortedByText(sorted) && sorted != [] && Leq(x.text, sorted[0].text)
    ensures forall y :: y in sorted ==> Leq(x.text, y.text)
  {
    forall y | y in sorted ensures Leq(x.text, y.text) {
      var j :| 0 <= j < |sorted| && sorted[j] == y;
      if j > 0 { LeqTransitive(x.text, sorted[0].text, sorted[j].text); }
    }
  }

  /** A bound on every element of a list and on `x` bounds every element of a rearrangement of both. */
  lemma BoundedRearrangement(h: TreeItem, s: seq<TreeItem>, x: TreeItem, r: seq<TreeItem>)
    requires forall k :: 0 <= k < |s| ==> Leq(h.text, s[k].text)
    requires Leq(h.text, x.text)
    requires multiset(r) == multiset(s) + multiset{x}
    ensures forall y :: y in r ==> Leq(h.text, y.text)
  {
    forall y | y in r ensures Leq(h.text, y.text) {
      assert y in multiset(r);
      if y != x {
        assert y in multiset(s);
        var k :| 0 <= k < |s| && s[k] == y;
      }
    }
  }

  function InsertByText(x: TreeItem, sorted: seq<TreeItem>): (r: seq<TreeItem>)
    requires SortedByText(sorted)
    ensures SortedByText(r)
    ensures multiset(r) == multiset(sorted) + multiset{x}
    decreases |sorted|
  {
    if sorted == [] then [x]
    else if Leq(x.text, sorted[0].text) then
      BelowSorted(x, sorted);
      ConsSorted(x, sorted);
      [x] + sorted
    else
      var head, tail := sorted[0], sorted[1..];
      LeqTotal(x.text, head.text);
      assert sorted == [head] + tail;
      assert forall k :: 0 <= k < |tail| ==> Leq(head.text, tail[k].text) by {
        forall k | 0 <= k < |tail| ensures Leq(head.text, tail[k].text) {
          assert tail[k] == sorted[k + 1];
        }
      }
      var rest := InsertByText(x, tail);
      BoundedRearrangement(head, tail, x, rest);
      ConsSorted(head, rest);
      [head] + rest
  }

  /**
   * The `sort((a, b) => a.text > b.text ? 1 : -1)` applied to the top-level
   * folders: an ascending arrangement by name of the same folders.
   */
  function SortByText(folders: seq<TreeItem>): (r: seq<TreeItem>)
    ensures SortedByText(r)
    ensures multiset(r) == multiset(folders)
    decreases |folders|
  {
    if folders == [] then []
    else
      assert folders == [folders[0]] + folders[1..];
      InsertByText(folders[0], SortByText(folders[1..]))
  }
}
