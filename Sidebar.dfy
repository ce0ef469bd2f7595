/** The expanded-menu state of the `Sidebar` component
    (src/components/Sidebar/index.tsx): which parent menus are open, the state
    remembered across a collapse, and the copy kept in `localStorage` under
    `expandedMenus`. React's state updates are applied in the order the source
    issues them; when two effects set the same state in one commit, the later
    one wins, as React's batching makes it. Hover handling and rendering are
    not part of this model. */
module SidebarMenu {
  import opened Js
  import opened Browser

  /** A menu entry; only an entry with a non-empty child list is a parent. */
  datatype MenuItem = MenuItem(title: string, path: string, icon: Option<string>, children: Option<seq<MenuItem>>)

  /** `hasChildren`: `children` is an array with at least one entry. */
  predicate HasChildren(item: MenuItem) {
    item.children.Some? && |item.children.value| > 0
  }

  /** The menu, as declared in the component. */
  const MenuItems: seq<MenuItem> := [
    MenuItem("仪表盘", "/dashboard", Some("fa-chart-line"), None),
    MenuItem("系统设置", "/settings", Some("fa-gear"), None),
    MenuItem("用户管理", "/users", Some("fa-users"),
      Some([MenuItem("用户列表", "/users/list", None, None), MenuItem("添加用户", "/users/add", None, None)])),
    MenuItem("个人信息", "/profile", Some("fa-user"), None)
  ]

  const StorageKey := "expandedMenus"

  /** `children.some(child => pathname === child.path)`. */
  predicate ChildAt(children: seq<MenuItem>, pathname: string) {
    exists c :: c in children && c.path == pathname
  }

  /** A parent is matched by the current path when the path contains the
      parent's own path, or equals the path of one of its children. */
  predicate PathMatched(item: MenuItem, pathname: string) {
    HasChildren(item) && (Contains(pathname, item.path) || ChildAt(item.children.value, pathname))
  }

  /** What one item adds to the accumulator of the `reduce`: its path once for
      each of the two tests it passes, so possibly twice. */
  function Pushes(item: MenuItem, pathname: string): seq<string> {
    (if HasChildren(item) && Contains(pathname, item.path) then [item.path] else [])
    + (if HasChildren(item) && ChildAt(item.children.value, pathname) then [item.path] else [])
  }

  /** The accumulator after the `reduce` has visited `items` in order. */
  function ParentsMatching(items: seq<MenuItem>, pathname: string): seq<string> {
    if |items| == 0 then []
    else ParentsMatching(items[..|items| - 1], pathname) + Pushes(items[|items| - 1], pathname)
  }

  /** The `reduce` over the menu that both effects perform. */
  method MatchedParents(items: seq<MenuItem>, pathname: string) returns (acc: seq<string>)
    ensures acc == ParentsMatching(items, pathname)
  {
    acc := [];
    for i := 0 to |items|
      invariant acc == ParentsMatching(items[..i], pathname)
    {
      assert items[..i + 1][..i] == items[..i];
      var item := items[i];
      if HasChildren(item) && Contains(pathname, item.path) {
        acc := acc + [item.path];
      }
      if HasChildren(item) {
        var matchesChild := ChildAt(item.children.value, pathname);
        if matchesChild {
          acc := acc + [item.path];
        }
      }
    }
    assert items[..|items|] == items;
  }

  /** A path is collected exactly when some item with that path is matched. */
  lemma {:induction false} ParentsMatchingIff(items: seq<MenuItem>, pathname: string, p: string)
    ensures p in ParentsMatching(items, pathname) <==>
      exists item :: item in items && item.path == p && PathMatched(item, pathname)
  {
    if |items| > 0 {
      var init, last := items[..|items| - 1], items[|items| - 1];
      assert items == init + [last];
      ParentsMatchingIff(init, pathname, p);
      if p in ParentsMatching(items, pathname) && p !in ParentsMatching(init, pathname) {
        assert p in Pushes(last, pathname);
        assert last in items;
      }
      if exists item :: item in items && item.path == p && PathMatched(item, pathname) {
        var item :| item in items && item.path == p && PathMatched(item, pathname);
        if item !in init {
          assert item == last;
          assert p in Pushes(last, pathname);
        }
      }
    }
  }

  predicate NoDuplicates<T(==)>(xs: seq<T>) {
    forall i, j :: 0 <= i < j < |xs| ==> xs[i] != xs[j]
  }

  /** `[...new Set(xs)]`: the distinct elements of `xs`, each where it first
      occurs. */
  function Dedup(xs: seq<string>): (r: seq<string>)
    ensures forall x :: x in r <==> x in xs
    ensures NoDuplicates(r)
    ensures |r| <= |xs|
  {
    if |xs| == 0 then []
    else
      var d, x := Dedup(xs[..|xs| - 1]), xs[|xs| - 1];
      assert xs == xs[..|xs| - 1] + [x];
      if x in d then d else d + [x]
  }

  /** A list without repeats is its own de-duplication. */
  lemma {:induction false} DedupOfDistinct(xs: seq<string>)
    requires NoDuplicates(xs)
    ensures Dedup(xs) == xs
  {
    if |xs| > 0 {
      var init := xs[..|xs| - 1];
      DedupOfDistinct(init);
      assert xs[|xs| - 1] !in init;
      assert xs == init + [xs[|xs| - 1]];
    }
  }

  /** De-duplicating `a + b` starts with the de-duplication of `a`, and adds
      nothing when `b` holds only elements of `a`. */
  lemma {:induction false} DedupExtends(a: seq<string>, b: seq<string>)
    ensures |Dedup(a + b)| >= |Dedup(a)|
    ensures Dedup(a + b)[..|Dedup(a)|] == Dedup(a)
    ensures (forall x :: x in b ==> x in a) ==> Dedup(a + b) == Dedup(a)
  {
    if |b| == 0 {
      assert a + b == a;
    } else {
      var b0 := b[..|b| - 1];
      DedupExtends(a, b0);
      assert (a + b)[..|a + b| - 1] == a + b0;
      var d := Dedup(a + b0);
      assert Dedup(a + b) == if b[|b| - 1] in d then d else d + [b[|b| - 1]];
      if forall x :: x in b ==> x in a {
        assert forall x :: x in b0 ==> x in a by {
          forall x | x in b0 ensures x in a {
            assert x in b;
          }
        }
        assert b[|b| - 1] in b;
      }
    }
  }

  /** Re-opening the sidebar merges the remembered menus with the matched
      parents: every remembered menu stays open, in its remembered order and
      before any newly matched parent, every matched parent is open, nothing
      else is, and no menu appears twice. */
  lemma MergeKeepsPrevious(previous: seq<string>, pathname: string)
    requires NoDuplicates(previous)
    ensures var r := Dedup(previous + ParentsMatching(MenuItems, pathname));
      && |r| >= |previous| && r[..|previous|] == previous
      && NoDuplicates(r)
      && forall p :: p in r <==> p in previous || (exists item :: item in MenuItems && item.path == p && PathMatched(item, pathname))
  {
    var parents := ParentsMatching(MenuItems, pathname);
    DedupExtends(previous, parents);
    DedupOfDistinct(previous);
    forall p ensures p in parents <==> exists item :: item in MenuItems && item.path == p && PathMatched(item, pathname) {
      ParentsMatchingIff(MenuItems, pathname, p);
    }
  }

  /** `xs.filter(item => item !== x)`. */
  function Without(xs: seq<string>, x: string): (r: seq<string>)
    ensures forall y :: y in r <==> y in xs && y != x
    ensures x !in xs ==> r == xs
  {
    if |xs| == 0 then []
    else (if xs[0] == x then [] else [xs[0]]) + Without(xs[1..], x)
  }

  /** The list `toggleMenu` computes: a present path is removed everywhere it
      occurs, an absent one is appended. */
  function Toggled(xs: seq<string>, path: string): seq<string> {
    if Includes(xs, path) then Without(xs, path) else xs + [path]
  }

  /** Toggling flips whether `path` is open and leaves every other menu as it
      was; an absent path goes to the end. */
  lemma ToggleFlips(xs: seq<string>, path: string)
    ensures path in Toggled(xs, path) <==> path !in xs
    ensures forall q :: q != path ==> (q in Toggled(xs, path) <==> q in xs)
    ensures path !in xs ==> Toggled(xs, path) == xs + [path]
  {
  }

  /** Removing a path appended to a list that lacks it gives the list back. */
  lemma {:induction false} WithoutAppended(xs: seq<string>, path: string)
    requires path !in xs
    ensures Without(xs + [path], path) == xs
  {
    if |xs| == 0 {
      assert xs + [path] == [path];
      assert [path][1..] == [];
    } else {
      assert (xs + [path])[1..] == xs[1..] + [path];
      WithoutAppended(xs[1..], path);
      assert xs == [xs[0]] + xs[1..];
    }
  }

  /** Toggling an absent path twice restores the list. */
  lemma ToggleTwiceRestores(xs: seq<string>, path: string)
    requires path !in xs
    ensures Toggled(Toggled(xs, path), path) == xs
  {
    WithoutAppended(xs, path);
  }

  /** Toggling keeps a list free of repeats. */
  lemma ToggleKeepsDistinct(xs: seq<string>, path: string)
    requires NoDuplicates(xs)
    ensures NoDuplicates(Toggled(xs, path))
  {
    if path in xs {
      WithoutKeepsDistinct(xs, path);
    }
  }

  lemma {:induction false} WithoutKeepsDistinct(xs: seq<string>, x: string)
    requires NoDuplicates(xs)
    ensures NoDuplicates(Without(xs, x))
  {
    if |xs| > 0 {
      WithoutKeepsDistinct(xs[1..], x);
      assert xs[0] !in xs[1..];
    }
  }

  /** `JSON.stringify` of a list of paths, as the value it parses back to. */
  function Encode(menus: seq<string>): (v: JsValue)
    ensures v.Arr? && |v.items| == |menus|
  {
    Arr(StrItems(menus))
  }

  function StrItems(menus: seq<string>): (r: seq<JsValue>)
    ensures |r| == |menus|
  {
    if |menus| == 0 then [] else [Str(menus[0])] + StrItems(menus[1..])
  }

  /** The strings of an array whose every element is a string. */
  function AsStrings(items: seq<JsValue>): Option<seq<string>> {
    if |items| == 0 then Some([])
    else if !items[0].Str? then None
    else
      var rest := AsStrings(items[1..]);
      if rest.Some? then Some([items[0].s] + rest.value) else None
  }

  /** The menu list the first effect restores: present when the stored text is
      truthy, parses, and is an array (of paths). */
  function SavedMenus(storage: map<string, StoredText>): Option<seq<string>> {
    if StorageKey in storage && storage[StorageKey].Stringified? && storage[StorageKey].v.Arr?
    then AsStrings(storage[StorageKey].v.items)
    else None
  }

  /** The saved menus, or none. */
  function SavedOrNone(storage: map<string, StoredText>): seq<string> {
    var saved := SavedMenus(storage);
    if saved.Some? then saved.value else []
  }

  lemma {:induction false} StrItemsRoundTrip(menus: seq<string>)
    ensures AsStrings(StrItems(menus)) == Some(menus)
  {
    if |menus| > 0 {
      StrItemsRoundTrip(menus[1..]);
      assert [menus[0]] + menus[1..] == menus;
    }
  }

  /** What the component writes under `expandedMenus` is read back unchanged. */
  lemma SavedRoundTrip(storage: map<string, StoredText>, menus: seq<string>)
    ensures SavedMenus(storage[StorageKey := Stringified(Encode(menus))]) == Some(menus)
  {
    StrItemsRoundTrip(menus);
  }

  class Sidebar {
    /** The `collapsed` prop and the router's current path. */
    var collapsed: bool
    var pathname: string
    var expandedMenus: seq<string>
    var previousExpandedState: seq<string>
    var storage: map<string, StoredText>

    /** Neither list of the component ever names a menu twice. */
    ghost predicate Valid()
      reads this
    {
      NoDuplicates(expandedMenus) && NoDuplicates(previousExpandedState)
    }

    /** Mounting: both state lists start empty, then both effects run. The
        menus saved in storage play no part in the result. */
    constructor (collapsed: bool, pathname: string, storage: map<string, StoredText>)
      ensures this.collapsed == collapsed && this.pathname == pathname && this.storage == storage
      ensures previousExpandedState == []
      ensures expandedMenus == if collapsed then [] else Dedup(ParentsMatching(MenuItems, pathname))
      ensures Valid()
    {
      this.collapsed := collapsed;
      this.pathname := pathname;
      this.storage := storage;
      expandedMenus := [];
      previousExpandedState := [];
      new;
      RunEffects();
      assert [] + ParentsMatching(MenuItems, pathname) == ParentsMatching(MenuItems, pathname);
    }

    /** Mounting with both state lists initialised from the saved menus (each
        once), so that the second effect merges them (or, when collapsed,
        remembers them) instead of an empty list. */
    constructor Restoring(collapsed: bool, pathname: string, storage: map<string, StoredText>)
      ensures this.collapsed == collapsed && this.pathname == pathname && this.storage == storage
      ensures previousExpandedState == Dedup(SavedOrNone(storage))
      ensures collapsed ==> expandedMenus == []
      ensures !collapsed ==> expandedMenus == Dedup(Dedup(SavedOrNone(storage)) + ParentsMatching(MenuItems, pathname))
      ensures !collapsed ==> forall m :: m in SavedOrNone(storage) ==> m in expandedMenus
      ensures Valid()
    {
      this.collapsed := collapsed;
      this.pathname := pathname;
      this.storage := storage;
      expandedMenus := Dedup(SavedOrNone(storage));
      previousExpandedState := Dedup(SavedOrNone(storage));
      new;
      RunEffects();
    }

    /** The two effects, run in order after a render in which `collapsed` or
        the path changed. The first restores the saved menus or the matched
        parents; the second then either remembers and closes everything (when
        collapsed) or overwrites the first one's result with the merge of the
        remembered menus and the matched parents. */
    method RunEffects()
      requires Valid()
      modifies this
      ensures Valid()
      ensures collapsed == old(collapsed) && pathname == old(pathname) && storage == old(storage)
      ensures collapsed ==> previousExpandedState == old(expandedMenus) && expandedMenus == []
      ensures !collapsed ==> previousExpandedState == old(previousExpandedState)
      ensures !collapsed ==> expandedMenus == Dedup(old(previousExpandedState) + ParentsMatching(MenuItems, pathname))
      ensures !collapsed ==>
        |expandedMenus| >= |previousExpandedState| && expandedMenus[..|previousExpandedState|] == previousExpandedState
    {
      if !collapsed {
        var saved := SavedMenus(storage);
        if saved.Some? {
          expandedMenus := saved.value;
        } else {
          var initExpanded := MatchedParents(MenuItems, pathname);
          expandedMenus := initExpanded;
        }
      }
      if collapsed {
        previousExpandedState := expandedMenus;
        expandedMenus := [];
      } else {
        var parentMenusToExpand := MatchedParents(MenuItems, pathname);
        expandedMenus := Dedup(previousExpandedState + parentMenusToExpand);
        MergeKeepsPrevious(previousExpandedState, pathname);
      }
    }

    /** A render with new props: the effects run only when `collapsed` or the
        path differs from the previous render. */
    method Rerender(nextCollapsed: bool, nextPathname: string)
      requires Valid()
      modifies this
      ensures Valid()
      ensures collapsed == nextCollapsed && pathname == nextPathname && storage == old(storage)
      ensures nextCollapsed == old(collapsed) && nextPathname == old(pathname) ==>
        expandedMenus == old(expandedMenus) && previousExpandedState == old(previousExpandedState)
      ensures (nextCollapsed != old(collapsed) || nextPathname != old(pathname)) && nextCollapsed ==>
        previousExpandedState == old(expandedMenus) && expandedMenus == []
      ensures (nextCollapsed != old(collapsed) || nextPathname != old(pathname)) && !nextCollapsed ==>
        previousExpandedState == old(previousExpandedState)
        && expandedMenus == Dedup(old(previousExpandedState) + ParentsMatching(MenuItems, nextPathname))
    {
      var changed := nextCollapsed != collapsed || nextPathname != pathname;
      collapsed, pathname := nextCollapsed, nextPathname;
      if changed {
        RunEffects();
      }
    }

    /** `toggleMenu`: flip one menu; while the sidebar is open, also save the
        new list to storage and remember it for the next collapse. */
    method ToggleMenu(path: string)
      requires Valid()
      modifies this
      ensures Valid()
      ensures collapsed == old(collapsed) && pathname == old(pathname)
      ensures expandedMenus == Toggled(old(expandedMenus), path)
      ensures !collapsed ==> previousExpandedState == expandedMenus
      ensures !collapsed ==> storage == old(storage)[StorageKey := Stringified(Encode(expandedMenus))]
      ensures collapsed ==> previousExpandedState == old(previousExpandedState) && storage == old(storage)
    {
      var newExpanded := if Includes(expandedMenus, path) then Without(expandedMenus, path) else expandedMenus + [path];
      if !collapsed {
        storage := storage[StorageKey := Stringified(Encode(newExpanded))];
        previousExpandedState := newExpanded;
      }
      expandedMenus := newExpanded;
      ToggleKeepsDistinct(old(expandedMenus), path);
    }

    /** A click on a child in the collapsed pop-up: remember its parent as open,
        in state and in storage, unless it is already remembered. */
    method PopupChildClick(parentPath: string)
      requires Valid()
      modifies this
      ensures Valid()
      ensures collapsed == old(collapsed) && pathname == old(pathname) && expandedMenus == old(expandedMenus)
      ensures parentPath in old(previousExpandedState) ==>
        previousExpandedState == old(previousExpandedState) && storage == old(storage)
      ensures parentPath !in old(previousExpandedState) ==>
        && previousExpandedState == old(previousExpandedState) + [parentPath]
        && storage == old(storage)[StorageKey := Stringified(Encode(previousExpandedState))]
    {
      var updatedExpanded := previousExpandedState;
      if !Includes(updatedExpanded, parentPath) {
        updatedExpanded := updatedExpanded + [parentPath];
        previousExpandedState := updatedExpanded;
        storage := storage[StorageKey := Stringified(Encode(updatedExpanded))];
      }
    }
  }

  /** The items before the parent `/users` contribute nothing on any path. */
  lemma LeadingItemsMatchNothing(pathname: string)
    ensures ParentsMatching(MenuItems[..2], pathname) == []
  {
    var one, two := MenuItems[..1], MenuItems[..2];
    assert one[..0] == [] && one[0] == MenuItems[0];
    assert Pushes(MenuItems[0], pathname) == [];
    assert ParentsMatching(one, pathname) == [];
    assert two[..1] == one && two[1] == MenuItems[1];
    assert Pushes(MenuItems[1], pathname) == [];
  }

  /** Only `/users` has children, so the menu's matches are its pushes. */
  lemma MenuMatches(pathname: string)
    ensures ParentsMatching(MenuItems, pathname) == Pushes(MenuItems[2], pathname)
  {
    LeadingItemsMatchNothing(pathname);
    assert MenuItems[..4][..3] == MenuItems[..3];
    assert MenuItems[..3][..2] == MenuItems[..2];
    assert MenuItems[..4] == MenuItems;
    assert !HasChildren(MenuItems[3]);
  }

  /** On `/users/list` the first effect's `reduce` collects `/users` twice:
      the path contains `/users`, and equals the path of a child. The merge of
      the second effect keeps it once. */
  lemma UsersListMatchedTwice()
    ensures ParentsMatching(MenuItems, "/users/list") == ["/users", "/users"]
    ensures Dedup(ParentsMatching(MenuItems, "/users/list")) == ["/users"]
  {
    MenuMatches("/users/list");
    var users := MenuItems[2];
    assert OccursAt("/users/list", "/users", 0);
    assert users.children.value[0] in users.children.value;
    assert ChildAt(users.children.value, "/users/list");
    assert Pushes(users, "/users/list") == ["/users", "/users"];
    assert ["/users", "/users"][..1] == ["/users"];
    assert [] + ["/users"] == ["/users"];
  }

  /** No item of the menu is matched on `/dashboard`. */
  lemma DashboardMatchesNothing()
    ensures ParentsMatching(MenuItems, "/dashboard") == []
  {
    MenuMatches("/dashboard");
    var s, u := "/dashboard", "/users";
    forall i | 0 <= i <= |s| - |u| ensures !OccursAt(s, u, i) {
      assert s[i..i + |u|][1] == s[i + 1];
      assert s[i..i + |u|][2] == s[i + 2];
    }
    var children := MenuItems[2].children.value;
    assert children == [MenuItem("用户列表", "/users/list", None, None), MenuItem("添加用户", "/users/add", None, None)];
    assert !ChildAt(children, s);
  }

  /** The saved menus are lost on reload: with `["/users"]` saved and the page
      `/dashboard` open, the first effect restores `["/users"]`, but the
      mounted sidebar opens nothing. */
  method SavedMenusLostOnMount() returns (saved: Option<seq<string>>, openMenus: seq<string>)
    ensures saved == Some(["/users"]) && openMenus == []
  {
    var storage := map[StorageKey := Stringified(Encode(["/users"]))];
    SavedRoundTrip(map[], ["/users"]);
    assert storage == map[][StorageKey := Stringified(Encode(["/users"]))];
    saved := SavedMenus(storage);
    DashboardMatchesNothing();
    var sidebar := new Sidebar(false, "/dashboard", storage);
    openMenus := sidebar.expandedMenus;
  }

  /** The same reload with the restoring mount: `/users` is open again. */
  method SavedMenusKeptOnRestoringMount() returns (openMenus: seq<string>)
    ensures openMenus == ["/users"]
  {
    var storage := map[StorageKey := Stringified(Encode(["/users"]))];
    SavedRoundTrip(map[], ["/users"]);
    assert storage == map[][StorageKey := Stringified(Encode(["/users"]))];
    DashboardMatchesNothing();
    DedupOfDistinct(["/users"]);
    assert ["/users"] + [] == ["/users"];
    var sidebar := new Sidebar.Restoring(false, "/dashboard", storage);
    openMenus := sidebar.expandedMenus;
  }

  /** With the restoring mount, every saved menu is open again after a reload,
      once each, in its saved order and ahead of any newly matched parent; a
      saved list without repeats comes back exactly. */
  lemma RestoredMenusSurvive(storage: map<string, StoredText>, pathname: string)
    ensures var saved := Dedup(SavedOrNone(storage));
      var r := Dedup(saved + ParentsMatching(MenuItems, pathname));
      |r| >= |saved| && r[..|saved|] == saved
      && (NoDuplicates(SavedOrNone(storage)) ==> saved == SavedOrNone(storage))
  {
    MergeKeepsPrevious(Dedup(SavedOrNone(storage)), pathname);
    if NoDuplicates(SavedOrNone(storage)) {
      DedupOfDistinct(SavedOrNone(storage));
    }
  }
}
