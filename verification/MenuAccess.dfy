/** What of the menu tree a user sees: the ids the roles grant, completed with their ancestors. */
module MenuAccess {
  import opened Wrappers
  import opened Forest
  import opened Menus

  /** menuMap.get(id)?.parentId ?? null, as the loop tests it: an empty parent id counts as none. */
  function Link(menus: seq<Menu>, id: Id): (p: Option<Id>)
    ensures p.Some? ==> exists m :: m in menus && m.id == id && m.parentId == p && p.value != ""
  {
    if menus == [] then None
    else if menus[0].id == id then
      if menus[0].parentId == Some("") then None else menus[0].parentId
    else Link(menus[1..], id)
  }

  lemma {:induction false} LinkOfRow(menus: seq<Menu>, m: Menu)
    requires UniqueIds(menus) && m in menus
    ensures Link(menus, m.id) == if m.parentId == Some("") then None else m.parentId
  {
    if menus[0] != m {
      assert m in menus[1..];
      LinkOfRow(menus[1..], m);
    }
  }

  ghost predicate ClosedUp(menus: seq<Menu>, ids: set<Id>) {
    forall id :: id in ids && Link(menus, id).Some? ==> Link(menus, id).value in ids
  }

  ghost predicate LeastClosed(menus: seq<Menu>, granted: set<Id>, ids: set<Id>) {
    && granted <= ids
    && ClosedUp(menus, ids)
    && forall other :: granted <= other && ClosedUp(menus, other) ==> ids <= other
  }

  function ParentIds(menus: seq<Menu>): set<Id> {
    set m | m in menus && m.parentId.Some? :: m.parentId.value
  }

  /** The ancestor loop: each granted id is walked up until there is no parent or the parent
      is already in the set. It ends on every parent graph, and although a walk stops at the
      first known id, what it leaves is the least superset closed under the parent link. */
  method CompleteAncestors(menus: seq<Menu>, granted: set<Id>) returns (menuIdSet: set<Id>)
    ensures LeastClosed(menus, granted, menuIdSet)
  {
    menuIdSet := granted;
    var unwalked := granted;
    while unwalked != {}
      invariant unwalked <= granted <= menuIdSet
      invariant forall id :: id in menuIdSet && id !in unwalked && Link(menus, id).Some? ==>
                  Link(menus, id).value in menuIdSet
      invariant forall other :: granted <= other && ClosedUp(menus, other) ==> menuIdSet <= other
      decreases unwalked
    {
      var menuId :| menuId in unwalked;
      unwalked := unwalked - {menuId};
      var pid := Link(menus, menuId);
      ghost var last := menuId;
      while pid.Some? && pid.value !in menuIdSet
        invariant granted <= menuIdSet && last in menuIdSet && pid == Link(menus, last)
        invariant forall id :: id in menuIdSet && id !in unwalked && id != last && Link(menus, id).Some? ==>
                    Link(menus, id).value in menuIdSet
        invariant forall other :: granted <= other && ClosedUp(menus, other) ==> menuIdSet <= other
        decreases ParentIds(menus) - menuIdSet
      {
        assert pid.value in ParentIds(menus) - menuIdSet;
        menuIdSet := menuIdSet + {pid.value};
        last := pid.value;
        pid := Link(menus, pid.value);
      }
    }
  }

  // ---------------------------------------------------------------- filtering and pruning

  /** allActiveMenus.filter(m => menuIdSet.has(m.id)). */
  function Permitted(menus: seq<Menu>, ids: set<Id>): (rows: seq<Menu>)
    ensures forall m :: m in rows <==> m in menus && m.id in ids
  {
    if menus == [] then []
    else (if menus[0].id in ids then [menus[0]] else []) + Permitted(menus[1..], ids)
  }

  lemma {:induction false} PermittedUnique(menus: seq<Menu>, ids: set<Id>)
    requires UniqueIds(menus)
    ensures UniqueIds(Permitted(menus, ids))
  {
    if menus != [] {
      PermittedUnique(menus[1..], ids);
      assert forall m :: m in Permitted(menus[1..], ids) ==> m in menus[1..] && m.id != menus[0].id;
    }
  }

  lemma {:induction false} PermittedConcat(a: seq<Menu>, b: seq<Menu>, ids: set<Id>)
    ensures Permitted(a + b, ids) == Permitted(a, ids) + Permitted(b, ids)
    decreases |a|
  {
    if a == [] {
      assert a + b == b;
    } else {
      assert (a + b)[1..] == a[1..] + b;
      PermittedConcat(a[1..], b, ids);
    }
  }

  lemma {:induction false} PermittedChildren(menus: seq<Menu>, parent: Option<Id>, ids: set<Id>)
    ensures Children(Permitted(menus, ids), parent) == Permitted(Children(menus, parent), ids)
  {
    if menus != [] {
      var head := if menus[0].id in ids then [menus[0]] else [];
      var child := if menus[0].parentId == parent then [menus[0]] else [];
      ChildrenConcat(head, Permitted(menus[1..], ids), parent);
      PermittedConcat(child, Children(menus[1..], parent), ids);
      PermittedChildren(menus[1..], parent, ids);
    }
  }

  /** The tree with every node outside the id set cut off, together with what hangs below it. */
  function Prune(forest: seq<Tree>, ids: set<Id>): seq<Tree> {
    if forest == [] then []
    else
      (if forest[0].item.id in ids then [Node(forest[0].item, Prune(forest[0].children, ids))] else [])
      + Prune(forest[1..], ids)
  }

  lemma {:induction false} PrunedRoots(forest: seq<Tree>, ids: set<Id>)
    ensures Roots(Prune(forest, ids)) == Permitted(Roots(forest), ids)
    decreases |forest|
  {
    if forest != [] {
      PrunedRoots(forest[1..], ids);
      assert Roots(forest) == [forest[0].item] + Roots(forest[1..]);
      assert Roots(forest)[1..] == Roots(forest[1..]);
      var rest := Prune(forest[1..], ids);
      if forest[0].item.id in ids {
        var kept := Node(forest[0].item, Prune(forest[0].children, ids));
        assert Prune(forest, ids) == [kept] + rest && ([kept] + rest)[1..] == rest;
      }
    }
  }

  lemma {:induction false} PruneMirrorsBelow(menus: seq<Menu>, forest: seq<Tree>, ids: set<Id>)
    requires MirrorsBelow(menus, forest)
    ensures MirrorsBelow(Permitted(menus, ids), Prune(forest, ids))
    decreases forest
  {
    if forest != [] {
      PruneMirrorsBelow(menus, forest[1..], ids);
      var rest := Prune(forest[1..], ids);
      if forest[0].item.id in ids {
        PruneMirrorsBelow(menus, forest[0].children, ids);
        PrunedRoots(forest[0].children, ids);
        PermittedChildren(menus, Some(forest[0].item.id), ids);
        var kept := Node(forest[0].item, Prune(forest[0].children, ids));
        assert Prune(forest, ids) == [kept] + rest;
        assert ([kept] + rest)[0] == kept && ([kept] + rest)[1..] == rest;
      } else {
        assert Prune(forest, ids) == rest;
      }
    }
  }

  /** Building from the filtered list gives the full tree, pruned. */
  lemma {:induction false} FilteredTreeIsPruned(menus: seq<Menu>, ids: set<Id>)
    requires UniqueIds(menus)
    ensures UniqueIds(Permitted(menus, ids))
    ensures MenuTree(Permitted(menus, ids)) == Prune(MenuTree(menus), ids)
  {
    PermittedUnique(menus, ids);
    BuildIsTheMirror(menus, MenuTree(menus));
    PruneMirrorsBelow(menus, MenuTree(menus), ids);
    PrunedRoots(MenuTree(menus), ids);
    PermittedChildren(menus, None, ids);
    BuildIsTheMirror(Permitted(menus, ids), Prune(MenuTree(menus), ids));
  }

  /** Below a node outside a closed set nothing is inside it. */
  lemma {:induction false} NothingBelow(menus: seq<Menu>, forest: seq<Tree>, parent: Id, ids: set<Id>)
    requires UniqueIds(menus) && ClosedUp(menus, ids) && parent !in ids && parent != ""
    requires Linked(forest, Some(parent))
    requires forall m :: m in Preorder(forest) ==> m in menus && m.id != ""
    ensures Permitted(Preorder(forest), ids) == []
    decreases forest
  {
    if forest != [] {
      PreorderParts(forest);
      LinkOfRow(menus, forest[0].item);
      NothingBelow(menus, forest[0].children, forest[0].item.id, ids);
      NothingBelow(menus, forest[1..], parent, ids);
      PermittedParts(forest, ids);
    }
  }

  lemma {:induction false} PermittedParts(forest: seq<Tree>, ids: set<Id>)
    requires forest != []
    ensures Permitted(Preorder(forest), ids) ==
              (if forest[0].item.id in ids then [forest[0].item] else [])
              + Permitted(Preorder(forest[0].children), ids) + Permitted(Preorder(forest[1..]), ids)
  {
    PermittedConcat([forest[0].item] + Preorder(forest[0].children), Preorder(forest[1..]), ids);
    PermittedConcat([forest[0].item], Preorder(forest[0].children), ids);
  }

  lemma {:induction false} PruneParts(forest: seq<Tree>, ids: set<Id>)
    requires forest != []
    ensures Preorder(Prune(forest, ids)) ==
              (if forest[0].item.id in ids then [forest[0].item] + Preorder(Prune(forest[0].children, ids)) else [])
              + Preorder(Prune(forest[1..], ids))
  {
    if forest[0].item.id in ids {
      var kept, rest := Node(forest[0].item, Prune(forest[0].children, ids)), Prune(forest[1..], ids);
      assert Prune(forest, ids) == [kept] + rest && ([kept] + rest)[0] == kept && ([kept] + rest)[1..] == rest;
    } else {
      assert Prune(forest, ids) == Prune(forest[1..], ids);
    }
  }

  /** Pruning by a closed set removes exactly the rows outside it. */
  lemma {:induction false} PrunedRows(menus: seq<Menu>, forest: seq<Tree>, parent: Option<Id>, ids: set<Id>)
    requires UniqueIds(menus) && ClosedUp(menus, ids) && Linked(forest, parent)
    requires forall m :: m in Preorder(forest) ==> m in menus && m.id != ""
    ensures Preorder(Prune(forest, ids)) == Permitted(Preorder(forest), ids)
    decreases forest
  {
    if forest != [] {
      PreorderParts(forest);
      PrunedRows(menus, forest[1..], parent, ids);
      if forest[0].item.id in ids {
        PrunedRows(menus, forest[0].children, Some(forest[0].item.id), ids);
      } else {
        NothingBelow(menus, forest[0].children, forest[0].item.id, ids);
      }
      PruneParts(forest, ids);
      PermittedParts(forest, ids);
    }
  }

  // ---------------------------------------------------------------- getUserMenus

  datatype MenuUser = MenuUser(isAdmin: bool, roles: seq<seq<Id>>)

  datatype MenuError = UserNotFound

  /** The ids the roles of a user grant. */
  function Granted(roles: seq<seq<Id>>): (ids: set<Id>)
    ensures forall id :: id in ids <==> exists r :: r in roles && id in r
  {
    set r, id | r in roles && id in r :: id
  }

  /** activeMenus is the answer of the one query for active menus in sort order. */
  method GetUserMenus(user: Option<MenuUser>, activeMenus: seq<Menu>) returns (r: Result<seq<Tree>, MenuError>)
    requires UniqueIds(activeMenus)
    ensures user.None? <==> r == Failure(UserNotFound)
    ensures user.Some? && user.value.isAdmin ==> r == Success(MenuTree(activeMenus))
    ensures user.Some? && !user.value.isAdmin ==>
              exists ids :: LeastClosed(activeMenus, Granted(user.value.roles), ids) &&
                            r == Success(Prune(MenuTree(activeMenus), ids))
  {
    if user.None? {
      return Failure(UserNotFound);
    }
    if user.value.isAdmin {
      return Success(BuildTree(activeMenus, None, []));
    }
    var roles := user.value.roles;
    if |roles| == 0 {
      assert Granted(roles) == {};
      NothingGranted(activeMenus);
      return Success([]);
    }
    var menuIdSet: set<Id> := {};
    for i := 0 to |roles|
      invariant menuIdSet == Granted(roles[..i])
    {
      for k := 0 to |roles[i]|
        invariant menuIdSet == Granted(roles[..i]) + (set id | id in roles[i][..k])
      {
        menuIdSet := menuIdSet + {roles[i][k]};
        assert roles[i][..k + 1] == roles[i][..k] + [roles[i][k]];
      }
      assert roles[i][..|roles[i]|] == roles[i];
      GrantedGrows(roles, i);
    }
    assert roles[..|roles|] == roles;
    if |menuIdSet| == 0 {
      NothingGranted(activeMenus);
      return Success([]);
    }
    menuIdSet := CompleteAncestors(activeMenus, menuIdSet);
    FilteredTreeIsPruned(activeMenus, menuIdSet);
    var menus := Permitted(activeMenus, menuIdSet);
    r := Success(BuildTree(menus, None, []));
  }

  lemma {:induction false} GrantedGrows(roles: seq<seq<Id>>, i: nat)
    requires i < |roles|
    ensures Granted(roles[..i + 1]) == Granted(roles[..i]) + (set id | id in roles[i])
  {
  }

  lemma {:induction false} NothingGranted(menus: seq<Menu>)
    requires UniqueIds(menus)
    ensures LeastClosed(menus, {}, {}) && Prune(MenuTree(menus), {}) == []
  {
    PruneAll(MenuTree(menus));
  }

  lemma {:induction false} PruneAll(forest: seq<Tree>)
    ensures Prune(forest, {}) == []
    decreases |forest|
  {
    if forest != [] {
      PruneAll(forest[1..]);
    }
  }

  /** A non-admin sees exactly the admin's rows whose ids are in the closed set, in the same
      order, and sees every granted menu whose chain of active parents reaches the top. */
  lemma {:induction false} NonAdminSeesGranted(menus: seq<Menu>, granted: set<Id>, ids: set<Id>, m: Menu)
    requires UniqueIds(menus) && LeastClosed(menus, granted, ids)
    requires forall x :: x in menus ==> x.id != ""
    ensures Preorder(Prune(MenuTree(menus), ids)) == Permitted(Preorder(MenuTree(menus)), ids)
    ensures m in menus && m.id in granted && Reaches(menus, m.id) ==> m in Preorder(Prune(MenuTree(menus), ids))
  {
    TreeContents(menus);
    BuildTreeMirrorsBelow(menus, None, []);
    MirrorIsLinked(menus, MenuTree(menus), None);
    PrunedRows(menus, MenuTree(menus), None, ids);
  }
}
