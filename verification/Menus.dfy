/** The menu tree: built from a list whose parent links may dangle or form cycles,
    and restricted to what a user's roles grant. */
module Menus {
  import opened Wrappers
  import opened Forest

  /** menus.filter(m => m.parentId === parent). */
  function Children(menus: seq<Menu>, parent: Option<Id>): (rows: seq<Menu>)
    ensures forall m :: m in rows <==> m in menus && m.parentId == parent
  {
    if menus == [] then []
    else (if menus[0].parentId == parent then [menus[0]] else []) + Children(menus[1..], parent)
  }

  /** The parent a row at position k of a path has. */
  function ParentAt(path: seq<Id>, k: nat): Option<Id>
    requires k <= |path|
  {
    if k == 0 then None else Some(path[k - 1])
  }

  ghost predicate HasRow(menus: seq<Menu>, id: Id, parent: Option<Id>) {
    exists m :: m in menus && m.id == id && m.parentId == parent
  }

  /** path leads from a row without a parent down to its last id, inside the list. */
  ghost predicate RootPath(menus: seq<Menu>, path: seq<Id>) {
    forall k {:trigger ParentAt(path, k)} :: 0 <= k < |path| ==> HasRow(menus, path[k], ParentAt(path, k))
  }

  ghost predicate Reaches(menus: seq<Menu>, id: Id) {
    exists path :: RootPath(menus, path) && |path| > 0 && path[|path| - 1] == id
  }

  lemma {:induction false} OneParent(menus: seq<Menu>, id: Id, p: Option<Id>, q: Option<Id>)
    requires UniqueIds(menus) && HasRow(menus, id, p) && HasRow(menus, id, q)
    ensures p == q
  {
  }

  lemma {:induction false} PathDistinct(menus: seq<Menu>, path: seq<Id>, i: nat, j: nat)
    requires UniqueIds(menus) && RootPath(menus, path) && i < j < |path|
    ensures path[i] != path[j]
    decreases i
  {
    if path[i] == path[j] {
      OneParent(menus, path[i], ParentAt(path, i), ParentAt(path, j));
      if i > 0 {
        PathDistinct(menus, path, i - 1, j - 1);
      }
    }
  }

  lemma {:induction false} PathUnique(menus: seq<Menu>, p: seq<Id>, q: seq<Id>)
    requires UniqueIds(menus) && RootPath(menus, p) && RootPath(menus, q)
    requires ParentAt(p, |p|) == ParentAt(q, |q|)
    ensures p == q
    decreases |p|
  {
    if |p| > 0 {
      var p', q' := p[..|p| - 1], q[..|q| - 1];
      assert forall k :: 0 <= k <= |p'| ==> ParentAt(p', k) == ParentAt(p, k);
      assert forall k :: 0 <= k <= |q'| ==> ParentAt(q', k) == ParentAt(q, k);
      OneParent(menus, p[|p| - 1], ParentAt(p, |p| - 1), ParentAt(q, |q| - 1));
      PathUnique(menus, p', q');
      assert p == p' + [p[|p| - 1]] && q == q' + [q[|q| - 1]];
    }
  }

  lemma {:induction false} DistinctFits(path: seq<Id>, ids: set<Id>)
    requires forall i, j :: 0 <= i < j < |path| ==> path[i] != path[j]
    requires forall k :: 0 <= k < |path| ==> path[k] in ids
    ensures |path| <= |ids|
    decreases |path|
  {
    if path != [] {
      var last := path[|path| - 1];
      DistinctFits(path[..|path| - 1], ids - {last});
    }
  }

  lemma {:induction false} IdsFit(menus: seq<Menu>)
    ensures |Ids(menus)| <= |menus|
    decreases |menus|
  {
    if menus == [] {
      assert Ids(menus) == {};
    } else {
      assert Ids(menus) == {menus[0].id} + Ids(menus[1..]);
      IdsFit(menus[1..]);
    }
  }

  /** A path inside the list is no longer than the list: recursion along parents ends. */
  lemma {:induction false} PathFits(menus: seq<Menu>, path: seq<Id>)
    requires UniqueIds(menus) && RootPath(menus, path)
    ensures |path| <= |menus|
  {
    forall i, j | 0 <= i < j < |path|
      ensures path[i] != path[j]
    {
      PathDistinct(menus, path, i, j);
    }
    forall k | 0 <= k < |path|
      ensures path[k] in Ids(menus)
    {
      assert HasRow(menus, path[k], ParentAt(path, k));
    }
    DistinctFits(path, Ids(menus));
    IdsFit(menus);
  }

  lemma {:induction false} PathGrows(menus: seq<Menu>, path: seq<Id>, row: Menu)
    requires RootPath(menus, path) && row in menus && row.parentId == ParentAt(path, |path|)
    ensures RootPath(menus, path + [row.id])
  {
    var path' := path + [row.id];
    assert forall k :: 0 <= k <= |path| ==> ParentAt(path', k) == ParentAt(path, k);
  }

  // ---------------------------------------------------------------- building

  /** buildTree. The ghost path records how the recursion got here from the top call,
      where parent is null and path is empty. */
  function BuildTree(menus: seq<Menu>, parent: Option<Id>, ghost path: seq<Id>): seq<Tree>
    requires UniqueIds(menus) && RootPath(menus, path) && parent == ParentAt(path, |path|)
    decreases |menus| - |path|, 1, 0
  {
    PathFits(menus, path);
    BuildEach(menus, Children(menus, parent), parent, path)
  }

  function BuildEach(menus: seq<Menu>, rows: seq<Menu>, parent: Option<Id>, ghost path: seq<Id>): (forest: seq<Tree>)
    requires UniqueIds(menus) && RootPath(menus, path) && parent == ParentAt(path, |path|)
    requires |path| <= |menus|
    requires forall m :: m in rows ==> m in menus && m.parentId == parent
    ensures Roots(forest) == rows
    decreases |menus| - |path|, 0, |rows|
  {
    if rows == [] then []
    else
      PathGrows(menus, path, rows[0]);
      var node := Node(rows[0], BuildTree(menus, Some(rows[0].id), path + [rows[0].id]));
      [node] + BuildEach(menus, rows[1..], parent, path)
  }

  function MenuTree(menus: seq<Menu>): seq<Tree>
    requires UniqueIds(menus)
  {
    BuildTree(menus, None, [])
  }

  /** Below every node of the forest stand the rows of the list that name it as parent,
      in list order. */
  ghost predicate MirrorsBelow(menus: seq<Menu>, forest: seq<Tree>) {
    forest != [] ==>
      && Roots(forest[0].children) == Children(menus, Some(forest[0].item.id))
      && MirrorsBelow(menus, forest[0].children)
      && MirrorsBelow(menus, forest[1..])
  }

  ghost predicate Mirrors(menus: seq<Menu>, forest: seq<Tree>) {
    Roots(forest) == Children(menus, None) && MirrorsBelow(menus, forest)
  }

  lemma {:induction false} BuildTreeMirrorsBelow(menus: seq<Menu>, parent: Option<Id>, path: seq<Id>)
    requires UniqueIds(menus) && RootPath(menus, path) && parent == ParentAt(path, |path|)
    ensures Roots(BuildTree(menus, parent, path)) == Children(menus, parent)
    ensures MirrorsBelow(menus, BuildTree(menus, parent, path))
    decreases |menus| - |path|, 1, 0
  {
    PathFits(menus, path);
    BuildEachMirrorsBelow(menus, Children(menus, parent), parent, path);
  }

  lemma {:induction false} BuildEachMirrorsBelow(menus: seq<Menu>, rows: seq<Menu>, parent: Option<Id>, path: seq<Id>)
    requires UniqueIds(menus) && RootPath(menus, path) && parent == ParentAt(path, |path|)
    requires |path| <= |menus|
    requires forall m :: m in rows ==> m in menus && m.parentId == parent
    ensures MirrorsBelow(menus, BuildEach(menus, rows, parent, path))
    decreases |menus| - |path|, 0, |rows|
  {
    if rows != [] {
      PathGrows(menus, path, rows[0]);
      BuildTreeMirrorsBelow(menus, Some(rows[0].id), path + [rows[0].id]);
      BuildEachMirrorsBelow(menus, rows[1..], parent, path);
    }
  }

  lemma {:induction false} SameRoots(f: seq<Tree>, g: seq<Tree>)
    requires Roots(f) == Roots(g) && f != []
    ensures g != [] && f[0].item == g[0].item && Roots(f[1..]) == Roots(g[1..])
  {
  }

  lemma {:induction false} MirrorUnique(menus: seq<Menu>, f: seq<Tree>, g: seq<Tree>)
    requires MirrorsBelow(menus, f) && MirrorsBelow(menus, g) && Roots(f) == Roots(g)
    ensures f == g
    decreases f
  {
    if f == [] {
      assert |Roots(g)| == |g|;
    } else {
      SameRoots(f, g);
      MirrorUnique(menus, f[0].children, g[0].children);
      MirrorUnique(menus, f[1..], g[1..]);
      assert f == [f[0]] + f[1..] && g == [g[0]] + g[1..];
    }
  }

  /** The built tree is the one forest that mirrors the list, whatever cycles the list has. */
  lemma {:induction false} BuildIsTheMirror(menus: seq<Menu>, forest: seq<Tree>)
    requires UniqueIds(menus)
    ensures Mirrors(menus, forest) <==> forest == MenuTree(menus)
  {
    BuildTreeMirrorsBelow(menus, None, []);
    if Mirrors(menus, forest) {
      MirrorUnique(menus, forest, MenuTree(menus));
    }
  }

  // ---------------------------------------------------------------- what the tree contains

  /** Each placed row sits under its own root path. */
  ghost predicate WellPlaced(menus: seq<Menu>, row: Placed, path: seq<Id>) {
    && row.item in menus
    && path <= row.ancestors
    && RootPath(menus, row.ancestors + [row.item.id])
  }

  lemma {:induction false} BuildTreePlaces(menus: seq<Menu>, parent: Option<Id>, path: seq<Id>)
    requires UniqueIds(menus) && RootPath(menus, path) && parent == ParentAt(path, |path|)
    ensures forall e :: e in Annotate(BuildTree(menus, parent, path), path) ==> WellPlaced(menus, e, path)
    decreases |menus| - |path|, 1, 0
  {
    PathFits(menus, path);
    BuildEachPlaces(menus, Children(menus, parent), parent, path);
  }

  /** The placed rows of a sub-forest branch off at one of its root rows. */
  lemma {:induction false} BuildEachPlaces(menus: seq<Menu>, rows: seq<Menu>, parent: Option<Id>, path: seq<Id>)
    requires UniqueIds(menus) && RootPath(menus, path) && parent == ParentAt(path, |path|)
    requires |path| <= |menus|
    requires forall m :: m in rows ==> m in menus && m.parentId == parent
    ensures forall e :: e in Annotate(BuildEach(menus, rows, parent, path), path) ==>
              && WellPlaced(menus, e, path)
              && (e.ancestors + [e.item.id])[|path|] in Ids(rows)
    decreases |menus| - |path|, 0, |rows|
  {
    if rows != [] {
      PathGrows(menus, path, rows[0]);
      var inner := path + [rows[0].id];
      BuildTreePlaces(menus, Some(rows[0].id), inner);
      BuildEachPlaces(menus, rows[1..], parent, path);
      forall e | e in Annotate(BuildTree(menus, Some(rows[0].id), inner), inner)
        ensures WellPlaced(menus, e, path) && (e.ancestors + [e.item.id])[|path|] == rows[0].id
      {
        assert inner <= e.ancestors;
        assert e.ancestors[|path|] == inner[|path|];
      }
    }
  }

  lemma {:induction false} PlacedOf(forest: seq<Tree>, ancestors: seq<Id>, i: nat) returns (e: Placed)
    requires i < |Preorder(forest)|
    ensures e in Annotate(forest, ancestors) && e.item == Preorder(forest)[i]
  {
    AnnotateItems(forest, ancestors);
    e := Annotate(forest, ancestors)[i];
  }

  lemma {:induction false} BuildTreeUnique(menus: seq<Menu>, parent: Option<Id>, path: seq<Id>)
    requires UniqueIds(menus) && RootPath(menus, path) && parent == ParentAt(path, |path|)
    ensures UniqueIds(Preorder(BuildTree(menus, parent, path)))
    decreases |menus| - |path|, 1, 0
  {
    PathFits(menus, path);
    ChildrenUnique(menus, parent);
    BuildEachUnique(menus, Children(menus, parent), parent, path);
  }

  lemma {:induction false} ChildrenUnique(menus: seq<Menu>, parent: Option<Id>)
    requires UniqueIds(menus)
    ensures UniqueIds(Children(menus, parent))
  {
    if menus != [] {
      ChildrenUnique(menus[1..], parent);
      assert forall m :: m in Children(menus[1..], parent) ==> m in menus[1..] && m.id != menus[0].id;
    }
  }

  lemma {:induction false} BuildEachUnique(menus: seq<Menu>, rows: seq<Menu>, parent: Option<Id>, path: seq<Id>)
    requires UniqueIds(menus) && RootPath(menus, path) && parent == ParentAt(path, |path|)
    requires |path| <= |menus| && UniqueIds(rows)
    requires forall m :: m in rows ==> m in menus && m.parentId == parent
    ensures UniqueIds(Preorder(BuildEach(menus, rows, parent, path)))
    decreases |menus| - |path|, 0, |rows|
  {
    if rows != [] {
      PathGrows(menus, path, rows[0]);
      var inner := path + [rows[0].id];
      var children := BuildTree(menus, Some(rows[0].id), inner);
      var rest := BuildEach(menus, rows[1..], parent, path);
      BuildTreeUnique(menus, Some(rows[0].id), inner);
      BuildEachUnique(menus, rows[1..], parent, path);
      HeadApart(menus, rows[0], parent, path);
      UniqueConcat([rows[0]], Preorder(children));
      BranchesApart(menus, rows, parent, path);
      UniqueConcat([rows[0]] + Preorder(children), Preorder(rest));
    }
  }

  lemma {:induction false} UniqueConcat(a: seq<Menu>, b: seq<Menu>)
    requires UniqueIds(a) && UniqueIds(b)
    requires forall x, y :: x in a && y in b ==> x.id != y.id
    ensures UniqueIds(a + b)
  {
  }

  lemma {:induction false} PlacedAt(menus: seq<Menu>, parent: Option<Id>, path: seq<Id>, row: Menu) returns (full: seq<Id>)
    requires UniqueIds(menus) && RootPath(menus, path) && parent == ParentAt(path, |path|)
    requires row in Preorder(BuildTree(menus, parent, path))
    ensures RootPath(menus, full) && path < full && full[|full| - 1] == row.id
  {
    var forest := BuildTree(menus, parent, path);
    BuildTreePlaces(menus, parent, path);
    var i :| 0 <= i < |Preorder(forest)| && Preorder(forest)[i] == row;
    var e := PlacedOf(forest, path, i);
    full := e.ancestors + [e.item.id];
  }

  /** A row never occurs below itself. */
  lemma {:induction false} HeadApart(menus: seq<Menu>, row: Menu, parent: Option<Id>, path: seq<Id>)
    requires UniqueIds(menus) && RootPath(menus, path) && parent == ParentAt(path, |path|)
    requires row in menus && row.parentId == parent && RootPath(menus, path + [row.id])
    ensures forall x :: x in Preorder(BuildTree(menus, Some(row.id), path + [row.id])) ==> x.id != row.id
  {
    var inner := path + [row.id];
    forall x | x in Preorder(BuildTree(menus, Some(row.id), inner))
      ensures x.id != row.id
    {
      var full := PlacedAt(menus, Some(row.id), inner, x);
      if x.id == row.id {
        PathUnique(menus, full, inner);
      }
    }
  }

  /** Rows below different siblings have different root paths, hence different ids. */
  lemma {:induction false} BranchesApart(menus: seq<Menu>, rows: seq<Menu>, parent: Option<Id>, path: seq<Id>)
    requires UniqueIds(menus) && RootPath(menus, path) && parent == ParentAt(path, |path|)
    requires |path| <= |menus| && UniqueIds(rows) && rows != []
    requires forall m :: m in rows ==> m in menus && m.parentId == parent
    requires RootPath(menus, path + [rows[0].id])
    ensures forall x, y | x in [rows[0]] + Preorder(BuildTree(menus, Some(rows[0].id), path + [rows[0].id]))
                          && y in Preorder(BuildEach(menus, rows[1..], parent, path)) :: x.id != y.id
  {
    var inner := path + [rows[0].id];
    var children := BuildTree(menus, Some(rows[0].id), inner);
    var rest := BuildEach(menus, rows[1..], parent, path);
    BuildEachPlaces(menus, rows[1..], parent, path);
    assert rows[0].id !in Ids(rows[1..]);
    forall x, y | x in [rows[0]] + Preorder(children) && y in Preorder(rest)
      ensures x.id != y.id
    {
      var pathX := inner;
      if x != rows[0] {
        pathX := PlacedAt(menus, Some(rows[0].id), inner, x);
        assert pathX[|path|] == inner[|path|];
      }
      var j :| 0 <= j < |Preorder(rest)| && Preorder(rest)[j] == y;
      var b := PlacedOf(rest, path, j);
      if x.id == y.id {
        PathUnique(menus, pathX, b.ancestors + [b.item.id]);
      }
    }
  }

  /** A row whose root path extends the current path is found below it. */
  lemma {:induction false} BuildTreeFinds(menus: seq<Menu>, parent: Option<Id>, path: seq<Id>, full: seq<Id>, row: Menu)
    requires UniqueIds(menus) && RootPath(menus, path) && parent == ParentAt(path, |path|)
    requires RootPath(menus, full) && path < full && full[|full| - 1] == row.id && row in menus
    ensures row in Preorder(BuildTree(menus, parent, path))
    decreases |full| - |path|
  {
    PathFits(menus, path);
    var id := full[|path|];
    assert HasRow(menus, id, ParentAt(full, |path|));
    assert ParentAt(full, |path|) == ParentAt(path, |path|);
    var child :| child in menus && child.id == id && child.parentId == parent;
    assert child in Children(menus, parent);
    assert full[..|path| + 1] == path + [id];
    PathGrows(menus, path, child);
    if |full| == |path| + 1 {
      SameRow(menus, child, row);
    } else {
      assert full[..|path + [id]|] == path + [id];
      assert path + [id] < full;
      BuildTreeFinds(menus, Some(id), path + [id], full, row);
    }
    BuildEachContains(menus, Children(menus, parent), parent, path, child, row);
  }

  lemma {:induction false} SameRow(menus: seq<Menu>, a: Menu, b: Menu)
    requires UniqueIds(menus) && a in menus && b in menus && a.id == b.id
    ensures a == b
  {
  }

  lemma {:induction false} BuildEachContains(menus: seq<Menu>, rows: seq<Menu>, parent: Option<Id>, path: seq<Id>,
                                             child: Menu, row: Menu)
    requires UniqueIds(menus) && RootPath(menus, path) && parent == ParentAt(path, |path|)
    requires |path| <= |menus|
    requires forall m :: m in rows ==> m in menus && m.parentId == parent
    requires child in rows && RootPath(menus, path + [child.id])
    requires row == child || row in Preorder(BuildTree(menus, Some(child.id), path + [child.id]))
    ensures row in Preorder(BuildEach(menus, rows, parent, path))
    decreases |rows|
  {
    PathGrows(menus, path, rows[0]);
    if child != rows[0] {
      BuildEachContains(menus, rows[1..], parent, path, child, row);
    }
  }

  /** The tree holds exactly the rows whose parent chain inside the list ends at a row
      without a parent, and holds each of them once. */
  lemma {:induction false} TreeContents(menus: seq<Menu>)
    requires UniqueIds(menus)
    ensures forall m :: m in Preorder(MenuTree(menus)) <==> m in menus && Reaches(menus, m.id)
    ensures UniqueIds(Preorder(MenuTree(menus)))
  {
    var tree := MenuTree(menus);
    BuildTreeUnique(menus, None, []);
    BuildTreePlaces(menus, None, []);
    forall m | m in Preorder(tree)
      ensures m in menus && Reaches(menus, m.id)
    {
      var i :| 0 <= i < |Preorder(tree)| && Preorder(tree)[i] == m;
      var e := PlacedOf(tree, [], i);
      var path := e.ancestors + [e.item.id];
      assert path[|path| - 1] == m.id;
    }
    forall m | m in menus && Reaches(menus, m.id)
      ensures m in Preorder(tree)
    {
      var path :| RootPath(menus, path) && |path| > 0 && path[|path| - 1] == m.id;
      BuildTreeFinds(menus, None, [], path, m);
    }
  }

  // ---------------------------------------------------------------- building again

  /** Every row names the node it stands under as its parent. */
  ghost predicate Linked(forest: seq<Tree>, parent: Option<Id>) {
    forest != [] ==>
      && forest[0].item.parentId == parent
      && Linked(forest[0].children, Some(forest[0].item.id))
      && Linked(forest[1..], parent)
  }

  lemma {:induction false} ChildrenConcat(a: seq<Menu>, b: seq<Menu>, parent: Option<Id>)
    ensures Children(a + b, parent) == Children(a, parent) + Children(b, parent)
    decreases |a|
  {
    if a == [] {
      assert a + b == b;
    } else {
      assert (a + b)[1..] == a[1..] + b;
      ChildrenConcat(a[1..], b, parent);
    }
  }

  /** The rows of a node and of the forest around it, filtered by parent. */
  lemma {:induction false} ChildrenOfPreorder(forest: seq<Tree>, p: Option<Id>)
    requires forest != []
    ensures Children(Preorder(forest), p) ==
              Children([forest[0].item], p) + Children(Preorder(forest[0].children), p) + Children(Preorder(forest[1..]), p)
  {
    ChildrenConcat([forest[0].item] + Preorder(forest[0].children), Preorder(forest[1..]), p);
    ChildrenConcat([forest[0].item], Preorder(forest[0].children), p);
  }

  lemma {:induction false} PreorderParts(forest: seq<Tree>)
    requires forest != []
    ensures forest[0].item in Preorder(forest)
    ensures forall m :: m in Preorder(forest[0].children) ==> m in Preorder(forest)
    ensures forall m :: m in Preorder(forest[1..]) ==> m in Preorder(forest)
  {
  }

  /** Only rows inside a linked forest, and its own parent, are named as parents in it. */
  lemma {:induction false} NoStrayChildren(forest: seq<Tree>, parent: Option<Id>, p: Option<Id>)
    requires Linked(forest, parent) && p != parent
    requires forall m :: m in Preorder(forest) ==> p != Some(m.id)
    ensures Children(Preorder(forest), p) == []
    decreases forest
  {
    if forest != [] {
      PreorderParts(forest);
      ChildrenOfPreorder(forest, p);
      NoStrayChildren(forest[0].children, Some(forest[0].item.id), p);
      NoStrayChildren(forest[1..], parent, p);
    }
  }

  lemma {:induction false} RootsAreChildren(forest: seq<Tree>, parent: Option<Id>)
    requires Linked(forest, parent)
    requires forall m :: m in Preorder(forest) ==> parent != Some(m.id)
    ensures Children(Preorder(forest), parent) == Roots(forest)
    decreases forest
  {
    if forest != [] {
      PreorderParts(forest);
      NoStrayChildren(forest[0].children, Some(forest[0].item.id), parent);
      RootsAreChildren(forest[1..], parent);
      HeadFirst(forest, parent);
    }
  }

  lemma {:induction false} HeadFirst(forest: seq<Tree>, parent: Option<Id>)
    requires forest != [] && forest[0].item.parentId == parent
    requires Children(Preorder(forest[0].children), parent) == []
    requires Children(Preorder(forest[1..]), parent) == Roots(forest[1..])
    ensures Children(Preorder(forest), parent) == Roots(forest)
  {
    ChildrenOfPreorder(forest, parent);
    assert Children([forest[0].item], parent) == [forest[0].item];
  }

  lemma {:induction false} HeadsChildren(forest: seq<Tree>, parent: Option<Id>)
    requires forest != [] && Linked(forest, parent) && PartsApart(forest) && parent != Some(forest[0].item.id)
    ensures Children(Preorder(forest), Some(forest[0].item.id)) == Roots(forest[0].children)
  {
    var id := forest[0].item.id;
    ChildrenOfPreorder(forest, Some(id));
    RootsAreChildren(forest[0].children, Some(id));
    NoStrayChildren(forest[1..], parent, Some(id));
  }

  lemma {:induction false} InnerChildren(forest: seq<Tree>, parent: Option<Id>, m: Menu)
    requires forest != [] && Linked(forest, parent) && PartsApart(forest)
    requires m in Preorder(forest[0].children) && parent != Some(m.id)
    ensures Children(Preorder(forest), Some(m.id)) == Children(Preorder(forest[0].children), Some(m.id))
  {
    ChildrenOfPreorder(forest, Some(m.id));
    NoStrayChildren(forest[1..], parent, Some(m.id));
  }

  lemma {:induction false} RestChildren(forest: seq<Tree>, parent: Option<Id>, m: Menu)
    requires forest != [] && Linked(forest, parent) && PartsApart(forest)
    requires m in Preorder(forest[1..]) && parent != Some(m.id)
    ensures Children(Preorder(forest), Some(m.id)) == Children(Preorder(forest[1..]), Some(m.id))
  {
    ChildrenOfPreorder(forest, Some(m.id));
    NoStrayChildren(forest[0].children, Some(forest[0].item.id), Some(m.id));
  }

  /** The list and the forest's own rows agree on the children of every row of the forest. */
  ghost predicate SameChildren(menus: seq<Menu>, rows: seq<Menu>) {
    forall m :: m in rows ==> Children(menus, Some(m.id)) == Children(rows, Some(m.id))
  }

  lemma {:induction false} SplitSameChildren(menus: seq<Menu>, forest: seq<Tree>, parent: Option<Id>)
    requires forest != [] && Linked(forest, parent) && PartsApart(forest)
    requires forall m :: m in Preorder(forest) ==> parent != Some(m.id)
    requires SameChildren(menus, Preorder(forest))
    ensures SameChildren(menus, Preorder(forest[0].children)) && SameChildren(menus, Preorder(forest[1..]))
  {
    forall m | m in Preorder(forest[0].children)
      ensures Children(menus, Some(m.id)) == Children(Preorder(forest[0].children), Some(m.id))
    {
      assert m in Preorder(forest);
      InnerChildren(forest, parent, m);
    }
    forall m | m in Preorder(forest[1..])
      ensures Children(menus, Some(m.id)) == Children(Preorder(forest[1..]), Some(m.id))
    {
      assert m in Preorder(forest);
      RestChildren(forest, parent, m);
    }
  }

  lemma {:induction false} LinkedMirrorsBelow(menus: seq<Menu>, forest: seq<Tree>, parent: Option<Id>)
    requires Linked(forest, parent) && UniqueIds(Preorder(forest))
    requires forall m :: m in Preorder(forest) ==> parent != Some(m.id)
    requires SameChildren(menus, Preorder(forest))
    ensures MirrorsBelow(menus, forest)
    decreases forest
  {
    if forest != [] {
      SplitUnique(forest);
      assert forest[0].item in Preorder(forest);
      HeadsChildren(forest, parent);
      SplitSameChildren(menus, forest, parent);
      LinkedMirrorsBelow(menus, forest[0].children, Some(forest[0].item.id));
      LinkedMirrorsBelow(menus, forest[1..], parent);
    }
  }

  /** Any properly linked forest with unique ids is recovered from its flattened rows. */
  lemma {:induction false} RebuildForest(forest: seq<Tree>)
    requires Linked(forest, None) && UniqueIds(Preorder(forest))
    ensures MenuTree(Preorder(forest)) == forest
  {
    RootsAreChildren(forest, None);
    LinkedMirrorsBelow(Preorder(forest), forest, None);
    BuildIsTheMirror(Preorder(forest), forest);
  }

  lemma {:induction false} MirrorIsLinked(menus: seq<Menu>, forest: seq<Tree>, parent: Option<Id>)
    requires MirrorsBelow(menus, forest)
    requires forall m :: m in Roots(forest) ==> m.parentId == parent
    ensures Linked(forest, parent)
    decreases forest
  {
    if forest != [] {
      assert Roots(forest)[0] == forest[0].item && Roots(forest)[1..] == Roots(forest[1..]);
      MirrorIsLinked(menus, forest[0].children, Some(forest[0].item.id));
      MirrorIsLinked(menus, forest[1..], parent);
    }
  }

  /** Build, flatten, build again: the same tree, whatever the list. */
  lemma {:induction false} BuildFlattenBuild(menus: seq<Menu>)
    requires UniqueIds(menus)
    ensures UniqueIds(Preorder(MenuTree(menus)))
    ensures MenuTree(Preorder(MenuTree(menus))) == MenuTree(menus)
  {
    TreeContents(menus);
    BuildTreeMirrorsBelow(menus, None, []);
    MirrorIsLinked(menus, MenuTree(menus), None);
    RebuildForest(MenuTree(menus));
  }

  /** The depth of a row in the tree is the length of its parent chain. */
  lemma {:induction false} DepthIsChainLength(menus: seq<Menu>, k: nat, path: seq<Id>)
    requires UniqueIds(menus) && k < |Annotate(MenuTree(menus), [])|
    requires RootPath(menus, path) && |path| > 0
    requires path[|path| - 1] == Annotate(MenuTree(menus), [])[k].item.id
    ensures |Annotate(MenuTree(menus), [])[k].ancestors| == |path| - 1
  {
    BuildTreePlaces(menus, None, []);
    var e := Annotate(MenuTree(menus), [])[k];
    assert WellPlaced(menus, e, []);
    PathUnique(menus, e.ancestors + [e.item.id], path);
  }
}
