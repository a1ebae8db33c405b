/** Menu rows, trees of them, and the orders in which a tree is read. */
module Forest {
  import opened Wrappers

  type Id = string

  datatype Menu = Menu(id: Id, parentId: Option<Id>, name: string)

  datatype Tree = Node(item: Menu, children: seq<Tree>)

  /** The rows of a forest, parents before children and siblings in order. */
  function Preorder(forest: seq<Tree>): seq<Menu> {
    if forest == [] then []
    else [forest[0].item] + Preorder(forest[0].children) + Preorder(forest[1..])
  }

  function Roots(forest: seq<Tree>): (items: seq<Menu>)
    ensures |items| == |forest|
    ensures forall k :: 0 <= k < |items| ==> items[k] == forest[k].item
  {
    if forest == [] then [] else [forest[0].item] + Roots(forest[1..])
  }

  function Ids(menus: seq<Menu>): set<Id> {
    set m | m in menus :: m.id
  }

  ghost predicate UniqueIds(menus: seq<Menu>) {
    forall i, j :: 0 <= i < j < |menus| ==> menus[i].id != menus[j].id
  }

  /** A row together with the ids of its ancestors, outermost first. */
  datatype Placed = Placed(item: Menu, ancestors: seq<Id>)

  function Annotate(forest: seq<Tree>, ancestors: seq<Id>): seq<Placed> {
    if forest == [] then []
    else
      [Placed(forest[0].item, ancestors)]
      + Annotate(forest[0].children, ancestors + [forest[0].item.id])
      + Annotate(forest[1..], ancestors)
  }

  function Items(rows: seq<Placed>): (items: seq<Menu>)
    ensures |items| == |rows|
    ensures forall k :: 0 <= k < |rows| ==> items[k] == rows[k].item
  {
    if rows == [] then [] else [rows[0].item] + Items(rows[1..])
  }

  lemma {:induction false} ItemsConcat(a: seq<Placed>, b: seq<Placed>)
    ensures Items(a + b) == Items(a) + Items(b)
  {
  }

  /** Forgetting the ancestors gives the rows back. */
  lemma {:induction false} AnnotateItems(forest: seq<Tree>, ancestors: seq<Id>)
    ensures Items(Annotate(forest, ancestors)) == Preorder(forest)
  {
    if forest != [] {
      var first := [Placed(forest[0].item, ancestors)];
      var inner := Annotate(forest[0].children, ancestors + [forest[0].item.id]);
      var rest := Annotate(forest[1..], ancestors);
      ItemsConcat(first + inner, rest);
      ItemsConcat(first, inner);
      AnnotateItems(forest[0].children, ancestors + [forest[0].item.id]);
      AnnotateItems(forest[1..], ancestors);
    }
  }

  lemma {:induction false} UniqueParts(a: seq<Menu>, b: seq<Menu>)
    requires UniqueIds(a + b)
    ensures UniqueIds(a) && UniqueIds(b)
    ensures forall x, y | x in a && y in b :: x.id != y.id
  {
    assert forall i :: 0 <= i < |a| ==> (a + b)[i] == a[i];
    assert forall i :: 0 <= i < |b| ==> (a + b)[|a| + i] == b[i];
    forall x, y | x in a && y in b
      ensures x.id != y.id
    {
      var i :| 0 <= i < |a| && a[i] == x;
      var k :| 0 <= k < |b| && b[k] == y;
      assert (a + b)[i].id != (a + b)[|a| + k].id;
    }
  }

  /** With unique ids the three parts of a forest's rows share no id. */
  ghost predicate PartsApart(forest: seq<Tree>)
    requires forest != []
  {
    && UniqueIds(Preorder(forest[0].children)) && UniqueIds(Preorder(forest[1..]))
    && (forall x :: x in Preorder(forest[0].children) ==> x.id != forest[0].item.id)
    && (forall y :: y in Preorder(forest[1..]) ==> y.id != forest[0].item.id)
    && (forall x, y | x in Preorder(forest[0].children) && y in Preorder(forest[1..]) :: x.id != y.id)
  }

  lemma {:induction false} SplitUnique(forest: seq<Tree>)
    requires forest != [] && UniqueIds(Preorder(forest))
    ensures PartsApart(forest)
  {
    UniqueParts([forest[0].item] + Preorder(forest[0].children), Preorder(forest[1..]));
    UniqueParts([forest[0].item], Preorder(forest[0].children));
    assert forest[0].item in [forest[0].item];
  }
}
