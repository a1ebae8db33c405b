/** The tree table: which rows of a forest are visible when nodes are expanded, collapsed
    or searched for. */
module TreeTable {
  import opened Wrappers
  import opened Forest
  import opened TextSearch
  import Menus

  datatype Row = Row(item: Menu, level: int, hasChildren: bool, isExpanded: bool)

  /** What the reader sees of a row. */
  datatype Line = Line(item: Menu, level: int)

  function Lines(rows: seq<Row>): (lines: seq<Line>)
    ensures |lines| == |rows|
    ensures forall k :: 0 <= k < |rows| ==> lines[k] == Line(rows[k].item, rows[k].level)
  {
    if rows == [] then [] else [Line(rows[0].item, rows[0].level)] + Lines(rows[1..])
  }

  function CountNodes(data: seq<Tree>): nat {
    if data == [] then 0 else 1 + CountNodes(data[0].children) + CountNodes(data[1..])
  }

  function ParentIds(data: seq<Tree>): set<Id> {
    if data == [] then {}
    else
      (if data[0].children != [] then {data[0].item.id} + ParentIds(data[0].children) else {})
      + ParentIds(data[1..])
  }

  // ---------------------------------------------------------------- flattening

  predicate Includes(included: Option<set<Id>>, id: Id) {
    included.Some? ==> id in included.value
  }

  predicate AnyIncluded(nodes: seq<Tree>, included: Option<set<Id>>) {
    nodes != [] && (Includes(included, nodes[0].item.id) || AnyIncluded(nodes[1..], included))
  }

  function RowOf(node: Tree, expanded: set<Id>, included: Option<set<Id>>, level: int): Row {
    Row(node.item, level, AnyIncluded(node.children, included), node.item.id in expanded)
  }

  function Rows(data: seq<Tree>, expanded: set<Id>, included: Option<set<Id>>, level: int): seq<Row> {
    if data == [] then []
    else if !Includes(included, data[0].item.id) then Rows(data[1..], expanded, included, level)
    else
      [RowOf(data[0], expanded, included, level)]
      + (if AnyIncluded(data[0].children, included) && data[0].item.id in expanded
         then Rows(data[0].children, expanded, included, level + 1) else [])
      + Rows(data[1..], expanded, included, level)
  }

  /** An entry is shown when it and all its ancestors from a base on are included,
      and those ancestors are expanded. */
  predicate Picks(e: Placed, expanded: set<Id>, included: set<Id>, base: nat) {
    && e.item.id in included
    && forall k :: base <= k < |e.ancestors| ==> e.ancestors[k] in expanded && e.ancestors[k] in included
  }

  function PickedLines(entries: seq<Placed>, expanded: set<Id>, included: set<Id>, base: nat, level: int): seq<Line> {
    if entries == [] then []
    else
      (if Picks(entries[0], expanded, included, base)
       then [Line(entries[0].item, level + |entries[0].ancestors| - base)] else [])
      + PickedLines(entries[1..], expanded, included, base, level)
  }

  lemma {:induction false} LinesConcat(a: seq<Row>, b: seq<Row>)
    ensures Lines(a + b) == Lines(a) + Lines(b)
  {
  }

  lemma {:induction false} PickedConcat(a: seq<Placed>, b: seq<Placed>, expanded: set<Id>, included: set<Id>,
                                        base: nat, level: int)
    ensures PickedLines(a + b, expanded, included, base, level) ==
              PickedLines(a, expanded, included, base, level) + PickedLines(b, expanded, included, base, level)
    decreases |a|
  {
    if a == [] {
      assert a + b == b;
    } else {
      assert (a + b)[1..] == a[1..] + b;
      PickedConcat(a[1..], b, expanded, included, base, level);
    }
  }

  lemma {:induction false} AnnotatePrefix(data: seq<Tree>, ancestors: seq<Id>)
    ensures forall e :: e in Annotate(data, ancestors) ==> ancestors <= e.ancestors
    decreases data
  {
    if data != [] {
      AnnotatePrefix(data[0].children, ancestors + [data[0].item.id]);
      AnnotatePrefix(data[1..], ancestors);
    }
  }

  /** Below a node that is hidden or closed nothing is picked. */
  lemma {:induction false} NothingPicked(entries: seq<Placed>, expanded: set<Id>, included: set<Id>,
                                         base: nat, level: int, closed: Id)
    requires forall e :: e in entries ==> base < |e.ancestors| && e.ancestors[base] == closed
    requires closed !in expanded || closed !in included
    ensures PickedLines(entries, expanded, included, base, level) == []
    decreases |entries|
  {
    if entries != [] {
      assert !Picks(entries[0], expanded, included, base);
      NothingPicked(entries[1..], expanded, included, base, level, closed);
    }
  }

  /** Below an open included node the node itself need not be checked again. */
  lemma {:induction false} PickedBelow(entries: seq<Placed>, expanded: set<Id>, included: set<Id>,
                                       base: nat, level: int, open: Id)
    requires forall e :: e in entries ==> base < |e.ancestors| && e.ancestors[base] == open
    requires open in expanded && open in included
    ensures PickedLines(entries, expanded, included, base, level)
            == PickedLines(entries, expanded, included, base + 1, level + 1)
    decreases |entries|
  {
    if entries != [] {
      assert Picks(entries[0], expanded, included, base) <==> Picks(entries[0], expanded, included, base + 1);
      PickedBelow(entries[1..], expanded, included, base, level, open);
    }
  }

  lemma {:induction false} NoRows(data: seq<Tree>, expanded: set<Id>, included: Option<set<Id>>, level: int)
    requires !AnyIncluded(data, included)
    ensures Rows(data, expanded, included, level) == []
    decreases |data|
  {
    if data != [] {
      NoRows(data[1..], expanded, included, level);
    }
  }

  /** Flattening shows exactly the picked entries of the forest, in preorder, each at its depth. */
  lemma {:induction false} RowsArePicked(data: seq<Tree>, expanded: set<Id>, included: set<Id>,
                                         ancestors: seq<Id>, level: int)
    ensures Lines(Rows(data, expanded, Some(included), level))
            == PickedLines(Annotate(data, ancestors), expanded, included, |ancestors|, level)
    decreases data
  {
    if data != [] {
      RowsArePicked(data[1..], expanded, included, ancestors, level);
      HeadRowsArePicked(data, expanded, included, ancestors, level);
    }
  }

  /** The lines of the first tree of a forest. */
  function HeadLines(data: seq<Tree>, expanded: set<Id>, included: set<Id>, level: int): seq<Line>
    requires data != []
  {
    if data[0].item.id !in included then []
    else
      [Line(data[0].item, level)]
      + (if data[0].item.id in expanded then Lines(Rows(data[0].children, expanded, Some(included), level + 1)) else [])
  }

  lemma {:induction false} RowsByHead(data: seq<Tree>, expanded: set<Id>, included: set<Id>, level: int)
    requires data != []
    ensures Lines(Rows(data, expanded, Some(included), level))
            == HeadLines(data, expanded, included, level) + Lines(Rows(data[1..], expanded, Some(included), level))
  {
    var inc := Some(included);
    if data[0].item.id in included {
      var head := [RowOf(data[0], expanded, inc, level)];
      if !AnyIncluded(data[0].children, inc) {
        NoRows(data[0].children, expanded, inc, level + 1);
      }
      var inner := if data[0].item.id in expanded then Rows(data[0].children, expanded, inc, level + 1) else [];
      LinesConcat(head + inner, Rows(data[1..], expanded, inc, level));
      LinesConcat(head, inner);
      assert Lines(head) == [Line(data[0].item, level)];
    }
  }

  /** What the entries below the first node contribute. */
  function InnerPicked(data: seq<Tree>, expanded: set<Id>, included: set<Id>, ancestors: seq<Id>, level: int): seq<Line>
    requires data != []
  {
    var id := data[0].item.id;
    if id in included && id in expanded
    then PickedLines(Annotate(data[0].children, ancestors + [id]), expanded, included, |ancestors| + 1, level + 1)
    else []
  }

  lemma {:induction false} PickedInner(data: seq<Tree>, expanded: set<Id>, included: set<Id>,
                                       ancestors: seq<Id>, level: int)
    requires data != []
    ensures PickedLines(Annotate(data[0].children, ancestors + [data[0].item.id]), expanded, included, |ancestors|, level)
            == InnerPicked(data, expanded, included, ancestors, level)
  {
    var id, base := data[0].item.id, |ancestors|;
    var inner := Annotate(data[0].children, ancestors + [id]);
    AnnotatePrefix(data[0].children, ancestors + [id]);
    forall e | e in inner
      ensures base < |e.ancestors| && e.ancestors[base] == id
    {
      assert e.ancestors[base] == (ancestors + [id])[base];
    }
    if id in included && id in expanded {
      PickedBelow(inner, expanded, included, base, level, id);
    } else {
      NothingPicked(inner, expanded, included, base, level, id);
    }
  }

  lemma {:induction false} PickedHead(item: Menu, expanded: set<Id>, included: set<Id>, ancestors: seq<Id>, level: int)
    ensures PickedLines([Placed(item, ancestors)], expanded, included, |ancestors|, level)
            == if item.id in included then [Line(item, level)] else []
  {
  }

  lemma {:induction false} PickedByHead(data: seq<Tree>, expanded: set<Id>, included: set<Id>,
                                        ancestors: seq<Id>, level: int)
    requires data != []
    ensures PickedLines(Annotate(data, ancestors), expanded, included, |ancestors|, level)
            == (if data[0].item.id in included then [Line(data[0].item, level)] else [])
               + InnerPicked(data, expanded, included, ancestors, level)
               + PickedLines(Annotate(data[1..], ancestors), expanded, included, |ancestors|, level)
  {
    var head := [Placed(data[0].item, ancestors)];
    var inner := Annotate(data[0].children, ancestors + [data[0].item.id]);
    PickedConcat(head + inner, Annotate(data[1..], ancestors), expanded, included, |ancestors|, level);
    PickedConcat(head, inner, expanded, included, |ancestors|, level);
    PickedHead(data[0].item, expanded, included, ancestors, level);
    PickedInner(data, expanded, included, ancestors, level);
  }

  lemma {:induction false} HeadRowsArePicked(data: seq<Tree>, expanded: set<Id>, included: set<Id>,
                                             ancestors: seq<Id>, level: int)
    requires data != []
    requires Lines(Rows(data[1..], expanded, Some(included), level))
             == PickedLines(Annotate(data[1..], ancestors), expanded, included, |ancestors|, level)
    ensures Lines(Rows(data, expanded, Some(included), level))
            == PickedLines(Annotate(data, ancestors), expanded, included, |ancestors|, level)
    decreases data, 0
  {
    RowsByHead(data, expanded, included, level);
    PickedByHead(data, expanded, included, ancestors, level);
    RowsArePicked(data[0].children, expanded, included, ancestors + [data[0].item.id], level + 1);
  }

  // ---------------------------------------------------------------- without a search

  /** Without a filter the table flattens as if every id were included. */
  lemma {:induction false} RowsUnfiltered(data: seq<Tree>, expanded: set<Id>, all: set<Id>, level: int)
    requires forall m :: m in Preorder(data) ==> m.id in all
    ensures Rows(data, expanded, None, level) == Rows(data, expanded, Some(all), level)
    ensures AnyIncluded(data, None) == AnyIncluded(data, Some(all))
    decreases data
  {
    if data != [] {
      assert data[0].item in Preorder(data);
      assert forall m :: m in Preorder(data[0].children) || m in Preorder(data[1..]) ==> m in Preorder(data);
      RowsUnfiltered(data[0].children, expanded, all, level + 1);
      RowsUnfiltered(data[1..], expanded, all, level);
    }
  }

  /** Every entry of a forest, as the line it would be shown as. */
  function AllLines(entries: seq<Placed>): (lines: seq<Line>)
    ensures |lines| == |entries|
    ensures forall k :: 0 <= k < |entries| ==> lines[k] == Line(entries[k].item, |entries[k].ancestors|)
  {
    if entries == [] then [] else [Line(entries[0].item, |entries[0].ancestors|)] + AllLines(entries[1..])
  }

  lemma {:induction false} AllPicked(entries: seq<Placed>, expanded: set<Id>, included: set<Id>)
    requires forall e :: e in entries ==> Picks(e, expanded, included, 0)
    ensures PickedLines(entries, expanded, included, 0, 0) == AllLines(entries)
    decreases |entries|
  {
    if entries != [] {
      AllPicked(entries[1..], expanded, included);
    }
  }

  /** The ancestors of an entry are ids of nodes with children. */
  lemma {:induction false} AncestorsAreParents(data: seq<Tree>, ancestors: seq<Id>)
    ensures forall e, k :: e in Annotate(data, ancestors) && |ancestors| <= k < |e.ancestors| ==>
              e.ancestors[k] in ParentIds(data)
    decreases data
  {
    if data != [] {
      var inner := ancestors + [data[0].item.id];
      AncestorsAreParents(data[0].children, inner);
      AncestorsAreParents(data[1..], ancestors);
      AnnotatePrefix(data[0].children, inner);
      forall e, k | e in Annotate(data[0].children, inner) && |ancestors| <= k < |e.ancestors|
        ensures e.ancestors[k] in ParentIds(data)
      {
        assert data[0].children != [];
        assert inner <= e.ancestors;
        if k == |ancestors| {
          assert e.ancestors[k] == inner[k];
        }
      }
    }
  }

  lemma {:induction false} CountIsLength(data: seq<Tree>)
    ensures CountNodes(data) == |Preorder(data)|
    decreases data
  {
    if data != [] {
      CountIsLength(data[0].children);
      CountIsLength(data[1..]);
    }
  }

  /** Flattened with every parent expanded, the table shows every row of the forest in preorder,
      each at its depth, and their number is the node count. */
  lemma {:induction false} FullyExpanded(data: seq<Tree>, expanded: set<Id>)
    requires ParentIds(data) <= expanded
    ensures Lines(Rows(data, expanded, None, 0)) == AllLines(Annotate(data, []))
    ensures |Rows(data, expanded, None, 0)| == CountNodes(data)
  {
    var all := expanded + Ids(Preorder(data));
    RowsUnfiltered(data, expanded, all, 0);
    RowsArePicked(data, expanded, all, [], 0);
    AncestorsAreParents(data, []);
    AnnotateItems(data, []);
    forall e | e in Annotate(data, [])
      ensures Picks(e, expanded, all, 0)
    {
      assert e.item in Items(Annotate(data, []));
    }
    AllPicked(Annotate(data, []), expanded, all);
    CountIsLength(data);
  }

  /** The flags of a row: whether its id is expanded, and whether a child is included. */
  lemma {:induction false} FlagsMean(node: Tree, expanded: set<Id>, included: Option<set<Id>>, level: int)
    ensures var r := RowOf(node, expanded, included, level);
            && r.item == node.item && r.level == level
            && (r.isExpanded <==> node.item.id in expanded)
            && (r.hasChildren <==>
                  exists k :: 0 <= k < |node.children| && (included.None? || node.children[k].item.id in included.value))
  {
    AnyIncludedMeans(node.children, included);
  }

  lemma {:induction false} AnyIncludedMeans(nodes: seq<Tree>, included: Option<set<Id>>)
    ensures AnyIncluded(nodes, included) <==>
              exists k :: 0 <= k < |nodes| && (included.None? || nodes[k].item.id in included.value)
    decreases |nodes|
  {
    if nodes != [] {
      AnyIncludedMeans(nodes[1..], included);
      assert forall k :: 0 < k < |nodes| ==> nodes[k] == nodes[1..][k - 1];
      if k :| 0 <= k < |nodes[1..]| && (included.None? || nodes[1..][k].item.id in included.value) {
        assert nodes[k + 1] == nodes[1..][k];
      }
    }
  }

  lemma {:induction false} RowsExpanded(data: seq<Tree>, expanded: set<Id>, included: Option<set<Id>>, level: int)
    ensures forall r :: r in Rows(data, expanded, included, level) ==> (r.isExpanded <==> r.item.id in expanded)
    decreases data
  {
    if data != [] {
      RowsExpanded(data[0].children, expanded, included, level + 1);
      RowsExpanded(data[1..], expanded, included, level);
    }
  }

  /** The roots alone. */
  function RootLines(data: seq<Tree>): (lines: seq<Line>)
    ensures |lines| == |data| && forall k :: 0 <= k < |data| ==> lines[k] == Line(data[k].item, 0)
  {
    seq(|data|, k requires 0 <= k < |data| => Line(data[k].item, 0))
  }

  lemma {:induction false} CollapsedRows(data: seq<Tree>)
    ensures Lines(Rows(data, {}, None, 0)) == RootLines(data)
    decreases |data|
  {
    if data != [] {
      CollapsedRows(data[1..]);
      LinesConcat([RowOf(data[0], {}, None, 0)], Rows(data[1..], {}, None, 0));
      assert Rows(data, {}, None, 0) == [RowOf(data[0], {}, None, 0)] + Rows(data[1..], {}, None, 0);
    }
  }

  /** The ids of parents are those some other node is placed below. */
  lemma {:induction false} ParentIdsMeans(data: seq<Tree>, ancestors: seq<Id>, id: Id)
    ensures id in ParentIds(data) <==>
              exists e, k :: e in Annotate(data, ancestors) && |ancestors| <= k < |e.ancestors| && e.ancestors[k] == id
    decreases data
  {
    AncestorsAreParents(data, ancestors);
    if data != [] && id in ParentIds(data) {
      var node, inner := data[0], ancestors + [data[0].item.id];
      ParentIdsMeans(node.children, inner, id);
      ParentIdsMeans(data[1..], ancestors, id);
      AnnotatePrefix(node.children, inner);
      if node.children != [] && id == node.item.id {
        var e := Annotate(node.children, inner)[0];
        assert e in Annotate(node.children, inner) && inner <= e.ancestors;
        assert e in Annotate(data, ancestors) && e.ancestors[|ancestors|] == id;
      } else if id in ParentIds(node.children) && node.children != [] {
        var e, k :| e in Annotate(node.children, inner) && |inner| <= k < |e.ancestors| && e.ancestors[k] == id;
        assert e in Annotate(data, ancestors) && e.ancestors[k] == id;
      } else {
        var e, k :| e in Annotate(data[1..], ancestors) && |ancestors| <= k < |e.ancestors| && e.ancestors[k] == id;
        assert e in Annotate(data, ancestors) && e.ancestors[k] == id;
      }
    }
  }

  function RowItems(rows: seq<Row>): seq<Menu> {
    seq(|rows|, i requires 0 <= i < |rows| => rows[i].item)
  }

  lemma {:induction false} ExpandedItems(data: seq<Tree>, expanded: set<Id>)
    requires ParentIds(data) <= expanded
    ensures RowItems(Rows(data, expanded, None, 0)) == Preorder(data)
  {
    var rows := Rows(data, expanded, None, 0);
    FullyExpanded(data, expanded);
    AnnotateItems(data, []);
    assert forall k :: 0 <= k < |rows| ==> Lines(rows)[k].item == Items(Annotate(data, []))[k];
  }

  /** Building from the rows of a fully expanded table gives back the forest they were flattened
      from, if its nodes name their parents and share no id. */
  lemma {:induction false} RebuildFromTable(data: seq<Tree>, expanded: set<Id>)
    requires ParentIds(data) <= expanded && Menus.Linked(data, None) && UniqueIds(Preorder(data))
    ensures UniqueIds(RowItems(Rows(data, expanded, None, 0)))
    ensures Menus.MenuTree(RowItems(Rows(data, expanded, None, 0))) == data
  {
    ExpandedItems(data, expanded);
    Menus.RebuildForest(data);
  }

  /** Building a tree from any list with unique ids, flattening it fully expanded and building again
      gives the same tree, from countTreeNodes rows. */
  lemma {:induction false} BuildFlattenBuild(menus: seq<Menu>, expanded: set<Id>)
    requires UniqueIds(menus) && ParentIds(Menus.MenuTree(menus)) <= expanded
    ensures var rows := Rows(Menus.MenuTree(menus), expanded, None, 0);
            && |rows| == CountNodes(Menus.MenuTree(menus)) && UniqueIds(RowItems(rows))
            && Menus.MenuTree(RowItems(rows)) == Menus.MenuTree(menus)
  {
    FullyExpanded(Menus.MenuTree(menus), expanded);
    ExpandedItems(Menus.MenuTree(menus), expanded);
    Menus.BuildFlattenBuild(menus);
  }

  // ---------------------------------------------------------------- searching

  function MatchedIds(data: seq<Tree>, hit: Menu -> bool): set<Id> {
    if data == [] then {}
    else (if hit(data[0].item) then {data[0].item.id} else {}) + MatchedIds(data[0].children, hit) + MatchedIds(data[1..], hit)
  }

  predicate AnyHit(data: seq<Tree>, hit: Menu -> bool) {
    data != [] && (hit(data[0].item) || AnyHit(data[0].children, hit) || AnyHit(data[1..], hit))
  }

  /** The ids of nodes with a hit strictly below them. */
  function OpenedIds(data: seq<Tree>, hit: Menu -> bool): set<Id> {
    if data == [] then {}
    else
      (if AnyHit(data[0].children, hit) then {data[0].item.id} else {})
      + OpenedIds(data[0].children, hit) + OpenedIds(data[1..], hit)
  }

  /** The ids of hits and of nodes with a hit below them. */
  function IncludedIds(data: seq<Tree>, hit: Menu -> bool): set<Id> {
    if data == [] then {}
    else
      (if hit(data[0].item) || AnyHit(data[0].children, hit) then {data[0].item.id} else {})
      + IncludedIds(data[0].children, hit) + IncludedIds(data[1..], hit)
  }

  /** id belongs to an ancestor, from the base on, of an entry that is a hit. */
  ghost predicate AboveHit(entries: seq<Placed>, hit: Menu -> bool, base: nat, id: Id) {
    exists e :: e in entries && hit(e.item) && base <= |e.ancestors| && id in e.ancestors[base..]
  }

  lemma {:induction false} AnyHitMeans(data: seq<Tree>, hit: Menu -> bool, ancestors: seq<Id>)
    ensures AnyHit(data, hit) <==> exists e :: e in Annotate(data, ancestors) && hit(e.item)
    decreases data
  {
    if data != [] {
      AnyHitMeans(data[0].children, hit, ancestors + [data[0].item.id]);
      AnyHitMeans(data[1..], hit, ancestors);
      assert Placed(data[0].item, ancestors) in Annotate(data, ancestors);
    }
  }

  lemma {:induction false} IncludedIsMatchedOrOpened(data: seq<Tree>, hit: Menu -> bool)
    ensures IncludedIds(data, hit) == MatchedIds(data, hit) + OpenedIds(data, hit)
    decreases data
  {
    if data != [] {
      IncludedIsMatchedOrOpened(data[0].children, hit);
      IncludedIsMatchedOrOpened(data[1..], hit);
    }
  }

  lemma {:induction false} MatchedMeans(data: seq<Tree>, hit: Menu -> bool, ancestors: seq<Id>, id: Id)
    ensures id in MatchedIds(data, hit) <==> exists e :: e in Annotate(data, ancestors) && hit(e.item) && e.item.id == id
    decreases data
  {
    if data != [] {
      MatchedMeans(data[0].children, hit, ancestors + [data[0].item.id], id);
      MatchedMeans(data[1..], hit, ancestors, id);
      assert Placed(data[0].item, ancestors) in Annotate(data, ancestors);
    }
  }

  /** Looking one level less deep only adds the node in between. */
  lemma {:induction false} AboveHitInner(node: Tree, hit: Menu -> bool, ancestors: seq<Id>, id: Id)
    ensures var inner := ancestors + [node.item.id];
            AboveHit(Annotate(node.children, inner), hit, |ancestors|, id) <==>
              || AboveHit(Annotate(node.children, inner), hit, |inner|, id)
              || (id == node.item.id && AnyHit(node.children, hit))
  {
    var inner := ancestors + [node.item.id];
    var entries := Annotate(node.children, inner);
    AnnotatePrefix(node.children, inner);
    AnyHitMeans(node.children, hit, inner);
    forall e | e in entries
      ensures |ancestors| < |e.ancestors|
      ensures e.ancestors[|ancestors|..] == [node.item.id] + e.ancestors[|inner|..]
    {
      assert inner <= e.ancestors;
      assert e.ancestors[|ancestors|] == inner[|ancestors|];
    }
  }

  lemma {:induction false} AboveHitSplit(a: seq<Placed>, b: seq<Placed>, hit: Menu -> bool, base: nat, id: Id)
    ensures AboveHit(a + b, hit, base, id) <==> AboveHit(a, hit, base, id) || AboveHit(b, hit, base, id)
  {
  }

  lemma {:induction false} OpenedMeans(data: seq<Tree>, hit: Menu -> bool, ancestors: seq<Id>, id: Id)
    ensures id in OpenedIds(data, hit) <==> AboveHit(Annotate(data, ancestors), hit, |ancestors|, id)
    decreases data
  {
    if data != [] {
      var inner := ancestors + [data[0].item.id];
      var head := [Placed(data[0].item, ancestors)];
      OpenedMeans(data[0].children, hit, inner, id);
      OpenedMeans(data[1..], hit, ancestors, id);
      AboveHitInner(data[0], hit, ancestors, id);
      AboveHitSplit(head + Annotate(data[0].children, inner), Annotate(data[1..], ancestors), hit, |ancestors|, id);
      AboveHitSplit(head, Annotate(data[0].children, inner), hit, |ancestors|, id);
      assert !AboveHit(head, hit, |ancestors|, id);
    }
  }

  /** With unique ids, the entry named among another entry's ancestors has the ancestors
      that stand before it there. */
  lemma {:induction false} AncestorPlaced(data: seq<Tree>, ancestors: seq<Id>, d: Placed, e: Placed, k: nat)
    requires UniqueIds(Preorder(data))
    requires d in Annotate(data, ancestors) && e in Annotate(data, ancestors)
    requires |ancestors| <= k < |e.ancestors| && d.item.id == e.ancestors[k]
    ensures d.ancestors == e.ancestors[..k]
    decreases data
  {
    var id := data[0].item.id;
    var inner, rest := Annotate(data[0].children, ancestors + [id]), Annotate(data[1..], ancestors);
    SplitUnique(data);
    EntryIds(data[0].children, ancestors + [id]);
    EntryIds(data[1..], ancestors);
    AnnotatePrefix(data[0].children, ancestors + [id]);
    AncestorIds(data[0].children, ancestors + [id]);
    AncestorIds(data[1..], ancestors);
    if e in inner {
      assert ancestors + [id] <= e.ancestors;
      if k == |ancestors| {
        assert e.ancestors[k] == (ancestors + [id])[k];
        assert d == Placed(data[0].item, ancestors);
        assert e.ancestors[..k] == ancestors;
      } else {
        assert e.ancestors[k] in Ids(Preorder(data[0].children));
        AncestorPlaced(data[0].children, ancestors + [id], d, e, k);
      }
    } else {
      assert e in rest;
      assert e.ancestors[k] in Ids(Preorder(data[1..]));
      AncestorPlaced(data[1..], ancestors, d, e, k);
    }
  }

  lemma {:induction false} EntryIds(data: seq<Tree>, ancestors: seq<Id>)
    ensures forall e :: e in Annotate(data, ancestors) ==> e.item.id in Ids(Preorder(data))
  {
    AnnotateItems(data, ancestors);
    forall e | e in Annotate(data, ancestors)
      ensures e.item.id in Ids(Preorder(data))
    {
      assert e.item in Items(Annotate(data, ancestors));
    }
  }

  lemma {:induction false} AncestorIds(data: seq<Tree>, ancestors: seq<Id>)
    ensures forall e, k :: e in Annotate(data, ancestors) && |ancestors| <= k < |e.ancestors| ==>
              e.ancestors[k] in Ids(Preorder(data))
    decreases data
  {
    if data != [] {
      var inner := ancestors + [data[0].item.id];
      AncestorIds(data[0].children, inner);
      AncestorIds(data[1..], ancestors);
      AnnotatePrefix(data[0].children, inner);
      assert data[0].item in Preorder(data);
      forall e, k | e in Annotate(data[0].children, inner) && |ancestors| <= k < |e.ancestors|
        ensures e.ancestors[k] in Ids(Preorder(data))
      {
        assert inner <= e.ancestors;
        if k == |ancestors| {
          assert e.ancestors[k] == inner[k];
        } else {
          assert e.ancestors[k] in Ids(Preorder(data[0].children));
        }
      }
    }
  }

  /** A node is relevant to a search when it is a hit or an ancestor of one. */
  ghost predicate Relevant(all: seq<Placed>, e: Placed, hit: Menu -> bool) {
    hit(e.item) || exists d :: d in all && hit(d.item) && e.item.id in d.ancestors
  }

  ghost predicate Shown(all: seq<Placed>, e: Placed, hit: Menu -> bool, collapsed: set<Id>) {
    Relevant(all, e, hit) && forall a :: a in e.ancestors ==> a !in collapsed
  }

  ghost function ShownLines(all: seq<Placed>, entries: seq<Placed>, hit: Menu -> bool, collapsed: set<Id>): seq<Line> {
    if entries == [] then []
    else
      (if Shown(all, entries[0], hit, collapsed) then [Line(entries[0].item, |entries[0].ancestors|)] else [])
      + ShownLines(all, entries[1..], hit, collapsed)
  }

  /** With unique ids an id stands for one row. */
  lemma {:induction false} OneRowPerId(data: seq<Tree>, d: Placed, e: Placed)
    requires UniqueIds(Preorder(data)) && d in Annotate(data, []) && e in Annotate(data, [])
    requires d.item.id == e.item.id
    ensures d.item == e.item
  {
    var all := Annotate(data, []);
    AnnotateItems(data, []);
    var i :| 0 <= i < |all| && all[i] == d;
    var j :| 0 <= j < |all| && all[j] == e;
    assert Items(all)[i] == d.item && Items(all)[j] == e.item;
  }

  lemma {:induction false} IncludedIsRelevant(data: seq<Tree>, e: Placed, hit: Menu -> bool)
    requires UniqueIds(Preorder(data)) && e in Annotate(data, [])
    ensures e.item.id in IncludedIds(data, hit) <==> Relevant(Annotate(data, []), e, hit)
  {
    var all := Annotate(data, []);
    IncludedIsMatchedOrOpened(data, hit);
    MatchedMeans(data, hit, [], e.item.id);
    OpenedMeans(data, hit, [], e.item.id);
    assert forall d: Placed :: d.ancestors[0..] == d.ancestors;
    forall d | d in all && d.item.id == e.item.id
      ensures d.item == e.item
    {
      OneRowPerId(data, d, e);
    }
  }

  /** All ancestors of a relevant entry have a hit below them. */
  lemma {:induction false} AncestorsOfRelevantOpen(data: seq<Tree>, e: Placed, hit: Menu -> bool)
    requires UniqueIds(Preorder(data)) && e in Annotate(data, []) && Relevant(Annotate(data, []), e, hit)
    ensures forall a :: a in e.ancestors ==> a in OpenedIds(data, hit)
  {
    var all := Annotate(data, []);
    forall a | a in e.ancestors
      ensures a in OpenedIds(data, hit)
    {
      OpenedMeans(data, hit, [], a);
      if hit(e.item) {
        assert e.ancestors[0..] == e.ancestors;
      } else {
        var d :| d in all && hit(d.item) && e.item.id in d.ancestors;
        var k :| 0 <= k < |d.ancestors| && d.ancestors[k] == e.item.id;
        AncestorPlaced(data, [], e, d, k);
        assert d.ancestors[0..] == d.ancestors;
        assert a in d.ancestors;
      }
    }
  }

  lemma {:induction false} PicksIsShown(data: seq<Tree>, e: Placed, hit: Menu -> bool, collapsed: set<Id>)
    requires UniqueIds(Preorder(data)) && e in Annotate(data, [])
    ensures Picks(e, OpenedIds(data, hit) - collapsed, IncludedIds(data, hit), 0)
            <==> Shown(Annotate(data, []), e, hit, collapsed)
  {
    IncludedIsRelevant(data, e, hit);
    IncludedIsMatchedOrOpened(data, hit);
    if Relevant(Annotate(data, []), e, hit) {
      AncestorsOfRelevantOpen(data, e, hit);
    }
  }

  lemma {:induction false} PickedIsShown(data: seq<Tree>, entries: seq<Placed>, hit: Menu -> bool, collapsed: set<Id>)
    requires UniqueIds(Preorder(data))
    requires forall e :: e in entries ==> e in Annotate(data, [])
    ensures PickedLines(entries, OpenedIds(data, hit) - collapsed, IncludedIds(data, hit), 0, 0)
            == ShownLines(Annotate(data, []), entries, hit, collapsed)
    decreases |entries|
  {
    if entries != [] {
      PicksIsShown(data, entries[0], hit, collapsed);
      PickedIsShown(data, entries[1..], hit, collapsed);
    }
  }

  /** During a search the visible rows are exactly the hits and their ancestors that have no
      collapsed proper ancestor, in preorder and at their depth. */
  lemma {:induction false} SearchShows(data: seq<Tree>, hit: Menu -> bool, collapsed: set<Id>)
    requires UniqueIds(Preorder(data))
    ensures Lines(Rows(data, OpenedIds(data, hit) - collapsed, Some(IncludedIds(data, hit)), 0))
            == ShownLines(Annotate(data, []), Annotate(data, []), hit, collapsed)
  {
    RowsArePicked(data, OpenedIds(data, hit) - collapsed, IncludedIds(data, hit), [], 0);
    PickedIsShown(data, Annotate(data, []), hit, collapsed);
  }

  // ---------------------------------------------------------------- the component

  /** What a search looks at: the text of a row and its lower-casing. */
  datatype Searcher = Searcher(textOf: Menu -> string, lower: string -> string) {
    function Hit(query: string): Menu -> bool {
      (row: Menu) => Contains(lower(textOf(row)), query)
    }
  }

  /** A row hits the query if and only if its text in lower case has the query as a stretch. */
  lemma {:induction false} HitMeans(searcher: Searcher, query: string, row: Menu)
    ensures var t := searcher.lower(searcher.textOf(row));
            searcher.Hit(query)(row) <==> exists i, j :: 0 <= i <= j <= |t| && t[i..j] == query
  {
    var t := searcher.lower(searcher.textOf(row));
    if searcher.Hit(query)(row) {
      var i :| 0 <= i <= |t| && OccursAt(t, query, i);
      assert t[i..i + |query|] == query;
    }
    if i, j :| 0 <= i <= j <= |t| && t[i..j] == query {
      assert j == i + |query| && OccursAt(t, query, i);
    }
  }

  /** The text of the entry, or of one below it, has the query as a stretch, and nothing above it is
      collapsed. */
  ghost predicate FoundBy(searcher: Searcher, query: string, collapsed: set<Id>, all: seq<Placed>, e: Placed) {
    && (forall a :: a in e.ancestors ==> a !in collapsed)
    && exists d ::
         && d in all && (d == e || e.item.id in d.ancestors)
         && var t := searcher.lower(searcher.textOf(d.item)); exists i, j :: 0 <= i <= j <= |t| && t[i..j] == query
  }

  lemma {:induction false} FoundIsShown(searcher: Searcher, query: string, collapsed: set<Id>, all: seq<Placed>, e: Placed)
    requires e in all
    ensures FoundBy(searcher, query, collapsed, all, e) <==> Shown(all, e, searcher.Hit(query), collapsed)
  {
    forall d | d in all
      ensures var t := searcher.lower(searcher.textOf(d.item));
              searcher.Hit(query)(d.item) <==> exists i, j :: 0 <= i <= j <= |t| && t[i..j] == query
    {
      HitMeans(searcher, query, d.item);
    }
  }

  lemma {:induction false} ShownLineOf(all: seq<Placed>, entries: seq<Placed>, hit: Menu -> bool, collapsed: set<Id>, line: Line)
    ensures line in ShownLines(all, entries, hit, collapsed) <==>
              exists e :: e in entries && Shown(all, e, hit, collapsed) && line == Line(e.item, |e.ancestors|)
    decreases |entries|
  {
    if entries != [] {
      ShownLineOf(all, entries[1..], hit, collapsed, line);
    }
  }

  /** The lines shown during a search are those of the entries found by the text. */
  lemma {:induction false} LinesAreFound(searcher: Searcher, query: string, collapsed: set<Id>, all: seq<Placed>, line: Line)
    ensures line in ShownLines(all, all, searcher.Hit(query), collapsed) <==>
              exists e :: e in all && FoundBy(searcher, query, collapsed, all, e) && line == Line(e.item, |e.ancestors|)
  {
    ShownLineOf(all, all, searcher.Hit(query), collapsed, line);
    forall e | e in all
      ensures FoundBy(searcher, query, collapsed, all, e) <==> Shown(all, e, searcher.Hit(query), collapsed)
    {
      FoundIsShown(searcher, query, collapsed, all, e);
    }
  }

  lemma {:induction false} Suffix(data: seq<Tree>, i: nat)
    requires i < |data|
    ensures data[i..] != [] && data[i..][0] == data[i] && data[i..][1..] == data[i + 1..]
  {
  }

  method CollectParentIds(data: seq<Tree>) returns (ids: set<Id>)
    ensures ids == ParentIds(data)
    decreases data
  {
    ids := {};
    for i := 0 to |data|
      invariant ids + ParentIds(data[i..]) == ParentIds(data)
    {
      Suffix(data, i);
      if |data[i].children| > 0 {
        var below := CollectParentIds(data[i].children);
        ids := ids + {data[i].item.id} + below;
      }
    }
  }

  class TreeSearchState {
    var includedIds: set<Id>
    var matchedIds: set<Id>
    var parentIds: set<Id>

    constructor ()
      ensures includedIds == {} && matchedIds == {} && parentIds == {}
    {
      includedIds, matchedIds, parentIds := {}, {}, {};
    }
  }

  /** What one node adds to the three sets. */
  function NodeMatched(node: Tree, hit: Menu -> bool): set<Id> {
    (if hit(node.item) then {node.item.id} else {}) + MatchedIds(node.children, hit)
  }

  function NodeOpened(node: Tree, hit: Menu -> bool): set<Id> {
    (if AnyHit(node.children, hit) then {node.item.id} else {}) + OpenedIds(node.children, hit)
  }

  function NodeIncluded(node: Tree, hit: Menu -> bool): set<Id> {
    (if hit(node.item) || AnyHit(node.children, hit) then {node.item.id} else {}) + IncludedIds(node.children, hit)
  }

  lemma {:induction false} SearchStep(data: seq<Tree>, i: nat, hit: Menu -> bool)
    requires i < |data|
    ensures AnyHit(data[i..], hit) ==
              (hit(data[i].item) || AnyHit(data[i].children, hit) || AnyHit(data[i + 1..], hit))
    ensures MatchedIds(data[i..], hit) == NodeMatched(data[i], hit) + MatchedIds(data[i + 1..], hit)
    ensures OpenedIds(data[i..], hit) == NodeOpened(data[i], hit) + OpenedIds(data[i + 1..], hit)
    ensures IncludedIds(data[i..], hit) == NodeIncluded(data[i], hit) + IncludedIds(data[i + 1..], hit)
  {
  }

  lemma {:induction false} Regroup(done: set<Id>, next: set<Id>, rest: set<Id>)
    ensures done + (next + rest) == (done + next) + rest
  {
  }

  /** One turn of the loop. */
  method VisitNode(node: Tree, query: string, searcher: Searcher, state: TreeSearchState) returns (matched: bool)
    modifies state
    ensures var hit := searcher.Hit(query);
            && matched == (hit(node.item) || AnyHit(node.children, hit))
            && state.matchedIds == old(state.matchedIds) + NodeMatched(node, hit)
            && state.includedIds == old(state.includedIds) + NodeIncluded(node, hit)
            && state.parentIds == old(state.parentIds) + NodeOpened(node, hit)
    decreases node
  {
    var selfMatched := Contains(searcher.lower(searcher.textOf(node.item)), query);
    if selfMatched {
      state.matchedIds := state.matchedIds + {node.item.id};
    }
    var childMatched := CollectSearchState(node.children, query, searcher, state);
    if selfMatched || childMatched {
      state.includedIds := state.includedIds + {node.item.id};
    }
    if childMatched {
      state.parentIds := state.parentIds + {node.item.id};
    }
    matched := selfMatched || childMatched;
  }

  method CollectSearchState(data: seq<Tree>, query: string, searcher: Searcher, state: TreeSearchState)
    returns (hasMatch: bool)
    modifies state
    ensures hasMatch == AnyHit(data, searcher.Hit(query))
    ensures state.matchedIds == old(state.matchedIds) + MatchedIds(data, searcher.Hit(query))
    ensures state.includedIds == old(state.includedIds) + IncludedIds(data, searcher.Hit(query))
    ensures state.parentIds == old(state.parentIds) + OpenedIds(data, searcher.Hit(query))
    decreases data
  {
    ghost var hit := searcher.Hit(query);
    hasMatch := false;
    assert data[0..] == data;
    for i := 0 to |data|
      invariant hasMatch || AnyHit(data[i..], hit) <==> AnyHit(data, hit)
      invariant state.matchedIds + MatchedIds(data[i..], hit) == old(state.matchedIds) + MatchedIds(data, hit)
      invariant state.includedIds + IncludedIds(data[i..], hit) == old(state.includedIds) + IncludedIds(data, hit)
      invariant state.parentIds + OpenedIds(data[i..], hit) == old(state.parentIds) + OpenedIds(data, hit)
    {
      SearchStep(data, i, hit);
      Regroup(state.matchedIds, NodeMatched(data[i], hit), MatchedIds(data[i + 1..], hit));
      Regroup(state.includedIds, NodeIncluded(data[i], hit), IncludedIds(data[i + 1..], hit));
      Regroup(state.parentIds, NodeOpened(data[i], hit), OpenedIds(data[i + 1..], hit));
      var matched := VisitNode(data[i], query, searcher, state);
      hasMatch := hasMatch || matched;
    }
  }

  /** The rows one node contributes. */
  function NodeRows(node: Tree, expanded: set<Id>, included: Option<set<Id>>, level: int): seq<Row> {
    if !Includes(included, node.item.id) then []
    else
      [RowOf(node, expanded, included, level)]
      + (if AnyIncluded(node.children, included) && node.item.id in expanded
         then Rows(node.children, expanded, included, level + 1) else [])
  }

  lemma {:induction false} RowsStep(done: seq<Row>, data: seq<Tree>, i: nat, expanded: set<Id>, included: Option<set<Id>>,
                                    level: int)
    requires i < |data|
    ensures done + Rows(data[i..], expanded, included, level)
            == done + NodeRows(data[i], expanded, included, level) + Rows(data[i + 1..], expanded, included, level)
  {
  }

  /** One turn of the loop: the node's own row, then the rows below it when it is open. */
  method FlattenNode(node: Tree, expandedIds: set<Id>, includedIds: Option<set<Id>>, level: int) returns (rows: seq<Row>)
    ensures rows == NodeRows(node, expandedIds, includedIds, level)
    decreases node
  {
    if !Includes(includedIds, node.item.id) {
      return [];
    }
    var hasChildren := AnyIncluded(node.children, includedIds);
    var isExpanded := node.item.id in expandedIds;
    rows := [Row(node.item, level, hasChildren, isExpanded)];
    if hasChildren && isExpanded {
      var below := FlattenTree(node.children, expandedIds, includedIds, level + 1);
      rows := rows + below;
    }
  }

  method FlattenTree(data: seq<Tree>, expandedIds: set<Id>, includedIds: Option<set<Id>>, level: int)
    returns (result: seq<Row>)
    ensures result == Rows(data, expandedIds, includedIds, level)
    decreases data
  {
    result := [];
    assert data[0..] == data;
    for i := 0 to |data|
      invariant result + Rows(data[i..], expandedIds, includedIds, level) == Rows(data, expandedIds, includedIds, level)
    {
      RowsStep(result, data, i, expandedIds, includedIds, level);
      var rows := FlattenNode(data[i], expandedIds, includedIds, level);
      result := result + rows;
    }
  }

  /** The uncontrolled component: None for internalExpandedIds means the user has not
      touched the table and the default still applies. */
  class Table {
    const data: seq<Tree>
    const searcher: Searcher
    const defaultExpandAll: bool
    var internalExpandedIds: Option<set<Id>>
    var searchQuery: string
    var searchCollapsedIds: set<Id>

    constructor (data: seq<Tree>, searcher: Searcher, defaultExpandAll: bool)
      ensures this.data == data && this.searcher == searcher && this.defaultExpandAll == defaultExpandAll
      ensures internalExpandedIds == None && searchQuery == "" && searchCollapsedIds == {}
      ensures !Searching() && Lines(Rows(data, CurrentExpanded(), None, 0)) ==
                              if defaultExpandAll then AllLines(Annotate(data, [])) else RootLines(data)
    {
      this.data, this.searcher, this.defaultExpandAll := data, searcher, defaultExpandAll;
      internalExpandedIds, searchQuery, searchCollapsedIds := None, "", {};
      new;
      FullyExpanded(data, ParentIds(data));
      CollapsedRows(data);
    }

    predicate Searching()
      reads this
    {
      searchQuery != ""
    }

    function CurrentExpanded(): set<Id>
      reads this
    {
      match internalExpandedIds
      case Some(ids) => ids
      case None => if defaultExpandAll then ParentIds(data) else {}
    }

    function ExpandableIds(): set<Id>
      reads this
    {
      if Searching() then OpenedIds(data, searcher.Hit(searchQuery)) else ParentIds(data)
    }

    function ExpandedNow(): set<Id>
      reads this
    {
      if Searching() then OpenedIds(data, searcher.Hit(searchQuery)) - searchCollapsedIds else CurrentExpanded()
    }

    predicate IsAllExpanded()
      reads this
    {
      ExpandableIds() != {} && ExpandableIds() <= ExpandedNow()
    }

    /** The visible list: the reader-level meaning of one rendering. */
    method VisibleList() returns (rows: seq<Row>)
      requires UniqueIds(Preorder(data))
      ensures !Searching() ==> rows == Rows(data, CurrentExpanded(), None, 0)
      ensures !Searching() && IsAllExpanded() ==> Lines(rows) == AllLines(Annotate(data, []))
      ensures Searching() ==>
                Lines(rows) == ShownLines(Annotate(data, []), Annotate(data, []), searcher.Hit(searchQuery), searchCollapsedIds)
      ensures Searching() ==>
                forall line :: line in Lines(rows) <==>
                                 exists e :: e in Annotate(data, []) && line == Line(e.item, |e.ancestors|) &&
                                             FoundBy(searcher, searchQuery, searchCollapsedIds, Annotate(data, []), e)
      ensures forall r :: r in rows ==> (r.isExpanded <==> r.item.id in ExpandedNow())
    {
      if searchQuery == "" {
        rows := FlattenTree(data, CurrentExpanded(), None, 0);
        RowsExpanded(data, CurrentExpanded(), None, 0);
        if IsAllExpanded() {
          FullyExpanded(data, CurrentExpanded());
        }
      } else {
        var state := new TreeSearchState();
        var _ := CollectSearchState(data, searchQuery, searcher, state);
        assert state.parentIds == OpenedIds(data, searcher.Hit(searchQuery));
        assert state.includedIds == IncludedIds(data, searcher.Hit(searchQuery));
        rows := FlattenTree(data, state.parentIds - searchCollapsedIds, Some(state.includedIds), 0);
        SearchShows(data, searcher.Hit(searchQuery), searchCollapsedIds);
        RowsExpanded(data, state.parentIds - searchCollapsedIds, Some(state.includedIds), 0);
        forall line
          ensures line in Lines(rows) <==> exists e :: e in Annotate(data, []) && line == Line(e.item, |e.ancestors|) &&
                                                       FoundBy(searcher, searchQuery, searchCollapsedIds, Annotate(data, []), e)
        {
          LinesAreFound(searcher, searchQuery, searchCollapsedIds, Annotate(data, []), line);
        }
      }
    }

    method HandleToggle(id: Id)
      modifies this`internalExpandedIds, this`searchCollapsedIds
      ensures Searching() ==> internalExpandedIds == old(internalExpandedIds)
      ensures !Searching() ==> searchCollapsedIds == old(searchCollapsedIds)
      ensures Searching() && id in ExpandableIds() ==> (id in ExpandedNow() <==> id !in old(ExpandedNow()))
      ensures !Searching() ==> (id in ExpandedNow() <==> id !in old(ExpandedNow()))
      ensures forall x :: x != id ==> (x in ExpandedNow() <==> x in old(ExpandedNow()))
    {
      if searchQuery != "" {
        searchCollapsedIds := if id in searchCollapsedIds then searchCollapsedIds - {id} else searchCollapsedIds + {id};
        return;
      }
      var expanded := CurrentExpanded();
      internalExpandedIds := Some(if id in expanded then expanded - {id} else expanded + {id});
    }

    /** Expand-all and collapse-all: the button always changes to its opposite. */
    method HandleToggleExpandAll()
      modifies this`internalExpandedIds, this`searchCollapsedIds
      ensures ExpandableIds() != {} ==> IsAllExpanded() == !old(IsAllExpanded())
      ensures ExpandedNow() == if old(IsAllExpanded()) then {} else ExpandableIds()
    {
      var allExpanded := IsAllExpanded();
      if searchQuery != "" {
        searchCollapsedIds := if allExpanded then ExpandableIds() else {};
        return;
      }
      internalExpandedIds := Some(if allExpanded then {} else ParentIds(data));
    }

    /** normalized is the trimmed, lower-cased text of the search box. */
    method HandleSearchChange(normalized: string)
      modifies this`searchQuery, this`searchCollapsedIds
      ensures searchQuery == normalized && searchCollapsedIds == {}
    {
      searchQuery := normalized;
      searchCollapsedIds := {};
    }
  }
}
