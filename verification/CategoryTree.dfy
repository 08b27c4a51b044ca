/** Building the category forest from flat rows. A node reference is the node's id; names are
    compared by their collation rank. Row ids are distinct, as the table's primary key. */
module CategoryTree {
  import opened Totals

  type Id = nat

  /** `parent` is `None` for a missing or empty parent id. */
  datatype Category = Category(id: Id, parent: Option<Id>, sortOrder: int, nameRank: int)

  datatype Tree = Tree(id: Id, children: seq<Tree>)

  /** A node of the map and when it was put there: the map is traversed in that order. */
  datatype Entry = Entry(row: Category, at: nat)

  type Nodes = map<Id, Entry>

  predicate DistinctIds(rows: seq<Category>) {
    forall i, j :: 0 <= i < j < |rows| ==> rows[i].id != rows[j].id
  }

  predicate Indexed(nodes: Nodes, rows: seq<Category>) {
    forall i :: 0 <= i < |rows| ==> rows[i].id in nodes && nodes[rows[i].id] == Entry(rows[i], i)
  }

  /** The rows by id, and nothing else. */
  predicate Indexes(nodes: Nodes, rows: seq<Category>) {
    && Indexed(nodes, rows)
    && forall id :: id in nodes ==> nodes[id].at < |rows| && rows[nodes[id].at].id == id
  }

  /** The map the first loop builds. */
  function NodesOf(rows: seq<Category>): Nodes {
    if rows == [] then map[] else
      var last := rows[|rows| - 1];
      NodesOf(rows[..|rows| - 1])[last.id := Entry(last, |rows| - 1)]
  }

  lemma {:induction false} NodesIndex(rows: seq<Category>)
    requires DistinctIds(rows)
    ensures Indexes(NodesOf(rows), rows)
  {
    if rows != [] {
      NodesIndex(rows[..|rows| - 1]);
      assert rows == rows[..|rows| - 1] + [rows[|rows| - 1]];
    }
  }

  /** The parent a row hangs under: none if it names none or one that is not there. */
  function ParentOf(nodes: Nodes, id: Id): (p: Option<Id>)
    requires id in nodes
    ensures p.Some? ==> p.value in nodes
  {
    var p := nodes[id].row.parent;
    if p.Some? && p.value in nodes then p else None
  }

  /** Among rows with distinct ids, a row hangs under exactly the row whose id it names. */
  lemma ParentIs(rows: seq<Category>, i: nat, p: Id)
    requires DistinctIds(rows) && i < |rows|
    ensures rows[i].id in NodesOf(rows)
    ensures ParentOf(NodesOf(rows), rows[i].id) == Some(p) <==> rows[i].parent == Some(p) && exists j :: 0 <= j < |rows| && rows[j].id == p
  {
    NodesIndex(rows);
    var nodes := NodesOf(rows);
    if p in nodes {
      assert rows[nodes[p].at].id == p;
    }
  }

  /** The ancestor `k` levels up. */
  function Climb(nodes: Nodes, id: Id, k: nat): (a: Option<Id>)
    requires id in nodes
    ensures a.Some? ==> a.value in nodes
  {
    if k == 0 then Some(id) else
      var below := Climb(nodes, id, k - 1);
      if below.None? then None else ParentOf(nodes, below.value)
  }

  /** `id` is exactly `d` levels below a root. */
  predicate DepthIs(nodes: Nodes, id: Id, d: nat)
    requires id in nodes
  {
    Climb(nodes, id, d).Some? && Climb(nodes, id, d + 1).None?
  }

  /** The chain of parents ends. */
  ghost predicate Anchored(nodes: Nodes, id: Id)
    requires id in nodes
  {
    exists k: nat :: Climb(nodes, id, k).None?
  }

  // ---------------------------------------------------------------- what a forest must be

  function Ids(forest: seq<Tree>): (ids: seq<Id>)
    ensures |ids| == |forest| && forall i :: 0 <= i < |ids| ==> ids[i] == forest[i].id
  {
    if forest == [] then [] else [forest[0].id] + Ids(forest[1..])
  }

  /** The comparison that the sort is given. */
  predicate Before(a: Category, b: Category) {
    a.sortOrder < b.sortOrder || (a.sortOrder == b.sortOrder && a.nameRank <= b.nameRank)
  }

  /** By sort order, then by name, and rows that agree in both stay in row order. */
  predicate Sorted(a: Entry, b: Entry) {
    || a.row.sortOrder < b.row.sortOrder
    || (a.row.sortOrder == b.row.sortOrder && a.row.nameRank < b.row.nameRank)
    || (a.row.sortOrder == b.row.sortOrder && a.row.nameRank == b.row.nameRank && a.at < b.at)
  }

  predicate Ordered(nodes: Nodes, ids: seq<Id>) {
    && (forall i :: 0 <= i < |ids| ==> ids[i] in nodes)
    && forall i, j :: 0 <= i < j < |ids| ==> Sorted(nodes[ids[i]], nodes[ids[j]])
  }

  predicate InRowOrder(nodes: Nodes, ids: seq<Id>) {
    && (forall i :: 0 <= i < |ids| ==> ids[i] in nodes)
    && forall i, j :: 0 <= i < j < |ids| ==> nodes[ids[i]].at < nodes[ids[j]].at
  }

  /** `ids` lists every row with parent `p` once, and nothing else. */
  ghost predicate Lists(nodes: Nodes, ids: seq<Id>, p: Option<Id>) {
    Distinct(ids) && forall id :: id in ids <==> id in nodes && ParentOf(nodes, id) == p
  }

  /** At every level: all children of their parent, once each, sorted stably. */
  ghost predicate Grown(nodes: Nodes, forest: seq<Tree>, p: Option<Id>)
    decreases forest
  {
    && Lists(nodes, Ids(forest), p)
    && Ordered(nodes, Ids(forest))
    && forall i :: 0 <= i < |forest| ==> Grown(nodes, forest[i].children, Some(forest[i].id))
  }

  // ---------------------------------------------------------------- sorting siblings

  /** Puts a row before the first that it may precede; the others come later among the rows. */
  function Insert(nodes: Nodes, id: Id, ids: seq<Id>): (s: seq<Id>)
    requires id in nodes && Ordered(nodes, ids) && Distinct(ids)
    requires forall i :: 0 <= i < |ids| ==> nodes[id].at < nodes[ids[i]].at
    ensures Ordered(nodes, s) && Distinct(s) && forall x :: x in s <==> x == id || x in ids
  {
    if ids == [] then [id]
    else if Before(nodes[id].row, nodes[ids[0]].row) then [id] + ids
    else
      assert forall x :: x in ids <==> x == ids[0] || x in ids[1..];
      var rest := Insert(nodes, id, ids[1..]);
      assert forall i :: 0 <= i < |rest| ==> rest[i] in rest;
      [ids[0]] + rest
  }

  function SortIds(nodes: Nodes, ids: seq<Id>): (s: seq<Id>)
    requires InRowOrder(nodes, ids)
    ensures Ordered(nodes, s) && Distinct(s) && forall x :: x in s <==> x in ids
  {
    if ids == [] then [] else
      assert forall x :: x in ids <==> x == ids[0] || x in ids[1..];
      var rest := SortIds(nodes, ids[1..]);
      assert forall i :: 0 <= i < |rest| ==> rest[i] in rest && rest[i] in ids[1..];
      Insert(nodes, ids[0], rest)
  }

  // ---------------------------------------------------------------- the builder

  /** The rows with parent `p`, in row order. */
  function Kids(nodes: Nodes, rows: seq<Category>, p: Option<Id>): seq<Id>
    requires forall i :: 0 <= i < |rows| ==> rows[i].id in nodes
  {
    if rows == [] then [] else
      var last := rows[|rows| - 1].id;
      Kids(nodes, rows[..|rows| - 1], p) + (if ParentOf(nodes, last) == p then [last] else [])
  }

  lemma {:induction false} KidsSound(nodes: Nodes, rows: seq<Category>, p: Option<Id>)
    requires Indexed(nodes, rows)
    ensures InRowOrder(nodes, Kids(nodes, rows, p))
    ensures forall x :: x in Kids(nodes, rows, p) ==> x in nodes && ParentOf(nodes, x) == p && nodes[x].at < |rows|
  {
    if rows != [] {
      var front, last := rows[..|rows| - 1], rows[|rows| - 1].id;
      KidsSound(nodes, front, p);
      var kids := Kids(nodes, front, p);
      assert forall i :: 0 <= i < |kids| ==> kids[i] in kids;
    }
  }

  lemma {:induction false} KidsComplete(nodes: Nodes, rows: seq<Category>, p: Option<Id>, i: nat)
    requires forall i :: 0 <= i < |rows| ==> rows[i].id in nodes
    requires i < |rows| && ParentOf(nodes, rows[i].id) == p
    ensures rows[i].id in Kids(nodes, rows, p)
    decreases |rows|
  {
    if i < |rows| - 1 {
      KidsComplete(nodes, rows[..|rows| - 1], p, i);
    }
  }

  lemma KidsList(nodes: Nodes, rows: seq<Category>, p: Option<Id>)
    requires Indexes(nodes, rows)
    ensures Lists(nodes, Kids(nodes, rows, p), p) && InRowOrder(nodes, Kids(nodes, rows, p))
  {
    KidsSound(nodes, rows, p);
    forall id | id in nodes && ParentOf(nodes, id) == p ensures id in Kids(nodes, rows, p) {
      KidsComplete(nodes, rows, p, nodes[id].at);
    }
  }

  /** First loop: a node without children for every row. */
  method IndexRows(rows: seq<Category>) returns (nodes: Nodes, children: map<Id, seq<Id>>)
    ensures nodes == NodesOf(rows) && children.Keys == nodes.Keys
    ensures forall id :: id in children ==> children[id] == []
  {
    nodes, children := map[], map[];
    for i := 0 to |rows|
      invariant nodes == NodesOf(rows[..i]) && children.Keys == nodes.Keys
      invariant forall id :: id in children ==> children[id] == []
    {
      var c := rows[i];
      nodes := nodes[c.id := Entry(c, i)];
      children := children[c.id := []];
      assert rows[..i + 1][..i] == rows[..i];
    }
    assert rows[..|rows|] == rows;
  }

  lemma KidsNext(nodes: Nodes, rows: seq<Category>, i: nat, p: Option<Id>)
    requires i < |rows| && forall k :: 0 <= k < |rows| ==> rows[k].id in nodes
    ensures Kids(nodes, rows[..i + 1], p) ==
      Kids(nodes, rows[..i], p) + (if ParentOf(nodes, rows[i].id) == p then [rows[i].id] else [])
  {
    assert rows[..i + 1][..i] == rows[..i];
  }

  /** Second loop: every node joins its parent's children or the roots. */
  method LinkRows(rows: seq<Category>, nodes: Nodes, start: map<Id, seq<Id>>)
    returns (children: map<Id, seq<Id>>, roots: seq<Id>)
    requires Indexed(nodes, rows) && start.Keys == nodes.Keys && forall id :: id in start ==> start[id] == []
    ensures children.Keys == nodes.Keys && roots == Kids(nodes, rows, None)
    ensures forall id :: id in children ==> children[id] == Kids(nodes, rows, Some(id))
  {
    children, roots := start, [];
    for i := 0 to |rows|
      invariant children.Keys == nodes.Keys
      invariant roots == Kids(nodes, rows[..i], None)
      invariant forall id :: id in children ==> children[id] == Kids(nodes, rows[..i], Some(id))
    {
      var node := rows[i];
      forall p ensures Kids(nodes, rows[..i + 1], p) ==
        Kids(nodes, rows[..i], p) + (if ParentOf(nodes, node.id) == p then [node.id] else []) {
        KidsNext(nodes, rows, i, p);
      }
      if node.parent.Some? && node.parent.value in nodes {
        var p := node.parent.value;
        children := children[p := children[p] + [node.id]];
      } else {
        roots := roots + [node.id];
      }
    }
    assert rows[..|rows|] == rows;
  }

  method BuildCategoryTree(rows: seq<Category>) returns (forest: seq<Tree>)
    requires DistinctIds(rows)
    ensures Grown(NodesOf(rows), forest, None)
    ensures forall id :: Count(forest, id) == if id in NodesOf(rows) && Anchored(NodesOf(rows), id) then 1 else 0
  {
    var nodes, empty := IndexRows(rows);
    NodesIndex(rows);
    var children, roots := LinkRows(rows, nodes, empty);
    forall p ensures Lists(nodes, Kids(nodes, rows, p), p) && InRowOrder(nodes, Kids(nodes, rows, p)) {
      KidsList(nodes, rows, p);
    }
    forest := SortRec(nodes, children, roots, {}, None);
    forall id ensures Count(forest, id) == if id in nodes && Anchored(nodes, id) then 1 else 0 {
      EveryAnchoredRowOnce(nodes, forest, id);
    }
  }

  /** `p` heads a path of `path` ids, all less than `|path|` levels deep. */
  ghost predicate OnPath(nodes: Nodes, path: set<Id>, p: Option<Id>) {
    && path <= nodes.Keys
    && (forall a :: a in path ==> exists k: nat :: k < |path| && DepthIs(nodes, a, k))
    && (if p.None? then path == {} else path != {} && p.value in path && DepthIs(nodes, p.value, |path| - 1))
  }

  lemma {:induction false} ClimbTwice(nodes: Nodes, id: Id, j: nat, k: nat)
    requires id in nodes && Climb(nodes, id, j).Some?
    ensures Climb(nodes, id, j + k) == Climb(nodes, Climb(nodes, id, j).value, k)
    decreases k
  {
    if k > 0 {
      ClimbTwice(nodes, id, j, k - 1);
    }
  }

  lemma {:induction false} ClimbStaysUp(nodes: Nodes, id: Id, j: nat, k: nat)
    requires id in nodes && Climb(nodes, id, j).None? && j <= k
    ensures Climb(nodes, id, k).None?
    decreases k
  {
    if j < k {
      ClimbStaysUp(nodes, id, j, k - 1);
    }
  }

  lemma DepthUnique(nodes: Nodes, id: Id, d: nat, e: nat)
    requires id in nodes && DepthIs(nodes, id, d) && DepthIs(nodes, id, e)
    ensures d == e
  {
    if d < e {
      ClimbStaysUp(nodes, id, d + 1, e);
    } else if e < d {
      ClimbStaysUp(nodes, id, e + 1, d);
    }
  }

  /** A child sits one level below its parent. */
  lemma ChildDepth(nodes: Nodes, id: Id, d: nat)
    requires id in nodes
    ensures ParentOf(nodes, id) == None ==> DepthIs(nodes, id, 0)
    ensures ParentOf(nodes, id).Some? ==> (DepthIs(nodes, id, d + 1) <==> DepthIs(nodes, ParentOf(nodes, id).value, d))
  {
    assert Climb(nodes, id, 0) == Some(id);
    assert Climb(nodes, id, 1) == ParentOf(nodes, id);
    if ParentOf(nodes, id).Some? {
      ClimbTwice(nodes, id, 1, d);
      ClimbTwice(nodes, id, 1, d + 1);
    }
  }

  /** The next level of the recursion is off the path, so the path grows. */
  lemma PathGrows(nodes: Nodes, path: set<Id>, p: Option<Id>, id: Id)
    requires OnPath(nodes, path, p) && id in nodes && ParentOf(nodes, id) == p
    ensures id !in path && OnPath(nodes, path + {id}, Some(id)) && |path + {id}| == |path| + 1 <= |nodes|
  {
    var d := |path|;
    ChildDepth(nodes, id, if d > 0 then d - 1 else 0);
    assert DepthIs(nodes, id, d);
    if id in path {
      var k: nat :| k < d && DepthIs(nodes, id, k);
      DepthUnique(nodes, id, k, d);
      assert false;
    }
    SubsetSize(path + {id}, nodes.Keys);
  }

  lemma {:induction false} SubsetSize(a: set<Id>, b: set<Id>)
    requires a <= b
    ensures |a| <= |b|
    decreases a
  {
    if x :| x in a {
      SubsetSize(a - {x}, b - {x});
    }
  }

  /** Every node's child list is complete and in row order. */
  ghost predicate Linked(nodes: Nodes, children: map<Id, seq<Id>>) {
    && children.Keys == nodes.Keys
    && forall id :: id in children ==> Lists(nodes, children[id], Some(id)) && InRowOrder(nodes, children[id])
  }

  method SortSiblings(nodes: Nodes, list: seq<Id>, ghost p: Option<Id>) returns (sorted: seq<Id>)
    requires Lists(nodes, list, p) && InRowOrder(nodes, list)
    ensures Lists(nodes, sorted, p) && Ordered(nodes, sorted)
    ensures forall i :: 0 <= i < |sorted| ==> ParentOf(nodes, sorted[i]) == p
  {
    sorted := SortIds(nodes, list);
    forall i | 0 <= i < |sorted| ensures ParentOf(nodes, sorted[i]) == p {
      assert sorted[i] in list;
    }
  }

  /** Sorts a list of siblings and then, recursively, their children. */
  method SortRec(nodes: Nodes, children: map<Id, seq<Id>>, list: seq<Id>, ghost path: set<Id>, ghost p: Option<Id>)
    returns (forest: seq<Tree>)
    requires Lists(nodes, list, p) && InRowOrder(nodes, list) && OnPath(nodes, path, p) && Linked(nodes, children)
    ensures Grown(nodes, forest, p)
    decreases |nodes| - |path|, 1, 0
  {
    var sorted := SortSiblings(nodes, list, p);
    forest := SortEach(nodes, children, sorted, path, p);
    GrownFrom(nodes, forest, sorted, p);
  }

  method SortEach(nodes: Nodes, children: map<Id, seq<Id>>, ids: seq<Id>, ghost path: set<Id>, ghost p: Option<Id>)
    returns (forest: seq<Tree>)
    requires OnPath(nodes, path, p) && Linked(nodes, children)
    requires forall i :: 0 <= i < |ids| ==> ids[i] in nodes && ParentOf(nodes, ids[i]) == p
    ensures GrownTrees(nodes, forest, ids)
    decreases |nodes| - |path|, 0, 1
  {
    forest := [];
    for i := 0 to |ids|
      invariant GrownTrees(nodes, forest, ids[..i])
    {
      var t := SortNode(nodes, children, ids[i], path, p);
      GrownTreesAppend(nodes, forest, ids, i, t);
      forest := forest + [t];
    }
    assert ids[..|ids|] == ids;
  }

  ghost predicate GrownTrees(nodes: Nodes, forest: seq<Tree>, ids: seq<Id>) {
    |forest| == |ids| && forall k :: 0 <= k < |ids| ==> GrownTree(nodes, forest[k], ids[k])
  }

  lemma GrownTreesAppend(nodes: Nodes, forest: seq<Tree>, ids: seq<Id>, i: nat, t: Tree)
    requires i < |ids| && GrownTrees(nodes, forest, ids[..i]) && GrownTree(nodes, t, ids[i])
    ensures GrownTrees(nodes, forest + [t], ids[..i + 1])
  {
  }

  lemma GrownFrom(nodes: Nodes, forest: seq<Tree>, ids: seq<Id>, p: Option<Id>)
    requires Lists(nodes, ids, p) && Ordered(nodes, ids) && GrownTrees(nodes, forest, ids)
    ensures Grown(nodes, forest, p)
  {
    assert Ids(forest) == ids;
  }

  ghost predicate GrownTree(nodes: Nodes, t: Tree, id: Id) {
    t.id == id && Grown(nodes, t.children, Some(id))
  }

  method SortNode(nodes: Nodes, children: map<Id, seq<Id>>, id: Id, ghost path: set<Id>, ghost p: Option<Id>)
    returns (t: Tree)
    requires OnPath(nodes, path, p) && Linked(nodes, children) && id in nodes && ParentOf(nodes, id) == p
    ensures GrownTree(nodes, t, id)
    decreases |nodes| - |path|, 0, 0
  {
    PathGrows(nodes, path, p, id);
    ghost var longer := path + {id};
    assert Lists(nodes, children[id], Some(id));
    var kids := SortRec(nodes, children, children[id], longer, Some(id));
    return Tree(id, kids);
  }

  // ---------------------------------------------------------------- what such a forest holds

  function Count(forest: seq<Tree>, id: Id): nat
    decreases forest
  {
    if forest == [] then 0 else
      (if forest[0].id == id then 1 else 0) + Count(forest[0].children, id) + Count(forest[1..], id)
  }

  /** The ancestor (or self) of `id` that is `d` levels below a root. */
  ghost function AncestorAt(nodes: Nodes, id: Id, d: nat): Option<Id> {
    if id in nodes && exists e: nat :: DepthIs(nodes, id, e) && d <= e then
      var e: nat :| DepthIs(nodes, id, e) && d <= e;
      Climb(nodes, id, e - d)
    else None
  }

  lemma AncestorIs(nodes: Nodes, id: Id, d: nat, e: nat)
    requires id in nodes && DepthIs(nodes, id, e)
    ensures AncestorAt(nodes, id, d) == if d <= e then Climb(nodes, id, e - d) else None
  {
    forall f: nat | DepthIs(nodes, id, f) ensures f == e {
      DepthUnique(nodes, id, e, f);
    }
  }

  /** Going one level down: the next ancestor is a child of this one, unless `id` is here. */
  lemma AncestorNext(nodes: Nodes, id: Id, d: nat)
    ensures var here, below := AncestorAt(nodes, id, d), AncestorAt(nodes, id, d + 1);
      && (below.Some? ==> below.value in nodes && ParentOf(nodes, below.value) == here != None)
      && (below.None? ==> here == None || here == Some(id))
    ensures id in nodes && DepthIs(nodes, id, d) ==> AncestorAt(nodes, id, d) == Some(id) && AncestorAt(nodes, id, d + 1) == None
  {
    if id in nodes && exists e: nat :: DepthIs(nodes, id, e) {
      var e: nat :| DepthIs(nodes, id, e);
      AncestorIs(nodes, id, d, e);
      AncestorIs(nodes, id, d + 1, e);
      if d <= e && Climb(nodes, id, e - d).None? {
        ClimbStaysUp(nodes, id, e - d, e);
      }
      if id in nodes && DepthIs(nodes, id, d) {
        DepthUnique(nodes, id, d, e);
      }
    }
  }

  /** Distinct trees that start `d` levels down. */
  ghost predicate Level(nodes: Nodes, forest: seq<Tree>, d: nat) {
    && Distinct(Ids(forest))
    && forall i :: 0 <= i < |forest| ==>
      forest[i].id in nodes && DepthIs(nodes, forest[i].id, d) && Grown(nodes, forest[i].children, Some(forest[i].id))
  }

  lemma ChildrenLevel(nodes: Nodes, t: Tree, d: nat)
    requires t.id in nodes && DepthIs(nodes, t.id, d) && Grown(nodes, t.children, Some(t.id))
    ensures Level(nodes, t.children, d + 1)
  {
    var ids := Ids(t.children);
    forall i | 0 <= i < |t.children| ensures t.children[i].id in nodes && DepthIs(nodes, t.children[i].id, d + 1) {
      assert ids[i] in ids;
      ChildDepth(nodes, ids[i], d);
    }
  }

  lemma LevelTail(nodes: Nodes, forest: seq<Tree>, d: nat)
    requires Level(nodes, forest, d) && forest != []
    ensures Level(nodes, forest[1..], d) && Ids(forest) == [forest[0].id] + Ids(forest[1..])
    ensures forest[0].id !in Ids(forest[1..])
  {
    DistinctTail(Ids(forest));
    var rest := forest[1..];
    forall i | 0 <= i < |rest|
      ensures rest[i].id in nodes && DepthIs(nodes, rest[i].id, d) && Grown(nodes, rest[i].children, Some(rest[i].id))
    {
      assert rest[i] == forest[i + 1];
    }
  }

  lemma DistinctTail(ids: seq<Id>)
    requires Distinct(ids) && ids != []
    ensures Distinct(ids[1..]) && ids[0] !in ids[1..]
  {
  }

  /** Trees of one level hold `id` once if its ancestor at that level is among them. */
  lemma {:induction false} CountLevel(nodes: Nodes, forest: seq<Tree>, d: nat, id: Id)
    requires Level(nodes, forest, d)
    ensures Count(forest, id) ==
      if AncestorAt(nodes, id, d).Some? && AncestorAt(nodes, id, d).value in Ids(forest) then 1 else 0
    decreases forest
  {
    if forest != [] {
      var t, rest := forest[0], forest[1..];
      LevelTail(nodes, forest, d);
      ChildrenLevel(nodes, t, d);
      CountLevel(nodes, t.children, d + 1, id);
      CountLevel(nodes, rest, d, id);
      CountTop(nodes, t, d, id);
    }
  }

  /** One tree, given the count among its children. */
  lemma CountTop(nodes: Nodes, t: Tree, d: nat, id: Id)
    requires t.id in nodes && DepthIs(nodes, t.id, d) && Lists(nodes, Ids(t.children), Some(t.id))
    ensures var below := AncestorAt(nodes, id, d + 1);
      (if t.id == id then 1 else 0) + (if below.Some? && below.value in Ids(t.children) then 1 else 0)
      == if AncestorAt(nodes, id, d) == Some(t.id) then 1 else 0
  {
    AncestorNext(nodes, id, d);
  }

  lemma {:induction false} DepthExists(nodes: Nodes, id: Id, k: nat) returns (d: nat)
    requires id in nodes && Climb(nodes, id, k).None?
    ensures DepthIs(nodes, id, d)
  {
    if Climb(nodes, id, k - 1).None? {
      d := DepthExists(nodes, id, k - 1);
    } else {
      d := k - 1;
    }
  }

  /** Who has an ancestor at the top. */
  lemma RootAncestor(nodes: Nodes, id: Id)
    ensures var a := AncestorAt(nodes, id, 0);
      && (a.Some? <==> id in nodes && Anchored(nodes, id))
      && (a.Some? ==> a.value in nodes && ParentOf(nodes, a.value) == None)
  {
    if id in nodes && Anchored(nodes, id) {
      var k: nat :| Climb(nodes, id, k).None?;
      var e := DepthExists(nodes, id, k);
      AncestorIs(nodes, id, 0, e);
    }
  }

  lemma RootsLevel(nodes: Nodes, forest: seq<Tree>)
    requires Grown(nodes, forest, None)
    ensures Level(nodes, forest, 0)
  {
    var ids := Ids(forest);
    forall i | 0 <= i < |forest| ensures forest[i].id in nodes && DepthIs(nodes, forest[i].id, 0) {
      assert ids[i] in ids;
      ChildDepth(nodes, ids[i], 0);
    }
  }

  /** A row appears exactly once if its chain of parents ends, and otherwise not at all. */
  lemma EveryAnchoredRowOnce(nodes: Nodes, forest: seq<Tree>, id: Id)
    requires Grown(nodes, forest, None)
    ensures Count(forest, id) == if id in nodes && Anchored(nodes, id) then 1 else 0
  {
    RootsLevel(nodes, forest);
    CountLevel(nodes, forest, 0, id);
    RootAncestor(nodes, id);
    assert Lists(nodes, Ids(forest), None);
  }

  // ---------------------------------------------------------------- cycles

  /** The chain from `id` comes back to where it was. */
  predicate Returns(nodes: Nodes, id: Id, j: nat, k: nat)
    requires id in nodes
  {
    j < k && Climb(nodes, id, j) == Climb(nodes, id, k) != None
  }

  lemma {:induction false} NeverEnds(nodes: Nodes, id: Id, j: nat, k: nat, m: nat)
    requires id in nodes && Returns(nodes, id, j, k)
    ensures Climb(nodes, id, m).Some?
    decreases m
  {
    if m <= k {
      if Climb(nodes, id, m).None? {
        ClimbStaysUp(nodes, id, m, k);
      }
    } else {
      NeverEnds(nodes, id, j, k, m - k + j);
      ClimbTwice(nodes, id, k, m - k);
      ClimbTwice(nodes, id, j, m - k);
    }
  }

  /** The first `n` ids of a chain that is at least that long. */
  ghost function Visited(nodes: Nodes, id: Id, n: nat): (s: set<Id>)
    requires id in nodes
    ensures s <= nodes.Keys
  {
    if n == 0 then {} else
      var last := Climb(nodes, id, n - 1);
      Visited(nodes, id, n - 1) + (if last.Some? then {last.value} else {})
  }

  lemma {:induction false} VisitedWhen(nodes: Nodes, id: Id, n: nat, a: Id) returns (k: nat)
    requires id in nodes && a in Visited(nodes, id, n)
    ensures k < n && Climb(nodes, id, k) == Some(a)
  {
    if Climb(nodes, id, n - 1) == Some(a) {
      k := n - 1;
    } else {
      k := VisitedWhen(nodes, id, n - 1, a);
    }
  }

  /** A chain of `n` different ids, or one that returns earlier. */
  lemma {:induction false} VisitedSize(nodes: Nodes, id: Id, n: nat)
    requires id in nodes && !Anchored(nodes, id)
    ensures |Visited(nodes, id, n)| == n || exists j: nat, k: nat :: Returns(nodes, id, j, k)
  {
    if n > 0 {
      VisitedSize(nodes, id, n - 1);
      var a := Climb(nodes, id, n - 1).value;
      if a in Visited(nodes, id, n - 1) {
        var j := VisitedWhen(nodes, id, n - 1, a);
        assert Returns(nodes, id, j, n - 1);
      }
    }
  }

  /** The chain of parents does not end exactly when it enters a cycle. */
  lemma UnanchoredIsCycle(nodes: Nodes, id: Id)
    requires id in nodes
    ensures !Anchored(nodes, id) <==> exists j: nat, k: nat :: Returns(nodes, id, j, k)
  {
    if j: nat, k: nat :| Returns(nodes, id, j, k) {
      forall m: nat ensures Climb(nodes, id, m).Some? {
        NeverEnds(nodes, id, j, k, m);
      }
    }
    if !Anchored(nodes, id) {
      var n := |nodes.Keys| + 1;
      VisitedSize(nodes, id, n);
      SubsetSize(Visited(nodes, id, n), nodes.Keys);
    }
  }
}
