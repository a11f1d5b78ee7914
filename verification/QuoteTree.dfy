/**
 * The tree of a quotation rebuilt from its flat rows (`itemsToTree` and `flattenTree` of
 * stp-landing/lib/quote-tree.ts). A row whose parent is not among the rows hangs from the root.
 */
module QuoteTree {
  import opened Wrappers
  import opened CorrelativeCodes

  // ---------------------------------------------------------------- rows

  type Id = nat

  datatype Row = Row(id: Id, parent: Option<Id>, sortOrder: Option<int>)

  datatype Key = Root | Under(id: Id)

  datatype Node = Node(row: Row, number: seq<nat>, depth: nat, children: seq<Node>)

  predicate Has(items: seq<Row>, id: Id) {
    exists i :: 0 <= i < |items| && items[i].id == id
  }

  /** Ids are the primary key of the rows. */
  ghost predicate UniqueIds(items: seq<Row>) {
    forall i, j :: 0 <= i < j < |items| ==> items[i].id != items[j].id
  }

  function KeyOf(items: seq<Row>, row: Row): Key {
    if row.parent.Some? && Has(items, row.parent.value) then Under(row.parent.value) else Root
  }

  function Order(row: Row): int {
    if row.sortOrder.Some? then row.sortOrder.value else 0
  }

  // ---------------------------------------------------------------- children, in order

  /** The rows of one bucket of `childrenOf`. */
  function Bucket(rows: seq<Row>, items: seq<Row>, key: Key): seq<Row> {
    if rows == [] then []
    else
      var before := Bucket(rows[..|rows| - 1], items, key);
      var last := rows[|rows| - 1];
      if KeyOf(items, last) == key then before + [last] else before
  }

  lemma {:induction false} BucketMembers(rows: seq<Row>, items: seq<Row>, key: Key)
    ensures forall row :: row in Bucket(rows, items, key) <==> row in rows && KeyOf(items, row) == key
  {
    if rows != [] {
      var n := |rows| - 1;
      BucketMembers(rows[..n], items, key);
      assert rows == rows[..n] + [rows[n]];
    }
  }

  lemma {:induction false} BucketDistinct(rows: seq<Row>, items: seq<Row>, key: Key)
    requires UniqueIds(rows)
    ensures UniqueIds(Bucket(rows, items, key))
  {
    if rows != [] {
      var n := |rows| - 1;
      BucketDistinct(rows[..n], items, key);
      BucketMembers(rows[..n], items, key);
      var before := Bucket(rows[..n], items, key);
      forall i | 0 <= i < |before|
        ensures before[i].id != rows[n].id
      {
        assert before[i] in rows[..n];
      }
    }
  }

  /** The loop that fills the map. */
  method FillChildrenOf(items: seq<Row>) returns (childrenOf: map<Key, seq<Row>>)
    ensures forall key :: (if key in childrenOf then childrenOf[key] else []) == Bucket(items, items, key)
  {
    childrenOf := map[];
    for i := 0 to |items|
      invariant forall key :: (if key in childrenOf then childrenOf[key] else []) == Bucket(items[..i], items, key)
    {
      assert items[..i + 1][..i] == items[..i];
      var key := KeyOf(items, items[i]);
      var list := if key in childrenOf then childrenOf[key] else [];
      childrenOf := childrenOf[key := list + [items[i]]];
    }
    assert items[..|items|] == items;
  }

  /** Stable: a row goes after every row of the same order. */
  function InsertRow(row: Row, sorted: seq<Row>): seq<Row> {
    if sorted == [] || Order(sorted[|sorted| - 1]) <= Order(row) then sorted + [row]
    else InsertRow(row, sorted[..|sorted| - 1]) + [sorted[|sorted| - 1]]
  }

  function SortRows(rows: seq<Row>): seq<Row> {
    if rows == [] then [] else InsertRow(rows[|rows| - 1], SortRows(rows[..|rows| - 1]))
  }

  ghost predicate InOrder(rows: seq<Row>) {
    forall i, j :: 0 <= i < j < |rows| ==> Order(rows[i]) <= Order(rows[j])
  }

  lemma {:induction false} InsertKeepsRows(row: Row, sorted: seq<Row>)
    ensures multiset(InsertRow(row, sorted)) == multiset(sorted) + multiset{row}
  {
    if sorted != [] && Order(sorted[|sorted| - 1]) > Order(row) {
      var n := |sorted| - 1;
      InsertKeepsRows(row, sorted[..n]);
      assert sorted == sorted[..n] + [sorted[n]];
    }
  }

  lemma AddLast(rows: seq<Row>, last: Row)
    requires InOrder(rows) && forall r :: r in rows ==> Order(r) <= Order(last)
    ensures InOrder(rows + [last])
  {
  }

  lemma {:induction false} InsertKeepsOrder(row: Row, sorted: seq<Row>)
    requires InOrder(sorted)
    ensures InOrder(InsertRow(row, sorted))
    ensures forall r :: r in InsertRow(row, sorted) ==> r == row || r in sorted
  {
    if sorted != [] && Order(sorted[|sorted| - 1]) > Order(row) {
      var n := |sorted| - 1;
      InsertKeepsOrder(row, sorted[..n]);
      AddLast(InsertRow(row, sorted[..n]), sorted[n]);
    }
  }

  lemma {:induction false} SortKeepsRows(rows: seq<Row>)
    ensures multiset(SortRows(rows)) == multiset(rows)
  {
    if rows != [] {
      var n := |rows| - 1;
      SortKeepsRows(rows[..n]);
      InsertKeepsRows(rows[n], SortRows(rows[..n]));
      assert rows == rows[..n] + [rows[n]];
    }
  }

  lemma {:induction false} SortSorts(rows: seq<Row>)
    ensures InOrder(SortRows(rows))
  {
    if rows != [] {
      var n := |rows| - 1;
      SortSorts(rows[..n]);
      InsertKeepsOrder(rows[n], SortRows(rows[..n]));
    }
  }

  function Children(items: seq<Row>, key: Key): seq<Row> {
    SortRows(Bucket(items, items, key))
  }

  /** The rows of a key, each once, by `sortOrder`. */
  lemma ChildrenMembers(items: seq<Row>, key: Key)
    requires UniqueIds(items)
    ensures forall row :: row in Children(items, key) <==> row in items && KeyOf(items, row) == key
    ensures UniqueIds(Children(items, key)) && InOrder(Children(items, key))
  {
    var bucket, children := Bucket(items, items, key), Children(items, key);
    BucketMembers(items, items, key);
    BucketDistinct(items, items, key);
    SortKeepsRows(bucket);
    SortSorts(bucket);
    forall row
      ensures row in children <==> row in bucket
    {
      assert row in children <==> row in multiset(children);
      assert row in bucket <==> row in multiset(bucket);
    }
    SameRowsSameIds(bucket, children);
  }

  /** What that says of each row: its parent is the row above, or is not among the rows and it hangs from the root. */
  lemma ChildrenByParent(items: seq<Row>, p: Id)
    requires UniqueIds(items)
    ensures Has(items, p) ==>
      forall row :: row in Children(items, Under(p)) <==> row in items && row.parent == Some(p)
    ensures forall row :: row in Children(items, Root) <==>
      row in items && (row.parent == None || !Has(items, row.parent.value))
  {
    ChildrenMembers(items, Under(p));
    ChildrenMembers(items, Root);
  }

  /** The rows of one sort order, in the order they come. */
  function WithOrder(rows: seq<Row>, v: int): seq<Row> {
    if rows == [] then []
    else
      WithOrder(rows[..|rows| - 1], v) + if Order(rows[|rows| - 1]) == v then [rows[|rows| - 1]] else []
  }

  lemma WithOrderLast(rows: seq<Row>, last: Row, v: int)
    ensures WithOrder(rows + [last], v) == WithOrder(rows, v) + if Order(last) == v then [last] else []
  {
    assert (rows + [last])[..|rows|] == rows;
  }

  lemma {:induction false} InsertIsStable(row: Row, sorted: seq<Row>, v: int)
    requires InOrder(sorted)
    ensures WithOrder(InsertRow(row, sorted), v) == WithOrder(sorted, v) + if Order(row) == v then [row] else []
  {
    if sorted == [] || Order(sorted[|sorted| - 1]) <= Order(row) {
      WithOrderLast(sorted, row, v);
    } else {
      var n := |sorted| - 1;
      InsertIsStable(row, sorted[..n], v);
      WithOrderLast(InsertRow(row, sorted[..n]), sorted[n], v);
    }
  }

  lemma {:induction false} SortIsStable(rows: seq<Row>, v: int)
    ensures WithOrder(SortRows(rows), v) == WithOrder(rows, v)
  {
    if rows != [] {
      var n := |rows| - 1;
      SortIsStable(rows[..n], v);
      SortSorts(rows[..n]);
      InsertIsStable(rows[n], SortRows(rows[..n]), v);
    }
  }

  /**
   * The rows of a key come by ascending sort order, none counting as zero, and those of one order as they came in the
   * list.
   */
  lemma ChildrenBySortOrder(items: seq<Row>, key: Key, v: int)
    requires UniqueIds(items)
    ensures var rows := Children(items, key);
      forall i, j :: 0 <= i < j < |rows| ==>
        (if rows[i].sortOrder == None then 0 else rows[i].sortOrder.value)
        <= (if rows[j].sortOrder == None then 0 else rows[j].sortOrder.value)
    ensures WithOrder(Children(items, key), v) == WithOrder(Bucket(items, items, key), v)
  {
    ChildrenMembers(items, key);
    SortIsStable(Bucket(items, items, key), v);
  }

  lemma {:induction false} CountOfDistinct(rows: seq<Row>, row: Row)
    requires UniqueIds(rows)
    ensures multiset(rows)[row] == if row in rows then 1 else 0
  {
    if rows != [] {
      var n := |rows| - 1;
      assert rows == rows[..n] + [rows[n]];
      CountOfDistinct(rows[..n], row);
    }
  }

  lemma {:induction false} DistinctCounts(rows: seq<Row>)
    requires forall row :: multiset(rows)[row] <= 1
    requires forall p, q :: p in rows && q in rows && p.id == q.id ==> p == q
    ensures UniqueIds(rows)
  {
    if rows != [] {
      var n := |rows| - 1;
      assert rows == rows[..n] + [rows[n]];
      forall row
        ensures multiset(rows[..n])[row] <= 1
      {
        assert multiset(rows)[row] == multiset(rows[..n])[row] + (if row == rows[n] then 1 else 0);
      }
      DistinctCounts(rows[..n]);
      assert multiset(rows)[rows[n]] == multiset(rows[..n])[rows[n]] + 1;
      forall i | 0 <= i < n
        ensures rows[i].id != rows[n].id
      {
        assert rows[i] in rows[..n];
        assert rows[i] in multiset(rows[..n]);
      }
    }
  }

  lemma SameRowsSameIds(rows: seq<Row>, other: seq<Row>)
    requires UniqueIds(rows) && multiset(other) == multiset(rows)
    ensures UniqueIds(other)
  {
    forall row
      ensures multiset(other)[row] <= 1
    {
      CountOfDistinct(rows, row);
    }
    forall p, q | p in other && q in other && p.id == q.id
      ensures p == q
    {
      assert p in multiset(rows) && q in multiset(rows);
    }
    DistinctCounts(other);
  }

  // ---------------------------------------------------------------- chains of parents

  ghost predicate IsChild(items: seq<Row>, id: Id, key: Key) {
    exists i :: 0 <= i < |items| && items[i].id == id && KeyOf(items, items[i]) == key
  }

  /** The id at position `i` is a child of the one before it, or of the root if it is the first. */
  ghost predicate Link(items: seq<Row>, path: seq<Id>, i: nat) {
    i < |path| && IsChild(items, path[i], KeyAt(path[..i]))
  }

  /** From the root down, each the parent of the next. */
  ghost predicate Chain(items: seq<Row>, path: seq<Id>) {
    forall i: nat :: i < |path| ==> Link(items, path, i)
  }

  function KeyAt(path: seq<Id>): Key {
    if path == [] then Root else Under(path[|path| - 1])
  }

  lemma ChainPrefix(items: seq<Row>, path: seq<Id>, n: nat)
    requires Chain(items, path) && n <= |path|
    ensures Chain(items, path[..n])
  {
    forall i: nat | i < n
      ensures Link(items, path[..n], i)
    {
      assert Link(items, path, i);
      assert path[..n][..i] == path[..i];
    }
  }

  lemma UniqueIndex(rows: seq<Row>, j: nat, k: nat)
    requires UniqueIds(rows) && j < |rows| && k < |rows| && rows[j].id == rows[k].id
    ensures j == k
  {
  }

  lemma OneParent(items: seq<Row>, id: Id, a: Key, b: Key)
    requires UniqueIds(items) && IsChild(items, id, a) && IsChild(items, id, b)
    ensures a == b
  {
    var i :| 0 <= i < |items| && items[i].id == id && KeyOf(items, items[i]) == a;
    var j :| 0 <= j < |items| && items[j].id == id && KeyOf(items, items[j]) == b;
    UniqueIndex(items, i, j);
  }

  lemma ChainGrows(items: seq<Row>, path: seq<Id>, id: Id)
    requires Chain(items, path) && IsChild(items, id, KeyAt(path))
    ensures Chain(items, path + [id])
  {
    var longer := path + [id];
    forall i: nat | i < |longer|
      ensures Link(items, longer, i)
    {
      if i < |path| {
        assert Link(items, path, i);
        assert longer[..i] == path[..i];
      } else {
        assert longer[..i] == path;
      }
    }
  }

  /** A row is reached from the root in one way at most. */
  lemma {:induction false} OneChain(items: seq<Row>, a: seq<Id>, b: seq<Id>)
    requires UniqueIds(items) && Chain(items, a) && Chain(items, b) && a != [] && b != [] && a[|a| - 1] == b[|b| - 1]
    ensures a == b
    decreases |a|
  {
    var m, n := |a| - 1, |b| - 1;
    assert Link(items, a, m) && Link(items, b, n);
    OneParent(items, a[m], KeyAt(a[..m]), KeyAt(b[..n]));
    if m > 0 {
      ChainPrefix(items, a, m);
      ChainPrefix(items, b, n);
      OneChain(items, a[..m], b[..n]);
    }
    assert a == a[..m] + [a[m]] && b == b[..n] + [b[n]];
  }

  /** No id comes twice in a chain, cyclic links or not. */
  lemma ChainDistinct(items: seq<Row>, path: seq<Id>, i: nat, j: nat)
    requires UniqueIds(items) && Chain(items, path) && i < j < |path|
    ensures path[i] != path[j]
  {
    if path[i] == path[j] {
      ChainPrefix(items, path, i + 1);
      ChainPrefix(items, path, j + 1);
      OneChain(items, path[..i + 1], path[..j + 1]);
      assert false;
    }
  }

  function IdsOf(items: seq<Row>): (ids: set<Id>)
    ensures forall id :: id in ids <==> Has(items, id)
  {
    set i | 0 <= i < |items| :: items[i].id
  }

  lemma {:induction false} FewIds(items: seq<Row>)
    ensures |IdsOf(items)| <= |items|
  {
    if items != [] {
      var n := |items| - 1;
      FewIds(items[..n]);
      assert IdsOf(items) == IdsOf(items[..n]) + {items[n].id} by {
        assert forall i :: 0 <= i < n ==> items[..n][i] == items[i];
      }
    }
  }

  lemma {:induction false} DistinctFit(path: seq<Id>, ids: set<Id>)
    requires forall i, j :: 0 <= i < j < |path| ==> path[i] != path[j]
    requires forall i :: 0 <= i < |path| ==> path[i] in ids
    ensures |path| <= |ids|
  {
    if path != [] {
      var n := |path| - 1;
      DistinctFit(path[..n], ids - {path[n]});
    }
  }

  /** So going down always ends: no chain is longer than the list of rows. */
  lemma ChainFits(items: seq<Row>, path: seq<Id>)
    requires UniqueIds(items) && Chain(items, path)
    ensures |path| <= |items|
  {
    forall i, j | 0 <= i < j < |path|
      ensures path[i] != path[j]
    {
      ChainDistinct(items, path, i, j);
    }
    forall i | 0 <= i < |path|
      ensures path[i] in IdsOf(items)
    {
      assert Link(items, path, i);
    }
    DistinctFit(path, IdsOf(items));
    FewIds(items);
  }

  // ---------------------------------------------------------------- the tree

  ghost predicate ChildRows(items: seq<Row>, path: seq<Id>, rows: seq<Row>) {
    forall i :: 0 <= i < |rows| ==> rows[i] in items && KeyOf(items, rows[i]) == KeyAt(path)
  }

  lemma RowExtends(items: seq<Row>, path: seq<Id>, row: Row)
    requires UniqueIds(items) && Chain(items, path) && row in items && KeyOf(items, row) == KeyAt(path)
    ensures Chain(items, path + [row.id]) && |path| < |items|
  {
    var i :| 0 <= i < |items| && items[i] == row;
    assert IsChild(items, row.id, KeyAt(path));
    ChainGrows(items, path, row.id);
    ChainFits(items, path + [row.id]);
  }

  lemma ChildrenAreChildRows(items: seq<Row>, path: seq<Id>)
    requires UniqueIds(items)
    ensures ChildRows(items, path, Children(items, KeyAt(path)))
  {
    ChildrenMembers(items, KeyAt(path));
  }

  /** `build` under the row at the end of `path`; `path` is ghost in the source, where the call stack holds it. */
  ghost function Build(items: seq<Row>, path: seq<Id>, number: seq<nat>): seq<Node>
    requires UniqueIds(items) && Chain(items, path)
    decreases |items| - |path|, 1, 0
  {
    ChildrenAreChildRows(items, path);
    BuildRows(items, path, number, Children(items, KeyAt(path)), 0)
  }

  ghost function BuildRows(items: seq<Row>, path: seq<Id>, number: seq<nat>, rows: seq<Row>, from: nat): seq<Node>
    requires UniqueIds(items) && Chain(items, path) && ChildRows(items, path, rows) && from <= |rows|
    decreases |items| - |path|, 0, |rows| - from
  {
    if from == |rows| then []
    else
      RowExtends(items, path, rows[from]);
      var own := number + [from + 1];
      [Node(rows[from], own, |path|, Build(items, path + [rows[from].id], own))]
      + BuildRows(items, path, number, rows, from + 1)
  }

  ghost function TreeOf(items: seq<Row>): seq<Node>
    requires UniqueIds(items)
  {
    Build(items, [], [])
  }

  lemma BuildRowsNext(items: seq<Row>, path: seq<Id>, number: seq<nat>, rows: seq<Row>, i: nat)
    requires UniqueIds(items) && Chain(items, path) && ChildRows(items, path, rows) && i < |rows|
    ensures Chain(items, path + [rows[i].id]) && |path| < |items|
    ensures BuildRows(items, path, number, rows, i)
            == [Node(rows[i], number + [i + 1], |path|, Build(items, path + [rows[i].id], number + [i + 1]))]
               + BuildRows(items, path, number, rows, i + 1)
  {
    RowExtends(items, path, rows[i]);
  }

  lemma {:induction false} BuildRowsAt(items: seq<Row>, path: seq<Id>, number: seq<nat>, rows: seq<Row>, from: nat,
      i: nat)
    requires UniqueIds(items) && Chain(items, path) && ChildRows(items, path, rows) && from <= i < |rows|
    ensures Chain(items, path + [rows[i].id])
    ensures var nodes := BuildRows(items, path, number, rows, from);
      && |nodes| == |rows| - from
      && nodes[i - from] == Node(rows[i], number + [i + 1], |path|, Build(items, path + [rows[i].id], number + [i + 1]))
    decreases i - from, |rows| - from
  {
    BuildRowsNext(items, path, number, rows, from);
    BuildRowsLength(items, path, number, rows, from);
    if from < i {
      BuildRowsAt(items, path, number, rows, from + 1, i);
    }
  }

  lemma {:induction false} BuildRowsLength(items: seq<Row>, path: seq<Id>, number: seq<nat>, rows: seq<Row>, from: nat)
    requires UniqueIds(items) && Chain(items, path) && ChildRows(items, path, rows) && from <= |rows|
    ensures |BuildRows(items, path, number, rows, from)| == |rows| - from
    decreases |rows| - from
  {
    if from < |rows| {
      BuildRowsNext(items, path, number, rows, from);
      BuildRowsLength(items, path, number, rows, from + 1);
    }
  }

  /**
   * Under a row of the tree come its children, by sort order, numbered from one after the number of the row and one
   * level deeper, each with its own children under it.
   */
  lemma ChildrenComeInOrder(items: seq<Row>, path: seq<Id>, number: seq<nat>, i: nat)
    requires UniqueIds(items) && Chain(items, path) && i < |Children(items, KeyAt(path))|
    ensures var rows := Children(items, KeyAt(path));
      && InOrder(rows) && Chain(items, path + [rows[i].id])
      && |Build(items, path, number)| == |rows|
      && Build(items, path, number)[i]
         == Node(rows[i], number + [i + 1], |path|, Build(items, path + [rows[i].id], number + [i + 1]))
  {
    ChildrenAreChildRows(items, path);
    ChildrenMembers(items, KeyAt(path));
    BuildRowsAt(items, path, number, Children(items, KeyAt(path)), 0, i);
  }

  /** `itemsToTree`: fill the map, then build from the root. */
  method ItemsToTree(items: seq<Row>) returns (tree: seq<Node>)
    requires UniqueIds(items)
    ensures tree == TreeOf(items)
  {
    var childrenOf := FillChildrenOf(items);
    tree := BuildNodes(items, childrenOf, Root, [], 0, []);
  }

  method BuildNodes(ghost items: seq<Row>, childrenOf: map<Key, seq<Row>>, key: Key, number: seq<nat>, depth: nat,
      ghost path: seq<Id>)
    returns (nodes: seq<Node>)
    requires UniqueIds(items) && Chain(items, path) && key == KeyAt(path) && depth == |path|
    requires forall k :: (if k in childrenOf then childrenOf[k] else []) == Bucket(items, items, k)
    ensures nodes == Build(items, path, number)
    decreases |items| - |path|
  {
    var rows := SortRows(if key in childrenOf then childrenOf[key] else []);
    ChildrenAreChildRows(items, path);
    nodes := [];
    var i := |rows|;
    while i > 0
      invariant 0 <= i <= |rows|
      invariant nodes == BuildRows(items, path, number, rows, i)
    {
      i := i - 1;
      var row, own: seq<nat> := rows[i], number + [i + 1];
      ghost var longer := path + [row.id];
      BuildRowsNext(items, path, number, rows, i);
      assert KeyAt(longer) == Under(row.id);
      var below := BuildNodes(items, childrenOf, Under(row.id), own, depth + 1, longer);
      nodes := [Node(row, own, depth, below)] + nodes;
    }
  }

  function Flatten(nodes: seq<Node>): seq<Node> {
    if nodes == [] then [] else [nodes[0]] + Flatten(nodes[0].children) + Flatten(nodes[1..])
  }

  // ---------------------------------------------------------------- what the tree lists

  /** The row is reached by going down from the end of `path`. */
  ghost predicate Below(items: seq<Row>, path: seq<Id>, id: Id) {
    exists c :: IsWay(items, path, c, id)
  }

  ghost predicate IsWay(items: seq<Row>, path: seq<Id>, c: seq<Id>, id: Id) {
    Chain(items, c) && |c| > |path| && c[..|path|] == path && c[|c| - 1] == id
  }

  /** "1.2" comes before "1.2.1", and that before "1.3": the first part that differs decides. */
  ghost predicate Before(a: seq<nat>, b: seq<nat>) {
    exists k: nat :: AgreeUpTo(a, b, k) && k < |b| && (k == |a| || a[k] < b[k])
  }

  ghost predicate AgreeUpTo(a: seq<nat>, b: seq<nat>, k: nat) {
    k <= |a| && k <= |b| && a[..k] == b[..k]
  }

  /** No row twice, and the numbers in the order they are read. */
  ghost predicate DistinctNodes(nodes: seq<Node>) {
    forall i, j :: 0 <= i < j < |nodes| ==> Differ(nodes[i], nodes[j])
  }

  /** Every node of the list carries a row of `items` reached from `path` and a number that continues `number`. */
  ghost predicate NodeOk(items: seq<Row>, path: seq<Id>, number: seq<nat>, n: Node) {
    && n.row in items && Below(items, path, n.row.id)
    && |n.number| > |number| && n.number[..|number|] == number && |n.number| - |number| == n.depth + 1 - |path|
  }

  /** ... through one of the children from position `from` on. */
  ghost predicate NodeFrom(items: seq<Row>, path: seq<Id>, number: seq<nat>, rows: seq<Row>, from: nat, n: Node) {
    && NodeOk(items, path, number, n) && n.number[|number|] > from
    && exists k: nat :: Through(items, path, rows, k, n.row.id) && k >= from
  }

  ghost predicate Through(items: seq<Row>, path: seq<Id>, rows: seq<Row>, k: nat, id: Id) {
    k < |rows| && (id == rows[k].id || Below(items, path + [rows[k].id], id))
  }

  /** Two children of one row have nothing below them in common. */
  lemma SubtreesApart(items: seq<Row>, path: seq<Id>, rows: seq<Row>, j: nat, k: nat, id: Id)
    requires UniqueIds(items) && Chain(items, path) && ChildRows(items, path, rows) && UniqueIds(rows)
    requires Through(items, path, rows, j, id) && Through(items, path, rows, k, id)
    ensures j == k
  {
    var a := WayThrough(items, path, rows, j, id);
    var b := WayThrough(items, path, rows, k, id);
    OneChain(items, a, b);
    UniqueIndex(rows, j, k);
  }

  lemma WayThrough(items: seq<Row>, path: seq<Id>, rows: seq<Row>, k: nat, id: Id) returns (c: seq<Id>)
    requires UniqueIds(items) && Chain(items, path) && ChildRows(items, path, rows) && Through(items, path, rows, k, id)
    ensures IsWay(items, path, c, id) && c[|path|] == rows[k].id
  {
    var longer := path + [rows[k].id];
    RowExtends(items, path, rows[k]);
    assert longer[..|path|] == path;
    if id == rows[k].id {
      c := longer;
    } else {
      c :| IsWay(items, longer, c, id);
      assert c[..|path|] == c[..|longer|][..|path|];
      assert c[|path|] == c[..|longer|][|path|];
    }
  }

  /** Whatever is below a row is one of its children or below one. */
  lemma BelowIsThrough(items: seq<Row>, path: seq<Id>, id: Id) returns (k: nat)
    requires UniqueIds(items) && Chain(items, path) && Below(items, path, id)
    ensures Through(items, path, Children(items, KeyAt(path)), k, id)
  {
    var c :| IsWay(items, path, c, id);
    var n := |path|;
    var rows := Children(items, KeyAt(path));
    assert c[..n + 1] == path + [c[n]];
    assert Link(items, c, n);
    var i :| 0 <= i < |items| && items[i].id == c[n] && KeyOf(items, items[i]) == KeyAt(path);
    ChildrenMembers(items, KeyAt(path));
    assert items[i] in rows;
    k :| 0 <= k < |rows| && rows[k] == items[i];
    if |c| > n + 1 {
      assert IsWay(items, path + [rows[k].id], c, id);
    }
  }

  lemma WidenNode(items: seq<Row>, path: seq<Id>, number: seq<nat>, rows: seq<Row>, from: nat, n: Node)
    requires UniqueIds(items) && Chain(items, path) && ChildRows(items, path, rows) && from < |rows|
    requires NodeOk(items, path + [rows[from].id], number + [from + 1], n)
    ensures NodeFrom(items, path, number, rows, from, n)
  {
    var longer := number + [from + 1];
    assert n.number[..|number|] == n.number[..|longer|][..|number|] == number;
    assert n.number[|number|] == n.number[..|longer|][|number|] == from + 1;
    assert Through(items, path, rows, from, n.row.id);
    var c := WayThrough(items, path, rows, from, n.row.id);
  }

  lemma HeadNode(items: seq<Row>, path: seq<Id>, number: seq<nat>, rows: seq<Row>, from: nat, n: Node)
    requires UniqueIds(items) && Chain(items, path) && ChildRows(items, path, rows) && from < |rows|
    requires n.row == rows[from] && n.number == number + [from + 1] && n.depth == |path|
    ensures NodeFrom(items, path, number, rows, from, n)
  {
    assert Through(items, path, rows, from, n.row.id);
    var c := WayThrough(items, path, rows, from, n.row.id);
  }

  lemma {:induction false} BuildRowsSound(items: seq<Row>, path: seq<Id>, number: seq<nat>, rows: seq<Row>, from: nat)
    requires UniqueIds(items) && Chain(items, path) && ChildRows(items, path, rows) && from <= |rows|
    ensures forall n :: n in Flatten(BuildRows(items, path, number, rows, from)) ==>
      NodeFrom(items, path, number, rows, from, n)
    decreases |items| - |path|, 0, |rows| - from
  {
    if from < |rows| {
      RowExtends(items, path, rows[from]);
      var nodes := BuildRows(items, path, number, rows, from);
      var rest := BuildRows(items, path, number, rows, from + 1);
      assert nodes[1..] == rest;
      BuildSound(items, path + [rows[from].id], number + [from + 1]);
      BuildRowsSound(items, path, number, rows, from + 1);
      forall n | n in Flatten(nodes)
        ensures NodeFrom(items, path, number, rows, from, n)
      {
        if n == nodes[0] {
          HeadNode(items, path, number, rows, from, n);
        } else if n in Flatten(nodes[0].children) {
          WidenNode(items, path, number, rows, from, n);
        } else {
          assert NodeFrom(items, path, number, rows, from + 1, n);
        }
      }
    }
  }

  lemma {:induction false} BuildSound(items: seq<Row>, path: seq<Id>, number: seq<nat>)
    requires UniqueIds(items) && Chain(items, path)
    ensures forall n :: n in Flatten(Build(items, path, number)) ==> NodeOk(items, path, number, n)
    decreases |items| - |path|, 1, 0
  {
    ChildrenAreChildRows(items, path);
    BuildRowsSound(items, path, number, Children(items, KeyAt(path)), 0);
  }

  /** ... and every row reached from `path` is in the list. */
  lemma {:induction false} BuildRowsComplete(items: seq<Row>, path: seq<Id>, number: seq<nat>, rows: seq<Row>,
      from: nat, k: nat, id: Id)
    requires UniqueIds(items) && Chain(items, path) && ChildRows(items, path, rows) && from <= k
    requires Through(items, path, rows, k, id)
    ensures Lists(Flatten(BuildRows(items, path, number, rows, from)), id)
    decreases |items| - |path|, 0, |rows| - from
  {
    RowExtends(items, path, rows[from]);
    var nodes := BuildRows(items, path, number, rows, from);
    var rest := BuildRows(items, path, number, rows, from + 1);
    assert nodes[1..] == rest;
    var flat := Flatten(nodes);
    assert flat == [nodes[0]] + Flatten(nodes[0].children) + Flatten(rest);
    if from < k {
      BuildRowsComplete(items, path, number, rows, from + 1, k, id);
      ListsMore([nodes[0]] + Flatten(nodes[0].children), Flatten(rest), id);
    } else if id == rows[k].id {
      assert flat[0].row.id == id;
    } else {
      BuildComplete(items, path + [rows[k].id], number + [k + 1], id);
      ListsMore([nodes[0]], Flatten(nodes[0].children), id);
      ListsMore([nodes[0]] + Flatten(nodes[0].children), Flatten(rest), id);
    }
  }

  lemma {:induction false} BuildComplete(items: seq<Row>, path: seq<Id>, number: seq<nat>, id: Id)
    requires UniqueIds(items) && Chain(items, path) && Below(items, path, id)
    ensures Lists(Flatten(Build(items, path, number)), id)
    decreases |items| - |path|, 1, 0
  {
    ChildrenAreChildRows(items, path);
    var k := BelowIsThrough(items, path, id);
    BuildRowsComplete(items, path, number, Children(items, KeyAt(path)), 0, k, id);
  }

  ghost predicate Lists(nodes: seq<Node>, id: Id) {
    exists i :: 0 <= i < |nodes| && nodes[i].row.id == id
  }

  lemma ListsMore(xs: seq<Node>, ys: seq<Node>, id: Id)
    ensures Lists(xs, id) || Lists(ys, id) ==> Lists(xs + ys, id)
  {
    if Lists(xs, id) {
      var i :| 0 <= i < |xs| && xs[i].row.id == id;
      assert (xs + ys)[i].row.id == id;
    } else if Lists(ys, id) {
      var i :| 0 <= i < |ys| && ys[i].row.id == id;
      assert (xs + ys)[|xs| + i].row.id == id;
    }
  }

  // ---------------------------------------------------------------- each once

  ghost predicate Differ(m: Node, n: Node) {
    m.row.id != n.row.id && Before(m.number, n.number)
  }

  /** What comes before another differs from it. */
  lemma BeforeDiffers(a: seq<nat>, b: seq<nat>)
    requires Before(a, b)
    ensures a != b
  {
  }

  lemma DistinctAppend(xs: seq<Node>, ys: seq<Node>)
    requires DistinctNodes(xs) && DistinctNodes(ys) && forall m, n :: m in xs && n in ys ==> Differ(m, n)
    ensures DistinctNodes(xs + ys)
  {
    var all := xs + ys;
    forall i, j | 0 <= i < j < |all|
      ensures Differ(all[i], all[j])
    {
      if i < |xs| && j >= |xs| {
        assert all[i] in xs && all[j] in ys;
      } else if i >= |xs| {
        assert Differ(ys[i - |xs|], ys[j - |xs|]);
      }
    }
  }

  /** The nodes of one child's subtree differ from those of the children after it. */
  lemma SiblingsDiffer(items: seq<Row>, path: seq<Id>, number: seq<nat>, rows: seq<Row>, from: nat, m: Node, n: Node)
    requires UniqueIds(items) && Chain(items, path) && ChildRows(items, path, rows) && UniqueIds(rows) && from < |rows|
    requires m.row.id == rows[from].id || Below(items, path + [rows[from].id], m.row.id)
    requires |m.number| > |number| && m.number[..|number|] == number && m.number[|number|] == from + 1
    requires NodeFrom(items, path, number, rows, from + 1, n)
    ensures Differ(m, n)
  {
    assert AgreeUpTo(m.number, n.number, |number|);
    var k: nat :| Through(items, path, rows, k, n.row.id) && k >= from + 1;
    if m.row.id == n.row.id {
      SubtreesApart(items, path, rows, from, k, n.row.id);
    }
  }

  /** A row differs from everything below it. */
  lemma ParentDiffers(items: seq<Row>, path: seq<Id>, number: seq<nat>, m: Node, n: Node)
    requires UniqueIds(items) && Chain(items, path) && path != [] && m.row.id == path[|path| - 1] && m.number == number
    requires NodeOk(items, path, number, n)
    ensures Differ(m, n)
  {
    assert AgreeUpTo(m.number, n.number, |number|);
    var c :| IsWay(items, path, c, n.row.id);
    ChainDistinct(items, c, |path| - 1, |c| - 1);
    assert c[..|path|][|path| - 1] == c[|path| - 1];
  }

  lemma {:induction false} BuildRowsDistinct(items: seq<Row>, path: seq<Id>, number: seq<nat>, rows: seq<Row>,
      from: nat)
    requires UniqueIds(items) && Chain(items, path) && ChildRows(items, path, rows) && UniqueIds(rows) && from <= |rows|
    ensures DistinctNodes(Flatten(BuildRows(items, path, number, rows, from)))
    decreases |items| - |path|, 0, |rows| - from
  {
    if from < |rows| {
      RowExtends(items, path, rows[from]);
      var longer, own := path + [rows[from].id], number + [from + 1];
      var nodes := BuildRows(items, path, number, rows, from);
      var rest := BuildRows(items, path, number, rows, from + 1);
      var below := Flatten(nodes[0].children);
      assert nodes[1..] == rest;
      BuildDistinct(items, longer, own);
      BuildSound(items, longer, own);
      forall m, n | m in [nodes[0]] && n in below
        ensures Differ(m, n)
      {
        ParentDiffers(items, longer, own, m, n);
      }
      DistinctAppend([nodes[0]], below);
      BuildRowsDistinct(items, path, number, rows, from + 1);
      BuildRowsSound(items, path, number, rows, from + 1);
      forall m, n | m in [nodes[0]] + below && n in Flatten(rest)
        ensures Differ(m, n)
      {
        HeadOfSubtree(items, path, number, rows, from, m, nodes[0], below);
        SiblingsDiffer(items, path, number, rows, from, m, n);
      }
      DistinctAppend([nodes[0]] + below, Flatten(rest));
    }
  }

  lemma HeadOfSubtree(items: seq<Row>, path: seq<Id>, number: seq<nat>, rows: seq<Row>, from: nat, m: Node,
      head: Node, below: seq<Node>)
    requires from < |rows| && m in [head] + below && head.row == rows[from] && head.number == number + [from + 1]
    requires forall n :: n in below ==> NodeOk(items, path + [rows[from].id], number + [from + 1], n)
    ensures m.row.id == rows[from].id || Below(items, path + [rows[from].id], m.row.id)
    ensures |m.number| > |number| && m.number[..|number|] == number && m.number[|number|] == from + 1
  {
    if m != head {
      assert m in below;
      assert m.number[..|number|] == m.number[..|number| + 1][..|number|];
      assert m.number[|number|] == m.number[..|number| + 1][|number|];
    }
  }

  lemma {:induction false} BuildDistinct(items: seq<Row>, path: seq<Id>, number: seq<nat>)
    requires UniqueIds(items) && Chain(items, path)
    ensures DistinctNodes(Flatten(Build(items, path, number)))
    decreases |items| - |path|, 1, 0
  {
    ChildrenAreChildRows(items, path);
    ChildrenMembers(items, KeyAt(path));
    BuildRowsDistinct(items, path, number, Children(items, KeyAt(path)), 0);
  }

  /** The chain of parents of the row ends at the root, or at a parent that is not among the rows. */
  ghost predicate Rooted(items: seq<Row>, id: Id) {
    Below(items, [], id)
  }

  /**
   * Whatever the links, cyclic ones included: the tree lists exactly the rows whose chain of parents ends at the
   * root, each once, and read from the top its numbers come in order, so all are different.
   */
  lemma TreeListsTheRooted(items: seq<Row>)
    requires UniqueIds(items)
    ensures var flat := Flatten(TreeOf(items));
      && DistinctNodes(flat)
      && (forall n :: n in flat ==> n.row in items && Rooted(items, n.row.id) && |n.number| == n.depth + 1)
      && (forall id :: Rooted(items, id) ==> Lists(flat, id))
  {
    BuildDistinct(items, [], []);
    BuildSound(items, [], []);
    forall n | n in Flatten(TreeOf(items))
      ensures n.row in items && Rooted(items, n.row.id) && |n.number| == n.depth + 1
    {
      assert NodeOk(items, [], [], n);
    }
    forall id | Rooted(items, id)
      ensures Lists(Flatten(TreeOf(items)), id)
    {
      BuildComplete(items, [], [], id);
    }
  }

  // ---------------------------------------------------------------- cycles

  /** Ids each of which is a child of the one before, and the first of the last. */
  ghost predicate IsCycle(items: seq<Row>, c: seq<Id>) {
    && c != [] && IsChild(items, c[0], Under(c[|c| - 1]))
    && forall i :: 0 < i < |c| ==> Step(items, c, i)
  }

  ghost predicate Step(items: seq<Row>, c: seq<Id>, i: nat)
  {
    0 < i < |c| && IsChild(items, c[i], Under(c[i - 1]))
  }

  ghost predicate HasCycle(items: seq<Row>) {
    exists c :: IsCycle(items, c)
  }

  /** Above a row of a cycle there is always another one of the cycle, so no chain ends in it. */
  lemma {:induction false} CycleIsNotRooted(items: seq<Row>, c: seq<Id>, chain: seq<Id>)
    requires UniqueIds(items) && IsCycle(items, c) && Chain(items, chain) && chain != []
    ensures chain[|chain| - 1] !in c
    decreases |chain|
  {
    var n := |chain| - 1;
    assert Link(items, chain, n);
    if chain[n] in c {
      var i :| 0 <= i < |c| && c[i] == chain[n];
      var above := if i == 0 then c[|c| - 1] else c[i - 1];
      assert i > 0 ==> Step(items, c, i);
      OneParent(items, chain[n], KeyAt(chain[..n]), Under(above));
      ChainPrefix(items, chain, n);
      CycleIsNotRooted(items, c, chain[..n]);
    }
  }

  /** A way up from `suffix`: each id the parent of the next, none twice. */
  ghost predicate Ascent(items: seq<Row>, suffix: seq<Id>) {
    && suffix != [] && (forall i :: 0 <= i < |suffix| ==> Has(items, suffix[i]))
    && (forall i :: 0 < i < |suffix| ==> Step(items, suffix, i))
    && (forall i, j :: 0 <= i < j < |suffix| ==> suffix[i] != suffix[j])
  }

  /** Climbing from a row either reaches the root or comes round to a row already seen. */
  lemma {:induction false} ClimbToRootOrCycle(items: seq<Row>, suffix: seq<Id>)
    requires UniqueIds(items) && Ascent(items, suffix)
    ensures Rooted(items, suffix[|suffix| - 1]) || HasCycle(items)
    decreases |items| - |suffix|
  {
    assert Has(items, suffix[0]);
    var i :| 0 <= i < |items| && items[i].id == suffix[0];
    var key := KeyOf(items, items[i]);
    assert IsChild(items, suffix[0], key);
    if key == Root {
      AscentIsChain(items, suffix);
      assert IsWay(items, [], suffix, suffix[|suffix| - 1]);
    } else if key.id in suffix {
      var j :| 0 <= j < |suffix| && suffix[j] == key.id;
      assert forall k :: 0 < k < j + 1 ==> Step(items, suffix, k);
      AscentPrefix(items, suffix, j + 1);
      assert IsCycle(items, suffix[..j + 1]);
    } else {
      AscentGrows(items, suffix, key.id);
      AscentFits(items, [key.id] + suffix);
      ClimbToRootOrCycle(items, [key.id] + suffix);
    }
  }

  lemma AscentPrefix(items: seq<Row>, suffix: seq<Id>, n: nat)
    requires Ascent(items, suffix) && 0 < n <= |suffix|
    ensures forall k :: 0 < k < n ==> Step(items, suffix[..n], k)
  {
    forall k | 0 < k < n
      ensures Step(items, suffix[..n], k)
    {
      assert Step(items, suffix, k);
    }
  }

  lemma AscentIsChain(items: seq<Row>, suffix: seq<Id>)
    requires Ascent(items, suffix) && IsChild(items, suffix[0], Root)
    ensures Chain(items, suffix)
  {
    forall i: nat | i < |suffix|
      ensures Link(items, suffix, i)
    {
      assert i > 0 ==> Step(items, suffix, i);
    }
  }

  lemma AscentGrows(items: seq<Row>, suffix: seq<Id>, parent: Id)
    requires Ascent(items, suffix) && IsChild(items, suffix[0], Under(parent)) && parent !in suffix
    ensures Ascent(items, [parent] + suffix)
  {
    var longer := [parent] + suffix;
    forall i | 0 < i < |longer|
      ensures Step(items, longer, i)
    {
      assert i > 1 ==> Step(items, suffix, i - 1);
    }
  }

  lemma AscentFits(items: seq<Row>, suffix: seq<Id>)
    requires Ascent(items, suffix)
    ensures |suffix| <= |items|
  {
    DistinctFit(suffix, IdsOf(items));
    FewIds(items);
  }

  function RowsOf(nodes: seq<Node>): (rows: seq<Row>)
    ensures |rows| == |nodes| && forall i :: 0 <= i < |rows| ==> rows[i] == nodes[i].row
  {
    seq(|nodes|, i requires 0 <= i < |nodes| => nodes[i].row)
  }

  /** Two lists of rows with unique ids and the same rows are permutations of each other. */
  lemma SameRowsPermutation(a: seq<Row>, b: seq<Row>)
    requires UniqueIds(a) && UniqueIds(b) && forall row :: row in a <==> row in b
    ensures multiset(a) == multiset(b)
  {
    forall row: Row
      ensures multiset(a)[row] == multiset(b)[row]
    {
      CountOfDistinct(a, row);
      CountOfDistinct(b, row);
    }
  }

  lemma ListedRow(items: seq<Row>, row: Row)
    requires UniqueIds(items) && row in items
    ensures row in RowsOf(Flatten(TreeOf(items))) <==> Rooted(items, row.id)
  {
    TreeListsTheRooted(items);
    var flat := Flatten(TreeOf(items));
    if Rooted(items, row.id) {
      var i :| 0 <= i < |flat| && flat[i].row.id == row.id;
      assert flat[i] in flat;
      SameIdSameRow(items, flat[i].row, row);
      assert RowsOf(flat)[i] == row;
    }
    ListedIsRooted(items);
  }

  lemma ListedIsRooted(items: seq<Row>)
    requires UniqueIds(items)
    ensures forall row :: row in RowsOf(Flatten(TreeOf(items))) ==> row in items && Rooted(items, row.id)
  {
    TreeListsTheRooted(items);
    var flat := Flatten(TreeOf(items));
    forall row | row in RowsOf(flat)
      ensures row in items && Rooted(items, row.id)
    {
      var i :| 0 <= i < |flat| && RowsOf(flat)[i] == row;
      assert flat[i] in flat;
    }
  }

  lemma SameIdSameRow(items: seq<Row>, p: Row, q: Row)
    requires UniqueIds(items) && p in items && q in items && p.id == q.id
    ensures p == q
  {
    var i :| 0 <= i < |items| && items[i] == p;
    var j :| 0 <= j < |items| && items[j] == q;
    UniqueIndex(items, i, j);
  }

  /** No line of the quotation is lost or repeated exactly when the links have no cycle. */
  lemma TreeIsAPermutation(items: seq<Row>)
    requires UniqueIds(items)
    ensures multiset(RowsOf(Flatten(TreeOf(items)))) == multiset(items) <==> !HasCycle(items)
  {
    var flat := Flatten(TreeOf(items));
    TreeListsTheRooted(items);
    if HasCycle(items) {
      var c :| IsCycle(items, c);
      var i :| 0 <= i < |items| && items[i].id == c[0];
      CycleMemberIsLost(items, c, items[i]);
      ListedRow(items, items[i]);
      assert items[i] in multiset(items) && items[i] !in multiset(RowsOf(flat));
    } else {
      ListedIsRooted(items);
      forall row
        ensures row in RowsOf(flat) <==> row in items
      {
        if row in items {
          var i :| 0 <= i < |items| && items[i] == row;
          ClimbToRootOrCycle(items, [row.id]);
          ListedRow(items, row);
        }
      }
      SameRowsPermutation(RowsOf(flat), items);
    }
  }

  lemma CycleMemberIsLost(items: seq<Row>, c: seq<Id>, row: Row)
    requires UniqueIds(items) && IsCycle(items, c) && row.id == c[0]
    ensures !Rooted(items, row.id)
  {
    if Rooted(items, row.id) {
      var chain :| IsWay(items, [], chain, row.id);
      CycleIsNotRooted(items, c, chain);
    }
  }

  // ---------------------------------------------------------------- the numbers as text

  /** `nodeLabel` all the way down: "1", "1.2", "1.2.3". */
  function Rendered(number: seq<nat>): string
    requires number != []
  {
    var n := |number| - 1;
    if n == 0 then Decimal(number[0]) else Rendered(number[..n]) + "." + Decimal(number[n])
  }

  /** The parts of a number are read with a point between them. */
  lemma RenderedReads()
    ensures Rendered([1]) == "1" && Rendered([1, 2]) == "1.2" && Rendered([1, 2, 10]) == "1.2.10"
  {
    assert [1, 2][..1] == [1] && [1, 2, 10][..2] == [1, 2];
    assert Decimal(10) == Decimal(1) + [DigitChar(0)];
  }

  lemma LastPart(x: string, d: string, y: string, e: string)
    requires AllDigits(d) && AllDigits(e) && x + "." + d == y + "." + e
    ensures x == y && d == e
  {
    var s, t := x + "." + d, y + "." + e;
    assert s[|x|] == '.' && t[|y|] == '.';
    assert forall i :: |x| < i < |s| ==> s[i] == d[i - |x| - 1];
    assert forall i :: |y| < i < |t| ==> t[i] == e[i - |y| - 1];
    assert |x| == |y|;
    assert x == s[..|x|] && y == t[..|y|];
    assert d == s[|x| + 1..] && e == t[|y| + 1..];
  }

  /** Different numbers are shown differently, so no two lines of a quotation carry the same label. */
  lemma {:induction false} RenderedIsInjective(a: seq<nat>, b: seq<nat>)
    requires a != [] && b != [] && Rendered(a) == Rendered(b)
    ensures a == b
    decreases |a|
  {
    var m, n := |a| - 1, |b| - 1;
    if m == 0 && n == 0 {
      ParseDecimal(a[0]);
      ParseDecimal(b[0]);
    } else if m == 0 {
      DotInside(Rendered(b[..n]), Decimal(b[n]), Decimal(a[0]));
    } else if n == 0 {
      DotInside(Rendered(a[..m]), Decimal(a[m]), Decimal(b[0]));
    } else {
      LastPart(Rendered(a[..m]), Decimal(a[m]), Rendered(b[..n]), Decimal(b[n]));
      ParseDecimal(a[m]);
      ParseDecimal(b[n]);
      RenderedIsInjective(a[..m], b[..n]);
      assert a == a[..m] + [a[m]] && b == b[..n] + [b[n]];
    }
  }

  lemma DotInside(x: string, d: string, e: string)
    requires AllDigits(e)
    ensures x + "." + d != e
  {
    assert (x + "." + d)[|x|] == '.';
  }

  lemma LabelsAreDistinct(items: seq<Row>, i: nat, j: nat)
    requires UniqueIds(items) && i < j < |Flatten(TreeOf(items))|
    ensures var flat := Flatten(TreeOf(items));
      && flat[i].number != [] && flat[j].number != []
      && Rendered(flat[i].number) != Rendered(flat[j].number)
  {
    TreeListsTheRooted(items);
    var flat := Flatten(TreeOf(items));
    assert flat[i] in flat && flat[j] in flat;
    assert Differ(flat[i], flat[j]);
    BeforeDiffers(flat[i].number, flat[j].number);
    if Rendered(flat[i].number) == Rendered(flat[j].number) {
      RenderedIsInjective(flat[i].number, flat[j].number);
    }
  }
}
