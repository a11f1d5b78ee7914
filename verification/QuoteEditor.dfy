/**
 * Totals and edits of the quotation being edited (`nodeTotal`, `treeSubtotal`, `addChild`, `removeNode` of
 * stp-landing/lib/quote-tree.ts). Amounts are in cents: the total of a line is already rounded, so rounding the sum
 * of a group again does nothing.
 */
module QuoteEditor {
  import opened Wrappers

  type Id = nat

  /** `amount` is the total of the line, used while the node has no children and is not a group. */
  datatype Editor = Editor(id: Id, group: bool, amount: int, children: seq<Editor>)

  function NodeTotal(node: Editor): int {
    if node.children != [] then Totals(node.children) else if node.group then 0 else node.amount
  }

  function Totals(nodes: seq<Editor>): int {
    if nodes == [] then 0 else NodeTotal(nodes[0]) + Totals(nodes[1..])
  }

  function TreeSubtotal(nodes: seq<Editor>): int {
    Totals(nodes)
  }

  // ---------------------------------------------------------------- only the leaves count

  function AllNodes(nodes: seq<Editor>): seq<Editor> {
    if nodes == [] then [] else [nodes[0]] + AllNodes(nodes[0].children) + AllNodes(nodes[1..])
  }

  function LeafAmount(node: Editor): int {
    if node.children == [] && !node.group then node.amount else 0
  }

  function LeafAmounts(nodes: seq<Editor>): int {
    if nodes == [] then 0 else LeafAmounts(nodes[..|nodes| - 1]) + LeafAmount(nodes[|nodes| - 1])
  }

  lemma {:induction false} LeafAmountsAppend(xs: seq<Editor>, ys: seq<Editor>)
    ensures LeafAmounts(xs + ys) == LeafAmounts(xs) + LeafAmounts(ys)
  {
    if ys == [] {
      assert xs + ys == xs;
    } else {
      assert (xs + ys)[..|xs + ys| - 1] == xs + ys[..|ys| - 1];
      LeafAmountsAppend(xs, ys[..|ys| - 1]);
    }
  }

  lemma OneLeaf(node: Editor)
    ensures LeafAmounts([node]) == LeafAmount(node)
  {
    assert [node][..0] == [];
  }

  /** The subtotal is the sum of the lines that are leaves: no group is counted on top of what it holds. */
  lemma {:induction false} SubtotalIsTheLeaves(nodes: seq<Editor>)
    ensures TreeSubtotal(nodes) == LeafAmounts(AllNodes(nodes))
  {
    if nodes != [] {
      var head := nodes[0];
      SubtotalIsTheLeaves(head.children);
      SubtotalIsTheLeaves(nodes[1..]);
      LeafAmountsAppend([head], AllNodes(head.children));
      LeafAmountsAppend([head] + AllNodes(head.children), AllNodes(nodes[1..]));
      OneLeaf(head);
      assert NodeTotal(head) == LeafAmount(head) + Totals(head.children);
    }
  }

  // ---------------------------------------------------------------- edits

  /** The map of `addChild` under a known parent. */
  function AddUnder(nodes: seq<Editor>, parent: Id, child: Editor): seq<Editor> {
    if nodes == [] then []
    else
      var n := nodes[0];
      (if n.id == parent then [n.(group := true, children := n.children + [child])]
       else [n.(children := AddUnder(n.children, parent, child))])
      + AddUnder(nodes[1..], parent, child)
  }

  function AddChild(nodes: seq<Editor>, parent: Option<Id>, child: Editor): seq<Editor> {
    if parent.None? then nodes + [child] else AddUnder(nodes, parent.value, child)
  }

  function RemoveNode(nodes: seq<Editor>, id: Id): seq<Editor> {
    if nodes == [] then []
    else (if nodes[0].id == id then []
      else [nodes[0].(children := RemoveNode(nodes[0].children, id))]) + RemoveNode(nodes[1..], id)
  }

  predicate Occurs(nodes: seq<Editor>, id: Id) {
    nodes != [] && (nodes[0].id == id || Occurs(nodes[0].children, id) || Occurs(nodes[1..], id))
  }

  /** What adding leaves behind: the parent is a group from then on. */
  function Grouped(nodes: seq<Editor>, parent: Id): seq<Editor> {
    if nodes == [] then []
    else
      var n := nodes[0];
      [if n.id == parent then n.(group := true)
        else n.(children := Grouped(n.children, parent))] + Grouped(nodes[1..], parent)
  }

  /** The child comes after those its parent had, or at the end of the tree; every other node keeps what it says. */
  lemma {:induction false} AddedAtTheEnd(nodes: seq<Editor>, parent: Id, child: Editor, i: nat)
    requires i < |nodes|
    ensures AddChild(nodes, None, child) == nodes + [child]
    ensures var after := AddChild(nodes, Some(parent), child);
      && |after| == |nodes|
      && after[i] ==
           if nodes[i].id == parent then Editor(parent, true, nodes[i].amount, nodes[i].children + [child])
           else nodes[i].(children := AddUnder(nodes[i].children, parent, child))
  {
    UnderKeepsLength(nodes, parent, child);
    if i > 0 {
      AddedAtTheEnd(nodes[1..], parent, child, i - 1);
      assert AddUnder(nodes, parent, child)[1..] == AddUnder(nodes[1..], parent, child);
    }
  }

  lemma {:induction false} UnderKeepsLength(nodes: seq<Editor>, parent: Id, child: Editor)
    ensures |AddUnder(nodes, parent, child)| == |nodes|
  {
    if nodes != [] {
      UnderKeepsLength(nodes[1..], parent, child);
    }
  }

  lemma {:induction false} OccursInEither(xs: seq<Editor>, ys: seq<Editor>, id: Id)
    ensures Occurs(xs + ys, id) <==> Occurs(xs, id) || Occurs(ys, id)
  {
    if xs == [] {
      assert xs + ys == ys;
    } else {
      assert (xs + ys)[1..] == xs[1..] + ys;
      OccursInEither(xs[1..], ys, id);
    }
  }

  /** Nothing of what was removed is left, wherever it was. */
  lemma {:induction false} RemovedIsGone(nodes: seq<Editor>, id: Id)
    ensures !Occurs(RemoveNode(nodes, id), id)
  {
    if nodes != [] {
      RemovedIsGone(nodes[0].children, id);
      RemovedIsGone(nodes[1..], id);
      var head := if nodes[0].id == id then [] else [nodes[0].(children := RemoveNode(nodes[0].children, id))];
      OccursInEither(head, RemoveNode(nodes[1..], id), id);
    }
  }

  lemma {:induction false} RemoveAbsent(nodes: seq<Editor>, id: Id)
    requires !Occurs(nodes, id)
    ensures RemoveNode(nodes, id) == nodes
  {
    if nodes != [] {
      RemoveAbsent(nodes[0].children, id);
      RemoveAbsent(nodes[1..], id);
    }
  }

  lemma RemoveHead(head: Editor, rest: seq<Editor>, id: Id)
    ensures RemoveNode([head] + rest, id)
            == (if head.id == id then [] else [head.(children := RemoveNode(head.children, id))]) + RemoveNode(rest, id)
  {
    assert ([head] + rest)[1..] == rest;
  }

  lemma {:induction false} RemoveLast(nodes: seq<Editor>, child: Editor)
    ensures RemoveNode(nodes + [child], child.id) == RemoveNode(nodes, child.id)
  {
    if nodes == [] {
      assert nodes + [child] == [child];
      assert [child][1..] == [];
    } else {
      var rest := nodes[1..];
      RemoveLast(rest, child);
      RemoveHead(nodes[0], rest, child.id);
      RemoveHead(nodes[0], rest + [child], child.id);
      assert nodes + [child] == [nodes[0]] + (rest + [child]);
      assert nodes == [nodes[0]] + rest;
    }
  }

  lemma {:induction false} RemoveUndoesAddUnder(nodes: seq<Editor>, parent: Id, child: Editor)
    requires !Occurs(nodes, child.id)
    ensures RemoveNode(AddUnder(nodes, parent, child), child.id) == Grouped(nodes, parent)
  {
    if nodes != [] {
      var n, rest := nodes[0], AddUnder(nodes[1..], parent, child);
      var added := AddUnder(nodes, parent, child);
      assert added[1..] == rest;
      RemoveUndoesAddUnder(nodes[1..], parent, child);
      if n.id == parent {
        RemoveLast(n.children, child);
        RemoveAbsent(n.children, child.id);
      } else {
        RemoveUndoesAddUnder(n.children, parent, child);
      }
    }
  }

  /** Removing what was just added gives the tree back, its parent turned into a group. */
  lemma RemoveUndoesAdd(nodes: seq<Editor>, parent: Option<Id>, child: Editor)
    requires !Occurs(nodes, child.id)
    ensures RemoveNode(AddChild(nodes, parent, child), child.id)
            == if parent.None? then nodes else Grouped(nodes, parent.value)
  {
    if parent.None? {
      RemoveLast(nodes, child);
      RemoveAbsent(nodes, child.id);
    } else {
      RemoveUndoesAddUnder(nodes, parent.value, child);
    }
  }

  lemma {:induction false} TotalsAppend(xs: seq<Editor>, ys: seq<Editor>)
    ensures Totals(xs + ys) == Totals(xs) + Totals(ys)
  {
    if xs == [] {
      assert xs + ys == ys;
    } else {
      assert (xs + ys)[1..] == xs[1..] + ys;
      TotalsAppend(xs[1..], ys);
    }
  }

  /** The amounts the subtotal loses: those of the lines that stop being leaves. */
  function Absorbed(nodes: seq<Editor>, parent: Id): int {
    if nodes == [] then 0
    else (if nodes[0].id == parent then LeafAmount(nodes[0])
      else Absorbed(nodes[0].children, parent)) + Absorbed(nodes[1..], parent)
  }

  /** How many nodes the child is added to. */
  function Places(nodes: seq<Editor>, parent: Id): nat {
    if nodes == [] then 0
    else (if nodes[0].id == parent then 1 else Places(nodes[0].children, parent)) + Places(nodes[1..], parent)
  }

  /**
   * A child adds its total wherever it lands, and a line that gets one gives up the amount it had: hanging something
   * from a line with a price moves the subtotal by the difference.
   */
  lemma {:induction false} AddingShiftsTheSubtotal(nodes: seq<Editor>, parent: Id, child: Editor)
    ensures TreeSubtotal(AddUnder(nodes, parent, child))
            == TreeSubtotal(nodes) + Places(nodes, parent) * NodeTotal(child) - Absorbed(nodes, parent)
  {
    if nodes != [] {
      var n := nodes[0];
      var added := AddUnder(nodes, parent, child);
      assert added[1..] == AddUnder(nodes[1..], parent, child);
      AddingShiftsTheSubtotal(nodes[1..], parent, child);
      var t := NodeTotal(child);
      if n.id == parent {
        TotalsAppend(n.children, [child]);
        assert [child][1..] == [];
        assert NodeTotal(added[0]) == NodeTotal(n) + t - LeafAmount(n);
        Distribute(1, Places(nodes[1..], parent), t);
      } else {
        AddingShiftsTheSubtotal(n.children, parent, child);
        assert added[0].children == AddUnder(n.children, parent, child);
        SameEmptiness(n.children, parent, child);
        assert NodeTotal(added[0]) == NodeTotal(n) + Places(n.children, parent) * t - Absorbed(n.children, parent);
        Distribute(Places(n.children, parent), Places(nodes[1..], parent), t);
      }
    }
  }

  lemma Distribute(a: nat, b: nat, t: int)
    ensures (a + b) * t == a * t + b * t
  {
  }

  lemma SameEmptiness(nodes: seq<Editor>, parent: Id, child: Editor)
    ensures AddUnder(nodes, parent, child) == [] <==> nodes == []
  {
  }
}
