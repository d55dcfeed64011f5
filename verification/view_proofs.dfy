/** What the chart's view operations keep and what they change: whichever slot holds a
    node's children, the tree underneath stays the built hierarchy; clicks undo
    themselves; collapsing leaves only the top level drawn; and `expandAll` is finished
    exactly when the two counters agree. */
module ViewProofs {
  import opened Wrappers
  import opened HierarchyBuilder
  import opened ViewState

  /** The tree a view stands for, drawn or not. */
  datatype Shape = Shape(id: string, level: int, kids: seq<Shape>)

  function Skeleton(h: HNode): Shape
    decreases h
  {
    Shape(h.id, h.level, seq(|h.children|, i requires 0 <= i < |h.children| => Skeleton(h.children[i])))
  }

  /** The children of a node, from whichever slot is set (the drawn one first). */
  function Full(v: VNode): Shape
    decreases v
  {
    var ks := if v.children.Nodes? then v.children.nodes else if v.hidden.Nodes? then v.hidden.nodes else [];
    Shape(v.id, v.level, seq(|ks|, i requires 0 <= i < |ks| => Full(ks[i])))
  }

  /** The shape d3 and the click handlers keep: never both slots set, and a set slot is
      a non-empty array, all the way down. */
  predicate WellSlotted(v: VNode)
    decreases v
  {
    !(v.children.Nodes? && v.hidden.Nodes?)
    && (v.children.Nodes? ==>
          |v.children.nodes| > 0 && forall i :: 0 <= i < |v.children.nodes| ==> WellSlotted(v.children.nodes[i]))
    && (v.hidden.Nodes? ==>
          |v.hidden.nodes| > 0 && forall i :: 0 <= i < |v.hidden.nodes| ==> WellSlotted(v.hidden.nodes[i]))
  }

  /** No drawn node holds a stash. */
  predicate AllExpanded(v: VNode)
    decreases v
  {
    v.hidden.Null?
    && (v.children.Nodes? ==> forall i :: 0 <= i < |v.children.nodes| ==> AllExpanded(v.children.nodes[i]))
  }

  /** A freshly built view is well slotted and stands for exactly the built tree. */
  lemma {:induction false} FromHierarchyFaithful(h: HNode)
    ensures WellSlotted(FromHierarchy(h))
    ensures Full(FromHierarchy(h)) == Skeleton(h)
    decreases h
  {
    forall i | 0 <= i < |h.children|
      ensures WellSlotted(FromHierarchy(h.children[i]))
      ensures Full(FromHierarchy(h.children[i])) == Skeleton(h.children[i])
    {
      FromHierarchyFaithful(h.children[i]);
    }
  }

  /** Toggling twice is the identity exactly when at most one slot is set. */
  lemma ToggleTwice(v: VNode)
    ensures Toggle(Toggle(v)) == v <==> !(v.children.Nodes? && v.hidden.Nodes?)
  {
  }

  /** A toggle keeps a well-slotted node well slotted and keeps the tree it stands for. */
  lemma ToggleKeepsTree(v: VNode)
    requires WellSlotted(v)
    ensures WellSlotted(Toggle(v)) && Full(Toggle(v)) == Full(v)
  {
  }

  /** On a well-slotted node, a second click undoes the first. */
  lemma ClickTwiceRestores(v: VNode)
    requires WellSlotted(v)
    requires HandleNodeClick(v).Toggled?
    ensures HandleNodeClick(HandleNodeClick(v).node) == Toggled(v)
  {
  }

  /** Collapsing keeps a well-slotted node well slotted and keeps the tree it stands for. */
  lemma {:induction false} CollapseKeepsTree(v: VNode)
    requires WellSlotted(v)
    ensures WellSlotted(Collapse(v)) && Full(Collapse(v)) == Full(v)
    decreases v
  {
    if v.children.Nodes? {
      forall i | 0 <= i < |v.children.nodes|
        ensures WellSlotted(Collapse(v.children.nodes[i])) && Full(Collapse(v.children.nodes[i])) == Full(v.children.nodes[i])
      {
        CollapseKeepsTree(v.children.nodes[i]);
      }
    }
  }

  /** `expandAll` keeps a well-slotted tree well slotted and keeps the tree it stands for. */
  lemma {:induction false} ExpandAllKeepsTree(v: VNode)
    requires WellSlotted(v)
    ensures WellSlotted(ExpandAll(v)) && Full(ExpandAll(v)) == Full(v)
    decreases v
  {
    if v.hidden.Null? && v.children.Nodes? {
      forall i | 0 <= i < |v.children.nodes|
        ensures WellSlotted(ExpandAll(v.children.nodes[i])) && Full(ExpandAll(v.children.nodes[i])) == Full(v.children.nodes[i])
      {
        ExpandAllKeepsTree(v.children.nodes[i]);
      }
    }
  }

  /** `expandAll` changes nothing exactly when no drawn node holds a stash. */
  lemma {:induction false} ExpandAllFixpoint(v: VNode)
    ensures ExpandAll(v) == v <==> AllExpanded(v)
    decreases v
  {
    if v.hidden.Null? && v.children.Nodes? {
      var ns := v.children.nodes;
      forall i | 0 <= i < |ns|
        ensures ExpandAll(ns[i]) == ns[i] <==> AllExpanded(ns[i])
      {
        ExpandAllFixpoint(ns[i]);
      }
      if ExpandAll(v) == v {
        forall i | 0 <= i < |ns|
          ensures AllExpanded(ns[i])
        {
          assert ExpandAll(v).children.nodes[i] == ExpandAll(ns[i]);
        }
      }
    }
  }

  /** The visible counter never exceeds the total one, and they agree exactly when no
      drawn node holds a stash. */
  lemma {:induction false} CountersAgreeIffExpanded(v: VNode)
    ensures Visible(v) <= Total(v)
    ensures Visible(v) == Total(v) <==> AllExpanded(v)
    decreases v, 1
  {
    if v.children.Nodes? {
      ForestCountersAgreeIffExpanded(v.children.nodes);
    }
  }

  lemma {:induction false} ForestCountersAgreeIffExpanded(ns: seq<VNode>)
    ensures VisibleOf(ns) <= TotalOf(ns)
    ensures VisibleOf(ns) == TotalOf(ns) <==> forall i :: 0 <= i < |ns| ==> AllExpanded(ns[i])
    decreases ns, 0
  {
    if |ns| > 0 {
      CountersAgreeIffExpanded(ns[0]);
      ForestCountersAgreeIffExpanded(ns[1..]);
      assert forall i :: 1 <= i < |ns| ==> ns[i] == ns[1..][i - 1];
    }
  }

  /** A forest of nodes without drawn children counts one per node. */
  lemma {:induction false} TotalOfUndrawn(ns: seq<VNode>)
    requires forall i :: 0 <= i < |ns| ==> ns[i].children.Null?
    ensures TotalOf(ns) == |ns|
    decreases |ns|
  {
    if |ns| > 0 {
      TotalOfUndrawn(ns[1..]);
    }
  }

  /** After `collapseAll` only the root and its children are drawn, and the tree the
      view stands for is unchanged. */
  lemma CollapseAllShowsTopLevel(root: VNode)
    requires WellSlotted(root) && CollapseAll(root).Success?
    ensures var r := CollapseAll(root).value;
      Total(r) == 1 + |root.children.nodes| && WellSlotted(r) && Full(r) == Full(root)
  {
    var r := CollapseAll(root).value;
    TotalOfUndrawn(r.children.nodes);
    forall i | 0 <= i < |root.children.nodes|
      ensures WellSlotted(r.children.nodes[i]) && Full(r.children.nodes[i]) == Full(root.children.nodes[i])
    {
      CollapseKeepsTree(root.children.nodes[i]);
    }
  }

  /** One `expandAll` on a collapsed chain of three draws only the middle node: the
      grandchild was not drawn when the loop's node list was taken, so it stays
      stashed, and the counters still disagree. */
  lemma ExpandAllRevealsOneGeneration()
    ensures var c := VNode("c", 2, Null, Null);
      var b := VNode("b", 1, Null, Nodes([c]));
      var a := VNode("a", 0, Null, Nodes([b]));
      ExpandAll(a) == VNode("a", 0, Nodes([b]), Null)
      && Total(ExpandAll(a)) == 2 && Visible(ExpandAll(a)) == 1
      && ExpandAll(ExpandAll(a)) == VNode("a", 0, Nodes([VNode("b", 1, Nodes([c]), Null)]), Null)
  {
    var c := VNode("c", 2, Null, Null);
    var b := VNode("b", 1, Null, Nodes([c]));
    var a := VNode("a", 0, Null, Nodes([b]));
    assert TotalOf([b]) == 1;
    assert VisibleOf([b]) == 0;
    assert ExpandAll(ExpandAll(a)).children.nodes == [ExpandAll(b)];
  }

  /** With the detached callback, the initial collapse throws whenever some top-level
      node has drawn children; the bound version succeeds on every tree with drawn
      children. */
  lemma UnboundCollapseThrows(root: VNode, k: nat)
    requires root.children.Nodes? && k < |root.children.nodes|
    requires root.children.nodes[k].children.Nodes? && |root.children.nodes[k].children.nodes| > 0
    ensures InitialViewUnbound(root).Failure?
    ensures CollapseAll(root).Success? && InitialView(root) == CollapseAll(root).value
  {
    assert CollapseUnbound(root.children.nodes[k]).Failure?;
    assert CollapseEachUnbound(root.children.nodes).Failure?;
  }
}
