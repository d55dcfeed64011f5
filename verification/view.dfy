/** The collapsible chart as d3 holds it: every node has a drawn `children` slot and a
    `_children` stash, each either unset (`undefined`/`null`) or an array. Clicking,
    collapsing and expanding move arrays between the two slots; nothing is rebuilt. */
module ViewState {
  import opened Wrappers
  import opened Text
  import opened HierarchyBuilder

  /** A slot of a d3 node: unset, or an array (an empty array is still truthy). */
  datatype Slot = Null | Nodes(nodes: seq<VNode>)

  /** A d3 hierarchy node: its id, `d.data.level`, the drawn children and the stash. */
  datatype VNode = VNode(id: string, level: int, children: Slot, hidden: Slot)

  datatype JsError = TypeError

  /** `d3.hierarchy(data)`: a node gets a `children` array only when the data has at
      least one child, and no node starts with a stash. */
  function FromHierarchy(h: HNode): (v: VNode)
    ensures v.id == h.id && v.level == h.level && v.hidden == Null
    ensures v.children.Null? <==> |h.children| == 0
    ensures v.children.Nodes? ==> |v.children.nodes| == |h.children|
    decreases h
  {
    VNode(h.id, h.level,
      if |h.children| == 0 then Null
      else Nodes(seq(|h.children|, i requires 0 <= i < |h.children| => FromHierarchy(h.children[i]))),
      Null)
  }

  /** `toggleNode`: drawn children go to the stash, otherwise the stash (possibly unset)
      is drawn. */
  function Toggle(v: VNode): (r: VNode)
    ensures r.id == v.id && r.level == v.level
    ensures v.children.Nodes? ==> r.children.Null? && r.hidden == v.children
    ensures v.children.Null? ==> r.children == v.hidden && r.hidden.Null?
  {
    if v.children.Nodes? then VNode(v.id, v.level, Null, v.children)
    else VNode(v.id, v.level, v.hidden, Null)
  }

  /** The outcome of `handleNodeClick`: the node toggled, or its details panel shown. */
  datatype Click = Toggled(node: VNode) | ShowDetails(id: string)

  /** `handleNodeClick`: a node with a stash or with drawn children toggles; any other
      node opens its details. */
  function HandleNodeClick(v: VNode): (c: Click)
    ensures c.ShowDetails? <==> v.hidden.Null? && (v.children.Null? || |v.children.nodes| == 0)
    ensures c.ShowDetails? ==> c.id == v.id
    ensures c.Toggled? ==> c.node.id == v.id && c.node.level == v.level
  {
    if v.hidden.Nodes? || (v.children.Nodes? && |v.children.nodes| > 0) then Toggled(Toggle(v))
    else ShowDetails(v.id)
  }

  /** `collapse`: a node with drawn children stashes them, collapsed in turn; a node
      without drawn children is left as it is. */
  function Collapse(v: VNode): (r: VNode)
    ensures r.id == v.id && r.level == v.level && r.children.Null?
    ensures v.children.Null? ==> r == v
    ensures v.children.Nodes? ==>
      r.hidden.Nodes? && |r.hidden.nodes| == |v.children.nodes|
      && forall i :: 0 <= i < |r.hidden.nodes| ==>
        r.hidden.nodes[i].id == v.children.nodes[i].id && r.hidden.nodes[i].level == v.children.nodes[i].level
        && r.hidden.nodes[i].children.Null?
    decreases v
  {
    if v.children.Nodes? then
      VNode(v.id, v.level, Null,
        Nodes(seq(|v.children.nodes|, i requires 0 <= i < |v.children.nodes| => Collapse(v.children.nodes[i]))))
    else v
  }

  /** The root with each drawn child collapsed; the root keeps its own stash. */
  function CollapseChildren(root: VNode): (r: VNode)
    requires root.children.Nodes?
    ensures r.id == root.id && r.children.Nodes? && |r.children.nodes| == |root.children.nodes|
    ensures forall i :: 0 <= i < |r.children.nodes| ==> r.children.nodes[i].children.Null?
  {
    root.(children := Nodes(seq(|root.children.nodes|, i requires 0 <= i < |root.children.nodes| => Collapse(root.children.nodes[i]))))
  }

  /** `collapseAll`: `this.root.children.forEach(...)` throws when the root itself is
      collapsed. */
  function CollapseAll(root: VNode): (r: Result<VNode, JsError>)
    ensures r.Failure? <==> root.children.Null?
  {
    if root.children.Null? then Failure(TypeError) else Success(CollapseChildren(root))
  }

  /** The collapse after `d3.hierarchy` in `buildHierarchy`, guarded by
      `if (this.root.children)`. */
  function InitialView(root: VNode): (r: VNode)
    ensures r.id == root.id && r.level == root.level && r.hidden == root.hidden
    ensures root.children.Null? ==> r == root
    ensures root.children.Nodes? ==> r.children.Nodes? && |r.children.nodes| == |root.children.nodes|
    ensures root.children.Nodes? ==> forall i :: 0 <= i < |r.children.nodes| ==>
      r.children.nodes[i].id == root.children.nodes[i].id && r.children.nodes[i].children.Null?
  {
    if root.children.Nodes? then CollapseChildren(root) else root
  }

  /** `collapse` called as a detached function (`forEach(this.collapse)`): `this` is
      `undefined`, so the recursive `this.collapse(child)` throws as soon as there is a
      child to recurse into. */
  function CollapseUnbound(v: VNode): (r: Result<VNode, JsError>)
    ensures r.Failure? <==> v.children.Nodes? && |v.children.nodes| > 0
    ensures r.Success? ==> r.value == Collapse(v)
  {
    if v.children.Nodes? then
      if |v.children.nodes| > 0 then Failure(TypeError)
      else Success(VNode(v.id, v.level, Null, v.children))
    else Success(v)
  }

  function CollapseEachUnbound(ns: seq<VNode>): (r: Result<seq<VNode>, JsError>)
    ensures r.Failure? <==> exists i :: 0 <= i < |ns| && CollapseUnbound(ns[i]).Failure?
    ensures r.Success? ==> |r.value| == |ns| && forall i :: 0 <= i < |ns| ==> r.value[i] == Collapse(ns[i])
    decreases |ns|
  {
    if |ns| == 0 then Success([])
    else
      match CollapseUnbound(ns[0])
      case Failure(e) => Failure(e)
      case Success(n) =>
        match CollapseEachUnbound(ns[1..])
        case Failure(e) =>
          assert forall i :: 1 <= i < |ns| ==> ns[i] == ns[1..][i - 1];
          Failure(e)
        case Success(rest) =>
          assert forall i :: 1 <= i < |ns| ==> ns[i] == ns[1..][i - 1];
          Success([n] + rest)
  }

  /** The initial collapse with the unbound callback, unguarded: it throws when the
      root has no drawn children, or when any top-level child has drawn children. */
  function InitialViewUnbound(root: VNode): (r: Result<VNode, JsError>)
    ensures r.Failure? <==> (root.children.Null?
      || exists i :: 0 <= i < |root.children.nodes| && CollapseUnbound(root.children.nodes[i]).Failure?)
    ensures r.Success? ==> r.value == InitialView(root)
  {
    if root.children.Null? then Failure(TypeError)
    else
      match CollapseEachUnbound(root.children.nodes)
      case Failure(e) => Failure(e)
      case Success(ns) =>
        assert ns == seq(|root.children.nodes|, i requires 0 <= i < |root.children.nodes| => Collapse(root.children.nodes[i]));
        Success(root.(children := Nodes(ns)))
  }

  /** `expandAll`: every node reachable through drawn children, as listed before the
      loop starts, has its stash drawn; nodes that only become drawn during the loop
      are not visited. */
  function ExpandAll(v: VNode): (r: VNode)
    ensures r.id == v.id && r.level == v.level && r.hidden.Null?
    ensures v.hidden.Nodes? ==> r.children == v.hidden
    ensures v.hidden.Null? && v.children.Nodes? ==>
      r.children.Nodes? && |r.children.nodes| == |v.children.nodes|
      && forall i :: 0 <= i < |r.children.nodes| ==>
        r.children.nodes[i].id == v.children.nodes[i].id && r.children.nodes[i].level == v.children.nodes[i].level
        && r.children.nodes[i].hidden.Null?
    ensures v.hidden.Null? && v.children.Null? ==> r == v
    decreases v
  {
    if v.hidden.Nodes? then VNode(v.id, v.level, v.hidden, Null)
    else if v.children.Nodes? then
      v.(children := Nodes(seq(|v.children.nodes|, i requires 0 <= i < |v.children.nodes| => ExpandAll(v.children.nodes[i]))))
    else v
  }

  /** `root.descendants().length`: the nodes reachable through drawn children, root
      included. */
  function Total(v: VNode): (t: nat)
    ensures t >= 1 && (v.children.Nodes? ==> t >= 1 + |v.children.nodes|)
    decreases v, 1
  {
    1 + (if v.children.Nodes? then TotalOf(v.children.nodes) else 0)
  }

  function TotalOf(ns: seq<VNode>): (t: nat)
    ensures t >= |ns|
    decreases ns, 0
  {
    if |ns| == 0 then 0 else Total(ns[0]) + TotalOf(ns[1..])
  }

  /** `descendants().filter(d => !d._children).length`: the reachable nodes without a
      stash. */
  function Visible(v: VNode): (c: nat)
    ensures c <= Total(v)
    decreases v, 1
  {
    (if v.hidden.Null? then 1 else 0) + (if v.children.Nodes? then VisibleOf(v.children.nodes) else 0)
  }

  function VisibleOf(ns: seq<VNode>): (c: nat)
    ensures c <= TotalOf(ns)
    decreases ns, 0
  {
    if |ns| == 0 then 0 else Visible(ns[0]) + VisibleOf(ns[1..])
  }

  /** `truncateText` of the chart: a missing or empty text (falsy) gives the empty
      string, any other text is truncated. */
  function TruncateLabel(text: Option<string>, maxLength: int): (r: string)
    ensures text.None? ==> r == ""
    ensures text.Some? && text.value != "" ==> r == Truncate(text.value, maxLength)
    ensures text.Some? && text.value == "" ==> r == ""
  {
    if text.None? || text.value == "" then "" else Truncate(text.value, maxLength)
  }

  /** `getNodeRadius` of the chart: 8, 12, 10, 8, 6 for levels 0 to 4, 6 deeper, and 6
      for a negative level (the table has no entry for it). */
  function NodeRadius(level: int): (r: int)
    ensures r == 12 <==> level == 1
    ensures r == 10 <==> level == 2
    ensures r == 8 <==> level == 0 || level == 3
    ensures r == 6 <==> level < 0 || level >= 4
  {
    var k := if level < 4 then level else 4;
    if k == 0 then 8
    else if k == 1 then 12
    else if k == 2 then 10
    else if k == 3 then 8
    else 6
  }
}
