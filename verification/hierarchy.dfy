/** The data-driven tree builder of the organisational chart: raw entity rows are
    normalised, roots are inferred from `oversees` edges, and each root's subtree is
    built recursively from `oversees` / `reports_to` edges, then wrapped under a
    synthetic super-root and one container per jurisdiction.

    The recursion has no visited set and no cycle guard, so it runs forever (until the
    JavaScript stack overflows) on a cyclic edge set. The model makes that explicit
    with fuel: `None` means "does not finish within `fuel` nested calls". */
module HierarchyBuilder {
  import opened Wrappers
  import opened Text
  import opened Seqs
  import opened Classify

  /** One row of the entity table, restricted to the columns the builder reads. */
  datatype RawEntity = RawEntity(
    id: string,
    name: string,
    typeLabel: string,
    jurisdiction: string,
    currentMembers: Option<string>)

  /** An entry of the hard-coded leadership table. */
  datatype Leader = Leader(personName: string, title: string)

  type LeadershipMap = map<string, Leader>

  /** An entity after `processEntitiesWithLeadership`. */
  datatype OrgEntity = OrgEntity(
    id: string,
    name: string,
    typeLabel: string,
    currentMembers: Option<string>,
    personName: Option<string>,
    displayTitle: string,
    jurisdiction: Jurisdiction,
    entityType: EntityType)

  /** JavaScript `a || b` on strings: the empty string is falsy. */
  function OrElse(a: string, b: string): string {
    if a != "" then a else b
  }

  function ProcessEntity(leaders: LeadershipMap, e: RawEntity): OrgEntity {
    var person := if e.id in leaders then leaders[e.id].personName else "";
    var title := if e.id in leaders then leaders[e.id].title else "";
    OrgEntity(
      e.id, e.name, e.typeLabel, e.currentMembers,
      if person != "" then Some(person) else None,
      OrElse(title, e.typeLabel),
      JurisdictionOf(e.jurisdiction),
      TreeEntityType(e.typeLabel))
  }

  /** `processEntitiesWithLeadership`: one record per row, in row order. */
  function ProcessEntities(leaders: LeadershipMap, es: seq<RawEntity>): (r: seq<OrgEntity>)
    ensures |r| == |es|
    ensures forall i :: 0 <= i < |es| ==>
      r[i].id == es[i].id && r[i].name == es[i].name && r[i].typeLabel == es[i].typeLabel
      && r[i].currentMembers == es[i].currentMembers
      && r[i].jurisdiction == JurisdictionOf(es[i].jurisdiction)
      && r[i].entityType == TreeEntityType(es[i].typeLabel)
    ensures forall i :: 0 <= i < |es| && es[i].id !in leaders ==>
      r[i].personName == None && r[i].displayTitle == es[i].typeLabel
    ensures forall i :: 0 <= i < |es| && es[i].id in leaders ==>
      (r[i].personName == None <==> leaders[es[i].id].personName == "")
      && (r[i].personName.Some? ==> r[i].personName.value == leaders[es[i].id].personName)
      && (leaders[es[i].id].title != "" ==> r[i].displayTitle == leaders[es[i].id].title)
      && (leaders[es[i].id].title == "" ==> r[i].displayTitle == es[i].typeLabel)
  {
    seq(|es|, i requires 0 <= i < |es| => ProcessEntity(leaders, es[i]))
  }

  /** One row of the relationship table, restricted to the columns the builder reads. */
  datatype Edge = Edge(source: string, target: string, relType: string)

  predicate IsStructural(e: Edge) {
    e.relType == "oversees" || e.relType == "reports_to"
  }

  /** The hierarchical relationships: `oversees` and `reports_to` only. */
  function StructuralEdges(rels: seq<Edge>): seq<Edge> {
    Filter(IsStructural, rels)
  }

  /** The id of the child an edge gives the entity `pid`: the target of an `oversees`
      edge from `pid`, or the source of a `reports_to` edge into `pid`. */
  function ChildOf(e: Edge, pid: string): Option<string> {
    if (e.relType == "oversees" && e.source == pid) || (e.relType == "reports_to" && e.target == pid) then
      Some(if e.relType == "oversees" then e.target else e.source)
    else None
  }

  /** `governmentData.find(e => e.id === id)`: the first entity with that id. */
  function Find(ents: seq<OrgEntity>, id: string): (r: Option<OrgEntity>)
    ensures r.Some? ==> r.value in ents && r.value.id == id
    ensures r.None? <==> forall k :: 0 <= k < |ents| ==> ents[k].id != id
    decreases |ents|
  {
    if |ents| == 0 then None
    else if ents[0].id == id then Some(ents[0])
    else Find(ents[1..], id)
  }

  /** `find` returns the first match: the entity at the first position holding the id. */
  lemma {:induction false} FindIsFirst(ents: seq<OrgEntity>, id: string, k: nat)
    requires k < |ents| && ents[k].id == id
    requires forall j :: 0 <= j < k ==> ents[j].id != id
    ensures Find(ents, id) == Some(ents[k])
    decreases |ents|
  {
    if k > 0 {
      assert ents[0].id != id;
      assert ents[1..][k - 1] == ents[k];
      FindIsFirst(ents[1..], id, k - 1);
    }
  }

  /** A node of the built hierarchy (entity node, jurisdiction container or super-root). */
  datatype HNode = HNode(
    id: string,
    name: string,
    jurisdiction: string,
    displayTitle: Option<string>,
    personName: Option<string>,
    level: int,
    children: seq<HNode>)

  /** The node record `buildNode` returns for an entity. */
  function EntityNode(e: OrgEntity, level: int, children: seq<HNode>): HNode {
    HNode(
      e.id, e.name, JurisdictionName(e.jurisdiction),
      Some(OrElse(e.displayTitle, e.typeLabel)),
      if e.personName.Some? then e.personName
      else if e.currentMembers.Some? && e.currentMembers.value != "" then e.currentMembers
      else None,
      level, children)
  }

  /** `buildNode(entity, level)` with at most `fuel` nested calls. */
  function BuildNode(ents: seq<OrgEntity>, rels: seq<Edge>, e: OrgEntity, level: int, fuel: nat): (r: Option<HNode>)
    ensures r.Some? ==> r.value.id == e.id && r.value.name == e.name && r.value.level == level
    decreases fuel, 1, 0
  {
    if fuel == 0 then None
    else
      match BuildChildren(ents, rels, e.id, rels, level + 1, fuel - 1)
      case None => None
      case Some(kids) => Some(EntityNode(e, level, kids))
  }

  /** The children `buildNode` derives for `pid` from the edges `pending`, in edge order;
      an edge whose child id names no entity contributes nothing. */
  function BuildChildren(ents: seq<OrgEntity>, rels: seq<Edge>, pid: string, pending: seq<Edge>, level: int, fuel: nat): (r: Option<seq<HNode>>)
    ensures r.Some? ==> |r.value| <= |pending|
    ensures r.Some? ==> forall i :: 0 <= i < |r.value| ==> r.value[i].level == level
    decreases fuel + 1, 0, |pending|
  {
    if |pending| == 0 then Some([])
    else
      var rest := BuildChildren(ents, rels, pid, pending[1..], level, fuel);
      match ChildOf(pending[0], pid)
      case None => rest
      case Some(cid) =>
        match Find(ents, cid)
        case None => rest
        case Some(c) =>
          match BuildNode(ents, rels, c, level, fuel)
          case None => None
          case Some(n) =>
            match rest
            case None => None
            case Some(ns) => Some([n] + ns)
  }

  /** Some `oversees` edge targets `id`. */
  predicate Overseen(rels: seq<Edge>, id: string) {
    exists i :: 0 <= i < |rels| && rels[i].relType == "oversees" && rels[i].target == id
  }

  /** The root entities of the jurisdiction named `jur`: those no `oversees` edge targets. */
  function Roots(ents: seq<OrgEntity>, rels: seq<Edge>, jur: string): (r: seq<OrgEntity>)
    ensures IsSubsequence(r, ents)
    ensures forall i :: 0 <= i < |r| ==> JurisdictionName(r[i].jurisdiction) == jur && !Overseen(rels, r[i].id)
  {
    FilterIsSubsequence(IsRootOf(rels, jur), ents);
    Filter(IsRootOf(rels, jur), ents)
  }

  /** Belongs to the jurisdiction named `jur` and is not overseen. */
  function IsRootOf(rels: seq<Edge>, jur: string): OrgEntity -> bool {
    (e: OrgEntity) => JurisdictionName(e.jurisdiction) == jur && !Overseen(rels, e.id)
  }

  /** `rootEntities.map(entity => buildNode(entity))`. */
  function BuildForest(ents: seq<OrgEntity>, rels: seq<Edge>, roots: seq<OrgEntity>, fuel: nat): Option<seq<HNode>>
    decreases |roots|
  {
    if |roots| == 0 then Some([])
    else
      match BuildNode(ents, rels, roots[0], 0, fuel)
      case None => None
      case Some(n) =>
        match BuildForest(ents, rels, roots[1..], fuel)
        case None => None
        case Some(ns) => Some([n] + ns)
  }

  /** `buildHierarchyFromData(jurisdiction)`: `[]` when either table failed to load. */
  function FromData(ents: Option<seq<OrgEntity>>, rels: Option<seq<Edge>>, jur: string, fuel: nat): Option<seq<HNode>> {
    if ents.None? || rels.None? then Some([])
    else
      var hier := StructuralEdges(rels.value);
      BuildForest(ents.value, hier, Roots(ents.value, hier, jur), fuel)
  }

  /** The three container labels, in the order the containers are pushed. */
  const ContainerNames: seq<string> := ["City of San Diego", "County of San Diego", "Regional Authorities"]
  const ContainerIds: seq<string> := ["city-root", "county-root", "regional-root"]
  const Jurisdictions: seq<Jurisdiction> := [City, County, Regional]

  function Container(k: nat, kids: seq<HNode>): HNode
    requires k < 3
  {
    HNode(ContainerIds[k], ContainerNames[k], JurisdictionName(Jurisdictions[k]), None, None, 1, kids)
  }

  function SuperRoot(kids: seq<HNode>): HNode {
    HNode("root", "San Diego Government", "all", None, None, 0, kids)
  }

  /** Every child sits exactly one level below its parent, all the way down. */
  predicate LevelsConsistent(n: HNode)
    decreases n
  {
    forall i :: 0 <= i < |n.children| ==>
      n.children[i].level == n.level + 1 && LevelsConsistent(n.children[i])
  }

  /** `entity => ({ ...entity, level: entity.level + 2 })`: only the node itself moves,
      so a level-consistent root with children stops being consistent. */
  function ShiftTopLevel(ns: seq<HNode>): (r: seq<HNode>)
    ensures |r| == |ns|
    ensures forall i :: 0 <= i < |ns| ==>
      r[i].id == ns[i].id && r[i].name == ns[i].name && r[i].children == ns[i].children
      && r[i].level == ns[i].level + 2
    ensures forall i :: 0 <= i < |ns| && |ns[i].children| > 0 && LevelsConsistent(ns[i]) ==>
      !LevelsConsistent(r[i])
  {
    var r := seq(|ns|, i requires 0 <= i < |ns| => ns[i].(level := ns[i].level + 2));
    assert forall i :: 0 <= i < |ns| && |ns[i].children| > 0 && LevelsConsistent(ns[i]) ==>
      r[i].children[0].level == ns[i].level + 1 != r[i].level + 1;
    r
  }

  /** A container per non-empty jurisdiction list, in city, county, regional order. */
  function Containers(lists: seq<seq<HNode>>, shift: seq<HNode> -> seq<HNode>): (r: seq<HNode>)
    requires |lists| == 3
    ensures |r| <= 3 && (|r| == 0 <==> |lists[0]| == 0 && |lists[1]| == 0 && |lists[2]| == 0)
    ensures forall i :: 0 <= i < |r| ==> r[i].level == 1
  {
    (if |lists[0]| > 0 then [Container(0, shift(lists[0]))] else [])
    + (if |lists[1]| > 0 then [Container(1, shift(lists[1]))] else [])
    + (if |lists[2]| > 0 then [Container(2, shift(lists[2]))] else [])
  }

  /** The outcome of `buildHierarchy`: returned early without a root, never finished,
      or a tree. */
  datatype Build = NotLoaded | Diverges | Built(tree: HNode)

  /** The jurisdiction strings `buildHierarchy` passes to `buildHierarchyFromData`. */
  const QueriedJurisdictions: seq<string> := ["City of San Diego", "County of San Diego", "Regional"]

  /** `buildHierarchy` as written. */
  function BuildHierarchy(ents: Option<seq<OrgEntity>>, rels: Option<seq<Edge>>, fuel: nat): (r: Build)
    ensures r.NotLoaded? <==> ents.None? || rels.None?
    ensures r.Built? ==> r.tree.id == "root" && r.tree.level == 0 && |r.tree.children| <= 3
  {
    if ents.None? || rels.None? then NotLoaded
    else
      var city := FromData(ents, rels, QueriedJurisdictions[0], fuel);
      var county := FromData(ents, rels, QueriedJurisdictions[1], fuel);
      var regional := FromData(ents, rels, QueriedJurisdictions[2], fuel);
      if city.None? || county.None? || regional.None? then Diverges
      else Built(SuperRoot(Containers([city.value, county.value, regional.value], ShiftTopLevel)))
  }

  /** Adds `k` to the level of a node and of every node below it; nothing else changes. */
  function ShiftSubtree(n: HNode, k: int): (r: HNode)
    ensures r.id == n.id && r.level == n.level + k && |r.children| == |n.children|
    ensures r.name == n.name && r.jurisdiction == n.jurisdiction
      && r.displayTitle == n.displayTitle && r.personName == n.personName
    ensures forall i :: 0 <= i < |n.children| ==> r.children[i].id == n.children[i].id
    decreases n
  {
    n.(level := n.level + k,
       children := seq(|n.children|, i requires 0 <= i < |n.children| => ShiftSubtree(n.children[i], k)))
  }

  /** Moving a subtree back undoes the move: every node, and every field but the level,
      is the original one. */
  lemma {:induction false} ShiftInverse(n: HNode, k: int)
    ensures ShiftSubtree(ShiftSubtree(n, k), -k) == n
    decreases n
  {
    var back := ShiftSubtree(ShiftSubtree(n, k), -k);
    forall i | 0 <= i < |n.children|
      ensures back.children[i] == n.children[i]
    {
      ShiftInverse(n.children[i], k);
    }
    assert back.children == n.children;
  }

  /** Moving a whole subtree keeps its levels consistent. */
  lemma {:induction false} ShiftKeepsLevels(n: HNode, k: int)
    requires LevelsConsistent(n)
    ensures LevelsConsistent(ShiftSubtree(n, k))
    decreases n
  {
    forall i | 0 <= i < |n.children|
      ensures ShiftSubtree(n, k).children[i].level == ShiftSubtree(n, k).level + 1
      ensures LevelsConsistent(ShiftSubtree(n, k).children[i])
    {
      ShiftKeepsLevels(n.children[i], k);
    }
  }

  /** Every root moved two levels down with its whole subtree: ids and child counts are
      kept, moving back two levels gives the original subtree, and a level-consistent
      subtree stays consistent. */
  function ShiftSubtrees(ns: seq<HNode>): (r: seq<HNode>)
    ensures |r| == |ns|
    ensures forall i :: 0 <= i < |ns| ==>
      r[i].id == ns[i].id && r[i].level == ns[i].level + 2 && |r[i].children| == |ns[i].children|
    ensures forall i :: 0 <= i < |ns| ==> ShiftSubtree(r[i], -2) == ns[i]
    ensures forall i :: 0 <= i < |ns| && LevelsConsistent(ns[i]) ==> LevelsConsistent(r[i])
  {
    var r := seq(|ns|, i requires 0 <= i < |ns| => ShiftSubtree(ns[i], 2));
    forall i | 0 <= i < |ns|
      ensures ShiftSubtree(r[i], -2) == ns[i]
      ensures LevelsConsistent(ns[i]) ==> LevelsConsistent(r[i])
    {
      ShiftInverse(ns[i], 2);
      if LevelsConsistent(ns[i]) {
        ShiftKeepsLevels(ns[i], 2);
      }
    }
    r
  }

  /** `buildHierarchy` with the two evident slips corrected: each jurisdiction is queried
      by the normalised name the entities carry, and whole subtrees move under their
      container. */
  function BuildHierarchyCorrected(ents: Option<seq<OrgEntity>>, rels: Option<seq<Edge>>, fuel: nat): (r: Build)
    ensures r.NotLoaded? <==> ents.None? || rels.None?
    ensures r.Built? ==> r.tree.id == "root" && r.tree.level == 0 && |r.tree.children| <= 3
    ensures r.Built? ==> forall i :: 0 <= i < |r.tree.children| ==> r.tree.children[i].level == 1
  {
    if ents.None? || rels.None? then NotLoaded
    else
      var city := FromData(ents, rels, JurisdictionName(City), fuel);
      var county := FromData(ents, rels, JurisdictionName(County), fuel);
      var regional := FromData(ents, rels, JurisdictionName(Regional), fuel);
      if city.None? || county.None? || regional.None? then Diverges
      else Built(SuperRoot(Containers([city.value, county.value, regional.value], ShiftSubtrees)))
  }
}
