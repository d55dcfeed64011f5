/** What the data-driven builder computes: the shape of every node it returns, when it
    finishes and when it cannot, how roots are chosen, and what the chart looks like as
    written and once corrected. */
module HierarchyProofs {
  import opened Wrappers
  import opened Seqs
  import opened Classify
  import opened HierarchyBuilder

  function Ids(ns: seq<HNode>): seq<string> {
    seq(|ns|, i requires 0 <= i < |ns| => ns[i].id)
  }

  function EntityIds(es: seq<OrgEntity>): seq<string> {
    seq(|es|, i requires 0 <= i < |es| => es[i].id)
  }

  /** The edge gives `pid` a child, and that child id names an entity. */
  predicate Resolvable(ents: seq<OrgEntity>, pid: string, e: Edge) {
    ChildOf(e, pid).Some? && Find(ents, ChildOf(e, pid).value).Some?
  }

  /** Reference definition of a node's child ids: the child ends of the edges that
      resolve, in edge order, duplicates kept. */
  function ExpectedChildIds(ents: seq<OrgEntity>, rels: seq<Edge>, pid: string): seq<string> {
    var es := Filter((e: Edge) => Resolvable(ents, pid, e), rels);
    seq(|es|, i requires 0 <= i < |es| => ChildOf(es[i], pid).value)
  }

  lemma ExpectedChildIdsUnfold(ents: seq<OrgEntity>, pending: seq<Edge>, pid: string)
    requires |pending| > 0
    ensures ExpectedChildIds(ents, pending, pid)
      == (if Resolvable(ents, pid, pending[0]) then [ChildOf(pending[0], pid).value] else [])
         + ExpectedChildIds(ents, pending[1..], pid)
  {
  }

  /** What `buildNode` looks up: finding an id among the processed entities gives the
      processed record of the first raw row with that id, and nothing exactly when no
      raw row has it. */
  lemma FindProcessed(leaders: LeadershipMap, es: seq<RawEntity>, id: string)
    ensures Find(ProcessEntities(leaders, es), id).None? <==> forall k :: 0 <= k < |es| ==> es[k].id != id
    ensures forall k :: 0 <= k < |es| && es[k].id == id && (forall j :: 0 <= j < k ==> es[j].id != id) ==>
      Find(ProcessEntities(leaders, es), id) == Some(ProcessEntity(leaders, es[k]))
  {
    var r := ProcessEntities(leaders, es);
    forall k | 0 <= k < |es| && es[k].id == id && (forall j :: 0 <= j < k ==> es[j].id != id)
      ensures Find(r, id) == Some(ProcessEntity(leaders, es[k]))
    {
      FindIsFirst(r, id, k);
    }
  }

  /** A node `buildNode` returns carries the entity's id and the requested level, its
      children are exactly the resolvable child edges in edge order, and levels grow by
      one per generation throughout. */
  lemma {:induction false} BuildNodeShape(ents: seq<OrgEntity>, rels: seq<Edge>, e: OrgEntity, level: int, fuel: nat)
    requires BuildNode(ents, rels, e, level, fuel).Some?
    ensures var n := BuildNode(ents, rels, e, level, fuel).value;
      n.id == e.id && n.level == level && n.name == e.name
      && Ids(n.children) == ExpectedChildIds(ents, rels, e.id)
      && LevelsConsistent(n)
    decreases fuel, 1, 0
  {
    BuildChildrenShape(ents, rels, e.id, rels, level + 1, fuel - 1);
  }

  /** What the chart shows for a built node of a processed row: the row's name and
      jurisdiction, the leader's name, else the row's non-empty current members, else
      no person, and the leader's non-empty title, else the row's type. */
  lemma BuildNodeShows(leaders: LeadershipMap, ents: seq<OrgEntity>, rels: seq<Edge>, raw: RawEntity, level: int, fuel: nat)
    requires BuildNode(ents, rels, ProcessEntity(leaders, raw), level, fuel).Some?
    ensures var n := BuildNode(ents, rels, ProcessEntity(leaders, raw), level, fuel).value;
      n.id == raw.id && n.name == raw.name && n.level == level
      && n.jurisdiction == JurisdictionName(JurisdictionOf(raw.jurisdiction))
      && n.personName == (
        if raw.id in leaders && leaders[raw.id].personName != "" then Some(leaders[raw.id].personName)
        else if raw.currentMembers.Some? && raw.currentMembers.value != "" then raw.currentMembers
        else None)
      && n.displayTitle == Some(
        if raw.id in leaders && leaders[raw.id].title != "" then leaders[raw.id].title else raw.typeLabel)
  {
  }

  lemma {:induction false} BuildChildrenShape(ents: seq<OrgEntity>, rels: seq<Edge>, pid: string, pending: seq<Edge>, level: int, fuel: nat)
    requires BuildChildren(ents, rels, pid, pending, level, fuel).Some?
    ensures var ks := BuildChildren(ents, rels, pid, pending, level, fuel).value;
      Ids(ks) == ExpectedChildIds(ents, pending, pid)
      && forall i :: 0 <= i < |ks| ==> ks[i].level == level && LevelsConsistent(ks[i])
    decreases fuel + 1, 0, |pending|
  {
    if |pending| > 0 {
      ExpectedChildIdsUnfold(ents, pending, pid);
      BuildChildrenShape(ents, rels, pid, pending[1..], level, fuel);
      var rest := BuildChildren(ents, rels, pid, pending[1..], level, fuel);
      match ChildOf(pending[0], pid)
      case None =>
        assert !Resolvable(ents, pid, pending[0]);
      case Some(cid) =>
        match Find(ents, cid)
        case None =>
          assert !Resolvable(ents, pid, pending[0]);
        case Some(c) =>
          assert Resolvable(ents, pid, pending[0]);
          BuildNodeShape(ents, rels, c, level, fuel);
          var n := BuildNode(ents, rels, c, level, fuel).value;
          assert BuildChildren(ents, rels, pid, pending, level, fuel).value == [n] + rest.value;
          ConsShape(n, rest.value, level);
    }
  }

  /** Putting a well-levelled node in front of well-levelled siblings. */
  lemma ConsShape(n: HNode, ns: seq<HNode>, level: int)
    requires n.level == level && LevelsConsistent(n)
    requires forall i :: 0 <= i < |ns| ==> ns[i].level == level && LevelsConsistent(ns[i])
    ensures Ids([n] + ns) == [n.id] + Ids(ns)
    ensures forall i :: 0 <= i < |[n] + ns| ==> ([n] + ns)[i].level == level && LevelsConsistent(([n] + ns)[i])
  {
    var ks := [n] + ns;
    assert forall i :: 1 <= i < |ks| ==> ks[i] == ns[i - 1];
  }

  /** Every edge between ranked ids goes from a higher rank to a strictly lower one. */
  ghost predicate EdgesRanked(rels: seq<Edge>, rank: map<string, nat>) {
    forall i, p :: 0 <= i < |rels| && p in rank && ChildOf(rels[i], p).Some? && ChildOf(rels[i], p).value in rank
      ==> rank[ChildOf(rels[i], p).value] < rank[p]
  }

  /** The parent/child graph is acyclic, witnessed by a rank on every entity id. */
  ghost predicate Ranked(ents: seq<OrgEntity>, rels: seq<Edge>, rank: map<string, nat>) {
    (forall k :: 0 <= k < |ents| ==> ents[k].id in rank) && EdgesRanked(rels, rank)
  }

  /** On acyclic data, `buildNode` finishes once it may nest deeper than the entity's rank. */
  lemma {:induction false} BuildNodeFinishes(ents: seq<OrgEntity>, rels: seq<Edge>, e: OrgEntity, level: int, fuel: nat, rank: map<string, nat>)
    requires Ranked(ents, rels, rank) && e.id in rank && fuel > rank[e.id]
    ensures BuildNode(ents, rels, e, level, fuel).Some?
    decreases fuel, 1, 0
  {
    BuildChildrenFinishes(ents, rels, e.id, rels, level + 1, fuel - 1, rank);
  }

  lemma {:induction false} BuildChildrenFinishes(ents: seq<OrgEntity>, rels: seq<Edge>, pid: string, pending: seq<Edge>, level: int, fuel: nat, rank: map<string, nat>)
    requires Ranked(ents, rels, rank) && EdgesRanked(pending, rank) && pid in rank && fuel >= rank[pid]
    ensures BuildChildren(ents, rels, pid, pending, level, fuel).Some?
    decreases fuel + 1, 0, |pending|
  {
    if |pending| > 0 {
      assert EdgesRanked(pending[1..], rank) by {
        forall i, p | 0 <= i < |pending[1..]| && p in rank && ChildOf(pending[1..][i], p).Some? && ChildOf(pending[1..][i], p).value in rank
          ensures rank[ChildOf(pending[1..][i], p).value] < rank[p]
        {
          assert pending[1..][i] == pending[i + 1];
        }
      }
      BuildChildrenFinishes(ents, rels, pid, pending[1..], level, fuel, rank);
      match ChildOf(pending[0], pid)
      case None =>
      case Some(cid) =>
        match Find(ents, cid)
        case None =>
        case Some(c) =>
          var k :| 0 <= k < |ents| && ents[k] == c;
          assert c.id in rank;
          assert rank[cid] < rank[pid];
          BuildNodeFinishes(ents, rels, c, level, fuel, rank);
    }
  }

  /** One child that never finishes makes the whole child list never finish. */
  lemma {:induction false} ChildDivergesAll(ents: seq<OrgEntity>, rels: seq<Edge>, pid: string, pending: seq<Edge>, level: int, fuel: nat, k: nat)
    requires k < |pending| && Resolvable(ents, pid, pending[k])
    requires BuildNode(ents, rels, Find(ents, ChildOf(pending[k], pid).value).value, level, fuel).None?
    ensures BuildChildren(ents, rels, pid, pending, level, fuel).None?
    decreases |pending|
  {
    if k > 0 {
      ChildDivergesAll(ents, rels, pid, pending[1..], level, fuel, k - 1);
    }
  }

  /** There is no cycle guard: an entity that oversees itself is never finished, whatever
      the nesting allowance. */
  lemma {:induction false} SelfOversightDiverges(ents: seq<OrgEntity>, rels: seq<Edge>, e: OrgEntity, level: int, fuel: nat)
    requires Edge(e.id, e.id, "oversees") in rels
    requires Find(ents, e.id).Some?
    ensures BuildNode(ents, rels, e, level, fuel).None?
    decreases fuel
  {
    if fuel > 0 {
      var k :| 0 <= k < |rels| && rels[k] == Edge(e.id, e.id, "oversees");
      var c := Find(ents, e.id).value;
      SelfOversightDiverges(ents, rels, c, level + 1, fuel - 1);
      ChildDivergesAll(ents, rels, e.id, rels, level + 1, fuel - 1, k);
    }
  }

  /** There is no de-duplication: the same edge listed twice yields the child twice. */
  lemma RepeatedEdgeRepeatsChild(ents: seq<OrgEntity>, e: OrgEntity, edge: Edge, level: int, fuel: nat)
    requires Resolvable(ents, e.id, edge)
    requires BuildNode(ents, [edge, edge], e, level, fuel).Some?
    ensures var cid := ChildOf(edge, e.id).value;
      Ids(BuildNode(ents, [edge, edge], e, level, fuel).value.children) == [cid, cid]
  {
    BuildNodeShape(ents, [edge, edge], e, level, fuel);
    ExpectedChildIdsUnfold(ents, [edge, edge], e.id);
    ExpectedChildIdsUnfold(ents, [edge], e.id);
  }

  /** An edge whose child id names no entity contributes no child. */
  lemma DanglingEdgeIgnored(ents: seq<OrgEntity>, e: OrgEntity, edge: Edge, rels: seq<Edge>)
    requires ChildOf(edge, e.id).Some? && forall k :: 0 <= k < |ents| ==> ents[k].id != ChildOf(edge, e.id).value
    ensures ExpectedChildIds(ents, [edge] + rels, e.id) == ExpectedChildIds(ents, rels, e.id)
  {
    ExpectedChildIdsUnfold(ents, [edge] + rels, e.id);
    assert ([edge] + rels)[1..] == rels;
  }

  /** An entity is a root of a jurisdiction exactly when it belongs to it and no
      `oversees` edge targets it. */
  lemma RootMembership(ents: seq<OrgEntity>, rels: seq<Edge>, jur: string, e: OrgEntity)
    ensures e in Roots(ents, rels, jur)
      <==> e in ents && JurisdictionName(e.jurisdiction) == jur && !Overseen(rels, e.id)
  {
    var r := Roots(ents, rels, jur);
    if e in r {
      var i :| 0 <= i < |r| && r[i] == e;
    }
    if e in ents && JurisdictionName(e.jurisdiction) == jur && !Overseen(rels, e.id) {
      var i :| 0 <= i < |ents| && ents[i] == e;
    }
  }

  /** `reports_to` edges never change which entities are roots. */
  lemma ReportsToKeepsRoots(ents: seq<OrgEntity>, rels: seq<Edge>, jur: string, s: string, t: string)
    ensures Roots(ents, rels + [Edge(s, t, "reports_to")], jur) == Roots(ents, rels, jur)
  {
    var rels' := rels + [Edge(s, t, "reports_to")];
    forall id: string
      ensures Overseen(rels', id) == Overseen(rels, id)
    {
      if Overseen(rels', id) {
        var i :| 0 <= i < |rels'| && rels'[i].relType == "oversees" && rels'[i].target == id;
        assert rels[i] == rels'[i];
      }
      if Overseen(rels, id) {
        var i :| 0 <= i < |rels| && rels[i].relType == "oversees" && rels[i].target == id;
        assert rels'[i] == rels[i];
      }
    }
    FilterCongruent(IsRootOf(rels', jur), IsRootOf(rels, jur), ents);
  }

  /** A forest of roots that all finish comes back root for root, at level 0. */
  lemma {:induction false} ForestShape(ents: seq<OrgEntity>, rels: seq<Edge>, roots: seq<OrgEntity>, fuel: nat)
    requires BuildForest(ents, rels, roots, fuel).Some?
    ensures var ns := BuildForest(ents, rels, roots, fuel).value;
      Ids(ns) == EntityIds(roots)
      && forall i :: 0 <= i < |ns| ==> ns[i].level == 0 && LevelsConsistent(ns[i])
    decreases |roots|
  {
    if |roots| > 0 {
      BuildNodeShape(ents, rels, roots[0], 0, fuel);
      ForestShape(ents, rels, roots[1..], fuel);
      var n := BuildNode(ents, rels, roots[0], 0, fuel).value;
      var ns := BuildForest(ents, rels, roots[1..], fuel).value;
      assert BuildForest(ents, rels, roots, fuel).value == [n] + ns;
      assert forall i :: 0 < i < |roots| ==> EntityIds(roots)[i] == EntityIds(roots[1..])[i - 1];
    }
  }

  lemma {:induction false} ForestFinishes(ents: seq<OrgEntity>, rels: seq<Edge>, roots: seq<OrgEntity>, fuel: nat, rank: map<string, nat>)
    requires Ranked(ents, rels, rank) && forall id :: id in rank ==> rank[id] < fuel
    requires forall i :: 0 <= i < |roots| ==> roots[i] in ents
    ensures BuildForest(ents, rels, roots, fuel).Some?
    decreases |roots|
  {
    if |roots| > 0 {
      assert roots[0] in ents;
      BuildNodeFinishes(ents, rels, roots[0], 0, fuel, rank);
      ForestFinishes(ents, rels, roots[1..], fuel, rank);
    }
  }

  /** As written, the builder is asked for "City of San Diego", "County of San Diego" and
      "Regional", while every entity carries "city", "county" or "regional"; no entity
      is ever a root, and the chart is the bare super-root whatever the data. */
  lemma AsWrittenChartIsEmpty(ents: seq<OrgEntity>, rels: seq<Edge>, fuel: nat)
    ensures BuildHierarchy(Some(ents), Some(rels), fuel) == Built(SuperRoot([]))
  {
    var hier := StructuralEdges(rels);
    NoRootsUnder(ents, hier, QueriedJurisdictions[0]);
    NoRootsUnder(ents, hier, QueriedJurisdictions[1]);
    NoRootsUnder(ents, hier, QueriedJurisdictions[2]);
  }

  /** A jurisdiction string that is not one of the normalised names selects no roots. */
  lemma NoRootsUnder(ents: seq<OrgEntity>, hier: seq<Edge>, q: string)
    requires q != "city" && q != "county" && q != "regional"
    ensures Roots(ents, hier, q) == []
  {
    FilterDropsAll((e: OrgEntity) => JurisdictionName(e.jurisdiction) == q && !Overseen(hier, e.id), ents);
  }

  /** Moving only the top node of a subtree that has children breaks the level of every
      child, while moving the whole subtree keeps them consistent. */
  lemma TopOnlyShiftBreaksLevels(n: HNode)
    requires LevelsConsistent(n) && |n.children| > 0
    ensures !LevelsConsistent(ShiftTopLevel([n])[0])
    ensures LevelsConsistent(ShiftSubtree(n, 2))
  {
    var m := ShiftTopLevel([n])[0];
    assert m.children[0].level == n.level + 1 != m.level + 1;
    ShiftKeepsLevels(n, 2);
  }
}

module HierarchyCorrectedProofs {
  import opened Wrappers
  import opened Seqs
  import opened Classify
  import opened HierarchyBuilder
  import opened HierarchyProofs

  /** A container over whole-subtree-shifted, level-consistent roots is itself level
      consistent and lists those roots in order. */
  lemma ContainerShape(k: nat, ns: seq<HNode>)
    requires k < 3
    requires forall i :: 0 <= i < |ns| ==> ns[i].level == 0 && LevelsConsistent(ns[i])
    ensures var c := Container(k, ShiftSubtrees(ns));
      c.level == 1 && LevelsConsistent(c) && Ids(c.children) == Ids(ns)
      && c.jurisdiction == JurisdictionName(Jurisdictions[k])
  {
    var c := Container(k, ShiftSubtrees(ns));
    forall i | 0 <= i < |ns|
      ensures LevelsConsistent(c.children[i]) && c.children[i].level == 2
    {
      ShiftKeepsLevels(ns[i], 2);
    }
  }

  /** The forest of one jurisdiction, as the corrected builder computes it. */
  function Forest(ents: seq<OrgEntity>, rels: seq<Edge>, j: Jurisdiction, fuel: nat): Option<seq<HNode>> {
    var hier := StructuralEdges(rels);
    BuildForest(ents, hier, Roots(ents, hier, JurisdictionName(j)), fuel)
  }

  /** On acyclic data with enough nesting allowance the corrected builder finishes. */
  lemma CorrectedFinishes(ents: seq<OrgEntity>, rels: seq<Edge>, fuel: nat, rank: map<string, nat>)
    requires Ranked(ents, StructuralEdges(rels), rank)
    requires forall id :: id in rank ==> rank[id] < fuel
    ensures BuildHierarchyCorrected(Some(ents), Some(rels), fuel).Built?
  {
    var hier := StructuralEdges(rels);
    ForestFinishes(ents, hier, Roots(ents, hier, JurisdictionName(City)), fuel, rank);
    ForestFinishes(ents, hier, Roots(ents, hier, JurisdictionName(County)), fuel, rank);
    ForestFinishes(ents, hier, Roots(ents, hier, JurisdictionName(Regional)), fuel, rank);
  }

  /** Which containers there are: one for each non-empty list, and nothing else. */
  lemma ContainersMembers(lists: seq<seq<HNode>>, shift: seq<HNode> -> seq<HNode>)
    requires |lists| == 3
    ensures |Containers(lists, shift)| <= 3
    ensures forall c :: c in Containers(lists, shift) ==>
      exists k :: 0 <= k < 3 && |lists[k]| > 0 && c == Container(k, shift(lists[k]))
    ensures forall k :: 0 <= k < 3 && |lists[k]| > 0 ==> Container(k, shift(lists[k])) in Containers(lists, shift)
  {
  }

  /** The containers over three level-consistent forests: each at level 1, level
      consistent, non-empty and listing its jurisdiction's roots. */
  lemma ContainersShape(lists: seq<seq<HNode>>, roots: seq<seq<OrgEntity>>)
    requires |lists| == 3 && |roots| == 3
    requires forall k :: 0 <= k < 3 ==> Ids(lists[k]) == EntityIds(roots[k])
    requires forall k, i :: 0 <= k < 3 && 0 <= i < |lists[k]| ==> lists[k][i].level == 0 && LevelsConsistent(lists[k][i])
    ensures forall c :: c in Containers(lists, ShiftSubtrees) ==>
      c.level == 1 && LevelsConsistent(c) && |c.children| > 0
      && exists k :: 0 <= k < 3 && c.jurisdiction == JurisdictionName(Jurisdictions[k]) && Ids(c.children) == EntityIds(roots[k])
  {
    forall k | 0 <= k < 3
      ensures var c := Container(k, ShiftSubtrees(lists[k]));
        c.level == 1 && LevelsConsistent(c) && Ids(c.children) == EntityIds(roots[k])
        && c.jurisdiction == JurisdictionName(Jurisdictions[k]) && |c.children| == |lists[k]|
    {
      ContainerShape(k, lists[k]);
    }
    ContainersMembers(lists, ShiftSubtrees);
  }

  /** The tree the corrected builder returns, spelled out from its three forests. */
  lemma CorrectedTree(ents: seq<OrgEntity>, rels: seq<Edge>, fuel: nat)
    requires BuildHierarchyCorrected(Some(ents), Some(rels), fuel).Built?
    ensures Forest(ents, rels, City, fuel).Some? && Forest(ents, rels, County, fuel).Some?
      && Forest(ents, rels, Regional, fuel).Some?
    ensures BuildHierarchyCorrected(Some(ents), Some(rels), fuel).tree
      == SuperRoot(Containers([Forest(ents, rels, City, fuel).value, Forest(ents, rels, County, fuel).value,
                               Forest(ents, rels, Regional, fuel).value], ShiftSubtrees))
  {
  }

  /** The facts about the three forests the corrected chart is made of. */
  lemma ForestsShape(ents: seq<OrgEntity>, rels: seq<Edge>, fuel: nat, lists: seq<seq<HNode>>, roots: seq<seq<OrgEntity>>)
    requires |lists| == 3 && |roots| == 3
    requires forall k :: 0 <= k < 3 ==>
      roots[k] == Roots(ents, StructuralEdges(rels), JurisdictionName(Jurisdictions[k]))
      && Forest(ents, rels, Jurisdictions[k], fuel) == Some(lists[k])
    ensures forall k :: 0 <= k < 3 ==> Ids(lists[k]) == EntityIds(roots[k])
    ensures forall k, i :: 0 <= k < 3 && 0 <= i < |lists[k]| ==> lists[k][i].level == 0 && LevelsConsistent(lists[k][i])
  {
    forall k | 0 <= k < 3
      ensures Ids(lists[k]) == EntityIds(roots[k])
      ensures forall i :: 0 <= i < |lists[k]| ==> lists[k][i].level == 0 && LevelsConsistent(lists[k][i])
    {
      ForestShape(ents, StructuralEdges(rels), roots[k], fuel);
    }
  }

  /** The corrected chart is a level-0 super-root over at most three containers, with
      levels consistent throughout. */
  lemma CorrectedLevels(ents: seq<OrgEntity>, rels: seq<Edge>, fuel: nat)
    requires BuildHierarchyCorrected(Some(ents), Some(rels), fuel).Built?
    ensures var t := BuildHierarchyCorrected(Some(ents), Some(rels), fuel).tree;
      t.id == "root" && t.level == 0 && LevelsConsistent(t) && |t.children| <= 3
  {
    var hier := StructuralEdges(rels);
    var roots := [Roots(ents, hier, JurisdictionName(City)), Roots(ents, hier, JurisdictionName(County)), Roots(ents, hier, JurisdictionName(Regional))];
    CorrectedTree(ents, rels, fuel);
    var lists := [Forest(ents, rels, City, fuel).value, Forest(ents, rels, County, fuel).value, Forest(ents, rels, Regional, fuel).value];
    ForestsShape(ents, rels, fuel, lists, roots);
    ContainersShape(lists, roots);
    ContainersMembers(lists, ShiftSubtrees);
    SuperRootLevels(Containers(lists, ShiftSubtrees));
  }

  lemma SuperRootLevels(cs: seq<HNode>)
    requires forall c :: c in cs ==> c.level == 1 && LevelsConsistent(c)
    ensures LevelsConsistent(SuperRoot(cs))
  {
    forall i | 0 <= i < |cs|
      ensures cs[i].level == 1 && LevelsConsistent(cs[i])
    {
      assert cs[i] in cs;
    }
  }

  /** Each container of the corrected chart is at level 1, non-empty, and lists exactly
      the roots of its jurisdiction, in entity order. */
  lemma CorrectedContainers(ents: seq<OrgEntity>, rels: seq<Edge>, fuel: nat)
    requires BuildHierarchyCorrected(Some(ents), Some(rels), fuel).Built?
    ensures var t := BuildHierarchyCorrected(Some(ents), Some(rels), fuel).tree;
      forall c :: c in t.children ==>
        c.level == 1 && |c.children| > 0
        && Ids(c.children) == EntityIds(Roots(ents, StructuralEdges(rels), c.jurisdiction))
  {
    var hier := StructuralEdges(rels);
    var roots := [Roots(ents, hier, JurisdictionName(City)), Roots(ents, hier, JurisdictionName(County)), Roots(ents, hier, JurisdictionName(Regional))];
    CorrectedTree(ents, rels, fuel);
    var lists := [Forest(ents, rels, City, fuel).value, Forest(ents, rels, County, fuel).value, Forest(ents, rels, Regional, fuel).value];
    ForestsShape(ents, rels, fuel, lists, roots);
    ContainersShape(lists, roots);
    assert forall k :: 0 <= k < 3 ==> roots[k] == Roots(ents, hier, JurisdictionName(Jurisdictions[k]));
  }

  /** Every jurisdiction that has roots gets a container. */
  lemma CorrectedCoversJurisdictions(ents: seq<OrgEntity>, rels: seq<Edge>, fuel: nat)
    requires BuildHierarchyCorrected(Some(ents), Some(rels), fuel).Built?
    ensures var t := BuildHierarchyCorrected(Some(ents), Some(rels), fuel).tree;
      forall j: Jurisdiction :: |Roots(ents, StructuralEdges(rels), JurisdictionName(j))| > 0 ==>
        exists c :: c in t.children && c.jurisdiction == JurisdictionName(j)
  {
    var hier := StructuralEdges(rels);
    var roots := [Roots(ents, hier, JurisdictionName(City)), Roots(ents, hier, JurisdictionName(County)), Roots(ents, hier, JurisdictionName(Regional))];
    CorrectedTree(ents, rels, fuel);
    var lists := [Forest(ents, rels, City, fuel).value, Forest(ents, rels, County, fuel).value, Forest(ents, rels, Regional, fuel).value];
    ForestsShape(ents, rels, fuel, lists, roots);
    ContainersMembers(lists, ShiftSubtrees);
    var t := BuildHierarchyCorrected(Some(ents), Some(rels), fuel).tree;
    forall j: Jurisdiction | |Roots(ents, hier, JurisdictionName(j))| > 0
      ensures exists c :: c in t.children && c.jurisdiction == JurisdictionName(j)
    {
      var k := if j == City then 0 else if j == County then 1 else 2;
      assert Jurisdictions[k] == j;
      assert |lists[k]| == |Ids(lists[k])| == |EntityIds(roots[k])|;
      assert Container(k, ShiftSubtrees(lists[k])) in t.children;
    }
  }
}
