/** The hand-written chart of the second version of the organisational chart: a fixed
    tree of 31 positions under a super-root, one container per jurisdiction. The entity
    table is loaded first but only touched by a `filter` whose result is unused, so the
    tree does not depend on the data, except that the `filter` throws when loading
    failed and the table is still `null`. */
module StaticTree {
  import opened Wrappers
  import opened HierarchyBuilder
  import opened HierarchyProofs
  import opened ViewState
  import opened ViewProofs

  function Position(name: string, title: string, person: Option<string>, id: string, jur: string, level: int, kids: seq<HNode>): HNode {
    HNode(id, name, jur, Some(title), person, level, kids)
  }

  function Group(name: string, id: string, jur: string, level: int, kids: seq<HNode>): HNode {
    HNode(id, name, jur, None, None, level, kids)
  }

  /** `buildCityDepartments`. */
  const CityDepartments: seq<HNode> := [
    Position("Fire-Rescue Department", "Fire Chief", Some("Robert Logan"), "city-fire", "city", 4, []),
    Position("Police Department", "Police Chief", Some("Scott Wahl"), "city-police", "city", 4, []),
    Position("City Attorney", "City Attorney", Some("Heather Ferbert"), "city-attorney", "city", 4, []),
    Position("Public Library", "Library Director", Some("Misty Jones"), "city-library", "city", 4, []),
    Position("Planning Department", "Planning Director", None, "city-planning", "city", 4, []),
    Position("Public Works", "Public Works Director", None, "city-public-works", "city", 4, []),
    Position("Parks & Recreation", "Parks Director", None, "city-parks", "city", 4, [])]

  /** `buildCityCouncil`. */
  const CityCouncil: seq<HNode> := [
    Position("Joe LaCava", "Council President (D1)", Some("Joe LaCava"), "council-001", "city", 4, []),
    Position("Kent Lee", "Council Pro Tem (D6)", Some("Kent Lee"), "council-006", "city", 4, [])]

  /** `buildCityHierarchy`. */
  const CityTree: HNode :=
    Group("City of San Diego", "city-root", "city", 1, [
      Group("Executive Branch", "city-executive", "city", 2, [
        Position("Todd Gloria", "Mayor", Some("Todd Gloria"), "mayor-001", "city", 3, CityDepartments)]),
      Group("Legislative Branch", "city-legislative", "city", 2, [
        Group("City Council", "city-council", "city", 3, CityCouncil)])])

  /** `buildCountyDepartments`. */
  const CountyDepartments: seq<HNode> := [
    Position("Sheriff's Department", "Sheriff", Some("Kelly Martinez"), "county-sheriff", "county", 4, []),
    Position("District Attorney", "District Attorney", Some("Summer Stephan"), "county-da", "county", 4, []),
    Position("Health & Human Services", "HHSA Deputy CAO", Some("Kimberly Giardina"), "county-hhsa", "county", 4, []),
    Position("Public Works", "Public Works Director", Some("Marisa K. Barrie, PE"), "county-dpw", "county", 4, [])]

  /** `buildCountyHierarchy`. */
  const CountyTree: HNode :=
    Group("County of San Diego", "county-root", "county", 1, [
      Group("Board of Supervisors", "county-supervisors", "county", 2, [
        Position("Paloma Aguirre", "District 1 Supervisor", Some("Paloma Aguirre"), "supervisor-001", "county", 3, []),
        Position("Terra Lawson-Remer", "District 3 Supervisor", Some("Terra Lawson-Remer"), "supervisor-003", "county", 3, [])]),
      Group("County Administration", "county-admin", "county", 2, [
        Position("Ebony N. Shelton", "Chief Administrative Officer", Some("Ebony N. Shelton"), "county-cao", "county", 3, CountyDepartments)])])

  /** `buildRegionalHierarchy`. */
  const RegionalTree: HNode :=
    Group("Regional Authorities", "regional-root", "regional", 1, [
      Position("SANDAG", "CEO", Some("Mario Orso"), "sandag", "regional", 2, []),
      Position("MTS (Metropolitan Transit)", "CEO", Some("Sharon Cooney"), "mts", "regional", 2, []),
      Position("Port of San Diego", "Acting CEO", Some("Randa Coniglio"), "port", "regional", 2, []),
      Position("Airport Authority", "CEO", Some("Kimberly Becker"), "airport", "regional", 2, []),
      Position("Water Authority", "General Manager", Some("Dan Denham"), "water", "regional", 2, [])])

  const StaticChart: HNode := SuperRoot([CityTree, CountyTree, RegionalTree])

  /** `buildHierarchy` of the second version: the fixed chart, or the `TypeError` of
      `this.governmentData.filter` when the table never loaded. */
  function BuildStaticHierarchy(ents: Option<seq<OrgEntity>>): (r: Result<HNode, JsError>)
    ensures r.Failure? <==> ents.None?
    ensures r.Success? ==> r.value == StaticChart
  {
    if ents.None? then Failure(TypeError) else Success(StaticChart)
  }

  /** The positions of a tree in pre-order. */
  function Preorder(n: HNode): seq<HNode>
    decreases n, 1
  {
    [n] + PreorderOf(n.children)
  }

  function PreorderOf(ns: seq<HNode>): seq<HNode>
    decreases ns, 0
  {
    if |ns| == 0 then [] else Preorder(ns[0]) + PreorderOf(ns[1..])
  }

  /** Every position of a tree belongs to the jurisdiction `jur`. */
  predicate AllIn(n: HNode, jur: string)
    decreases n
  {
    n.jurisdiction == jur && forall i :: 0 <= i < |n.children| ==> AllIn(n.children[i], jur)
  }

  /** No two positions share an id. */
  predicate DistinctIds(ns: seq<HNode>) {
    forall i, j :: 0 <= i < j < |ns| ==> ns[i].id != ns[j].id
  }

  /** The ids of a sequence of positions, in order. */
  function IdsOf(ns: seq<HNode>): (r: seq<string>)
    ensures |r| == |ns| && forall i :: 0 <= i < |ns| ==> r[i] == ns[i].id
  {
    seq(|ns|, i requires 0 <= i < |ns| => ns[i].id)
  }

  predicate Distinct(s: seq<string>) {
    forall i, j :: 0 <= i < j < |s| ==> s[i] != s[j]
  }

  predicate Disjoint(s: seq<string>, t: seq<string>) {
    forall i, j :: 0 <= i < |s| && 0 <= j < |t| ==> s[i] != t[j]
  }

  const CityDepartmentIds: seq<string> := ["city-fire", "city-police", "city-attorney", "city-library",
    "city-planning", "city-public-works", "city-parks"]
  const CityCouncilIds: seq<string> := ["council-001", "council-006"]
  const CountyDepartmentIds: seq<string> := ["county-sheriff", "county-da", "county-hhsa", "county-dpw"]
  const SupervisorIds: seq<string> := ["supervisor-001", "supervisor-003"]
  const AuthorityIds: seq<string> := ["sandag", "mts", "port", "airport", "water"]

  const CityIds: seq<string> := ["city-root", "city-executive", "mayor-001"] + CityDepartmentIds
    + ["city-legislative", "city-council"] + CityCouncilIds
  const CountyIds: seq<string> := ["county-root", "county-supervisors"] + SupervisorIds
    + ["county-admin", "county-cao"] + CountyDepartmentIds
  const RegionalIds: seq<string> := ["regional-root"] + AuthorityIds

  /** The 31 ids of the fixed chart, in pre-order. */
  const ChartIds: seq<string> := ["root"] + CityIds + CountyIds + RegionalIds

  /** Positions without children are level consistent, and count once each. */
  lemma {:induction false} Leaves(ns: seq<HNode>)
    requires forall i :: 0 <= i < |ns| ==> ns[i].children == []
    ensures forall i :: 0 <= i < |ns| ==> LevelsConsistent(ns[i])
    ensures PreorderOf(ns) == ns
    decreases |ns|
  {
    if |ns| > 0 {
      Leaves(ns[1..]);
      assert Preorder(ns[0]) == [ns[0]];
    }
  }

  lemma {:induction false} PreorderOfPair(a: HNode, b: HNode)
    ensures PreorderOf([a, b]) == Preorder(a) + Preorder(b)
  {
    assert [a, b][1..] == [b];
    PreorderOfOne(b);
  }

  lemma {:induction false} PreorderOfOne(a: HNode)
    ensures PreorderOf([a]) == Preorder(a)
  {
    assert [a][1..] == [];
    assert PreorderOf([]) == [];
    assert Preorder(a) + [] == Preorder(a);
  }

  /** A position whose children are leaves one level down: consistent, and counting
      itself and each child once. */
  lemma {:induction false} LeafParentLevels(n: HNode)
    requires forall i :: 0 <= i < |n.children| ==> n.children[i].children == [] && n.children[i].level == n.level + 1
    ensures LevelsConsistent(n) && |Preorder(n)| == 1 + |n.children|
  {
    Leaves(n.children);
  }

  /** A position with one child one level down keeps the child's consistency and adds one. */
  lemma {:induction false} OneChildLevels(n: HNode)
    requires |n.children| == 1 && n.children[0].level == n.level + 1 && LevelsConsistent(n.children[0])
    ensures LevelsConsistent(n) && |Preorder(n)| == 1 + |Preorder(n.children[0])|
  {
    assert n.children == [n.children[0]];
    PreorderOfOne(n.children[0]);
  }

  lemma CityMayorBranch()
    ensures LevelsConsistent(CityTree.children[0]) && |Preorder(CityTree.children[0])| == 9
  {
    var exec := CityTree.children[0];
    LeafParentLevels(exec.children[0]);
    OneChildLevels(exec);
  }

  lemma CityCouncilBranch()
    ensures LevelsConsistent(CityTree.children[1]) && |Preorder(CityTree.children[1])| == 4
  {
    var leg := CityTree.children[1];
    LeafParentLevels(leg.children[0]);
    OneChildLevels(leg);
  }

  lemma CityLevels()
    ensures CityTree.level == 1 && LevelsConsistent(CityTree) && |Preorder(CityTree)| == 14
  {
    CityMayorBranch();
    CityCouncilBranch();
    PreorderOfPair(CityTree.children[0], CityTree.children[1]);
  }

  lemma CountyLevels()
    ensures CountyTree.level == 1 && LevelsConsistent(CountyTree) && |Preorder(CountyTree)| == 10
  {
    var board, admin := CountyTree.children[0], CountyTree.children[1];
    LeafParentLevels(board);
    LeafParentLevels(admin.children[0]);
    OneChildLevels(admin);
    PreorderOfPair(board, admin);
  }

  lemma RegionalLevels()
    ensures RegionalTree.level == 1 && LevelsConsistent(RegionalTree) && |Preorder(RegionalTree)| == 6
  {
    Leaves(RegionalTree.children);
  }

  /** The fixed chart: levels grow by one per generation from the level-0 super-root,
      and it holds 31 positions. */
  lemma StaticChartLevels()
    ensures StaticChart.level == 0 && LevelsConsistent(StaticChart)
    ensures |Preorder(StaticChart)| == 31
  {
    CityLevels();
    CountyLevels();
    RegionalLevels();
    assert [CityTree, CountyTree, RegionalTree][1..] == [CountyTree, RegionalTree];
    PreorderOfPair(CountyTree, RegionalTree);
  }

  lemma {:induction false} IdsOfConcat(a: seq<HNode>, b: seq<HNode>)
    ensures IdsOf(a + b) == IdsOf(a) + IdsOf(b)
  {
    assert forall i :: 0 <= i < |b| ==> (a + b)[|a| + i] == b[i];
  }

  /** A position whose children are all leaves: itself, then its children. */
  lemma {:induction false} LeafParentIds(n: HNode)
    requires forall i :: 0 <= i < |n.children| ==> n.children[i].children == []
    ensures IdsOf(Preorder(n)) == [n.id] + IdsOf(n.children)
  {
    Leaves(n.children);
    IdsOfConcat([n], n.children);
  }

  /** A position with one child: itself, then the child's subtree. */
  lemma {:induction false} OneChildIds(n: HNode)
    requires |n.children| == 1
    ensures IdsOf(Preorder(n)) == [n.id] + IdsOf(Preorder(n.children[0]))
  {
    assert n.children == [n.children[0]];
    PreorderOfOne(n.children[0]);
    IdsOfConcat([n], Preorder(n.children[0]));
  }

  /** A position with two children: itself, then each child's subtree in turn. */
  lemma {:induction false} TwoChildIds(n: HNode)
    requires |n.children| == 2
    ensures IdsOf(Preorder(n)) == [n.id] + IdsOf(Preorder(n.children[0])) + IdsOf(Preorder(n.children[1]))
  {
    assert n.children == [n.children[0], n.children[1]];
    PreorderOfPair(n.children[0], n.children[1]);
    IdsOfConcat([n], Preorder(n.children[0]) + Preorder(n.children[1]));
    IdsOfConcat(Preorder(n.children[0]), Preorder(n.children[1]));
  }

  /** A position with three children: itself, then each child's subtree in turn. */
  lemma {:induction false} ThreeChildIds(n: HNode)
    requires |n.children| == 3
    ensures IdsOf(Preorder(n)) == [n.id] + IdsOf(Preorder(n.children[0]))
      + IdsOf(Preorder(n.children[1])) + IdsOf(Preorder(n.children[2]))
  {
    var a, b, c := n.children[0], n.children[1], n.children[2];
    assert n.children == [a, b, c];
    assert [a, b, c][1..] == [b, c];
    PreorderOfPair(b, c);
    IdsOfConcat([n], Preorder(a) + Preorder(b) + Preorder(c));
    IdsOfConcat(Preorder(a) + Preorder(b), Preorder(c));
    IdsOfConcat(Preorder(a), Preorder(b));
  }

  lemma CityLeafIds()
    ensures IdsOf(CityDepartments) == CityDepartmentIds && IdsOf(CityCouncil) == CityCouncilIds
  {
  }

  lemma ExecutiveIds()
    ensures IdsOf(Preorder(CityTree.children[0])) == ["city-executive", "mayor-001"] + CityDepartmentIds
  {
    var exec := CityTree.children[0];
    CityLeafIds();
    LeafParentIds(exec.children[0]);
    OneChildIds(exec);
  }

  lemma LegislativeIds()
    ensures IdsOf(Preorder(CityTree.children[1])) == ["city-legislative", "city-council"] + CityCouncilIds
  {
    var leg := CityTree.children[1];
    CityLeafIds();
    LeafParentIds(leg.children[0]);
    OneChildIds(leg);
  }

  lemma CityPreorderIds()
    ensures IdsOf(Preorder(CityTree)) == CityIds
  {
    ExecutiveIds();
    LegislativeIds();
    TwoChildIds(CityTree);
  }

  lemma CountyLeafIds()
    ensures IdsOf(CountyDepartments) == CountyDepartmentIds
    ensures IdsOf(CountyTree.children[0].children) == SupervisorIds
  {
  }

  lemma CountyPreorderIds()
    ensures IdsOf(Preorder(CountyTree)) == CountyIds
  {
    var board, admin := CountyTree.children[0], CountyTree.children[1];
    CountyLeafIds();
    LeafParentIds(board);
    LeafParentIds(admin.children[0]);
    OneChildIds(admin);
    TwoChildIds(CountyTree);
  }

  lemma RegionalPreorderIds()
    ensures IdsOf(Preorder(RegionalTree)) == RegionalIds
  {
    assert IdsOf(RegionalTree.children) == AuthorityIds;
    LeafParentIds(RegionalTree);
  }

  /** The pre-order of the fixed chart carries the 31 ids of `ChartIds`. */
  lemma StaticChartIds()
    ensures IdsOf(Preorder(StaticChart)) == ChartIds && |ChartIds| == 31
  {
    CityPreorderIds();
    CountyPreorderIds();
    RegionalPreorderIds();
    ThreeChildIds(StaticChart);
  }

  lemma {:induction false} DistinctConcat(s: seq<string>, t: seq<string>)
    requires Distinct(s) && Distinct(t) && Disjoint(s, t)
    ensures Distinct(s + t)
  {
    forall i, j | 0 <= i < j < |s + t|
      ensures (s + t)[i] != (s + t)[j]
    {
      if j >= |s| && i >= |s| {
        assert (s + t)[i] == t[i - |s|] && (s + t)[j] == t[j - |s|];
      }
    }
  }

  lemma {:induction false} DisjointConcat(s: seq<string>, t: seq<string>, u: seq<string>)
    requires Disjoint(s, u) && Disjoint(t, u)
    ensures Disjoint(s + t, u)
  {
    forall i, j | 0 <= i < |s + t| && 0 <= j < |u|
      ensures (s + t)[i] != u[j]
    {
      if i >= |s| {
        assert (s + t)[i] == t[i - |s|];
      }
    }
  }

  lemma CityIdsDistinct()
    ensures Distinct(CityIds)
  {
  }

  lemma CountyIdsDistinct()
    ensures Distinct(CountyIds) && Distinct(RegionalIds)
  {
  }

  lemma JurisdictionsDisjoint()
    ensures Disjoint(["root"], CityIds) && Disjoint(["root"] + CityIds, CountyIds)
    ensures Disjoint(["root"] + CityIds + CountyIds, RegionalIds)
  {
  }

  lemma ChartIdsDistinct()
    ensures Distinct(ChartIds)
  {
    CityIdsDistinct();
    CountyIdsDistinct();
    JurisdictionsDisjoint();
    DistinctConcat(["root"], CityIds);
    DistinctConcat(["root"] + CityIds, CountyIds);
    DistinctConcat(["root"] + CityIds + CountyIds, RegionalIds);
  }

  /** Every position of the fixed chart has an id of its own. */
  lemma StaticChartDistinctIds()
    ensures DistinctIds(Preorder(StaticChart))
  {
    StaticChartIds();
    ChartIdsDistinct();
  }

  lemma CityJurisdiction()
    ensures AllIn(CityTree, "city")
  {
  }

  lemma CountyJurisdiction()
    ensures AllIn(CountyTree, "county")
  {
  }

  lemma RegionalJurisdiction()
    ensures AllIn(RegionalTree, "regional")
  {
  }

  /** Each container holds only positions of its own jurisdiction. */
  lemma StaticChartJurisdictions()
    ensures AllIn(CityTree, "city") && AllIn(CountyTree, "county") && AllIn(RegionalTree, "regional")
  {
    CityJurisdiction();
    CountyJurisdiction();
    RegionalJurisdiction();
  }

  /** The version-two chart never gets past its initial collapse: the data is loaded
      or the builder throws, and with the detached callback the collapse throws on the
      city container, which has children. The bound collapse of the first version would
      have succeeded. */
  lemma StaticChartInitialCollapseThrows(ents: Option<seq<OrgEntity>>)
    ensures BuildStaticHierarchy(ents).Failure?
      || InitialViewUnbound(FromHierarchy(BuildStaticHierarchy(ents).value)).Failure?
    ensures InitialView(FromHierarchy(StaticChart)) == CollapseAll(FromHierarchy(StaticChart)).value
  {
    var v := FromHierarchy(StaticChart);
    assert v.children.nodes[0] == FromHierarchy(CityTree);
    UnboundCollapseThrows(v, 0);
  }
}
