/** The two-entity chart used throughout the documentation: the mayor oversees the fire
    chief, one edge points at an id no entity has, and one is not structural. */
module HierarchyExample {
  import opened Wrappers
  import opened Seqs
  import opened Classify
  import opened HierarchyBuilder
  import opened HierarchyProofs
  import opened HierarchyCorrectedProofs

  const Mayor := OrgEntity("mayor-001", "Mayor", "Elected Official", None, Some("Todd Gloria"), "Mayor", City, Elected)
  const FireChief := OrgEntity("city-fire-chief", "Fire Chief", "Department", None, None, "Department", City, Departments)
  const SampleEntities := [Mayor, FireChief]
  const SampleEdges := [
    Edge("mayor-001", "city-fire-chief", "oversees"),
    Edge("mayor-001", "ghost-999", "oversees"),
    Edge("mayor-001", "city-fire-chief", "coordinates")]

  const ChiefNode := EntityNode(FireChief, 1, [])
  const MayorNode := EntityNode(Mayor, 0, [ChiefNode])

  lemma SampleStructural()
    ensures StructuralEdges(SampleEdges) == SampleEdges[..2]
  {
    var rels := SampleEdges;
    FilterCons(IsStructural, rels);
    FilterCons(IsStructural, rels[1..]);
    FilterCons(IsStructural, rels[2..]);
    assert rels[1..][1..] == rels[2..] && rels[2..][1..] == [];
    assert [rels[0]] + ([rels[1]] + []) == rels[..2];
  }

  lemma SampleRoots()
    ensures StructuralEdges(SampleEdges) == SampleEdges[..2]
    ensures Roots(SampleEntities, SampleEdges[..2], "city") == [Mayor]
    ensures Roots(SampleEntities, SampleEdges[..2], "county") == []
    ensures Roots(SampleEntities, SampleEdges[..2], "regional") == []
  {
    SampleStructural();
    var hier := SampleEdges[..2];
    assert hier[0].target == "city-fire-chief";
    assert Overseen(hier, "city-fire-chief");
    assert !Overseen(hier, "mayor-001");
    assert SampleEntities[1..] == [FireChief] && [FireChief][1..] == [];
    FilterCons(IsRootOf(hier, "city"), SampleEntities);
    FilterCons(IsRootOf(hier, "city"), [FireChief]);
    assert [Mayor] + ([] + []) == [Mayor];
    FilterCons(IsRootOf(hier, "county"), SampleEntities);
    FilterCons(IsRootOf(hier, "county"), [FireChief]);
    FilterCons(IsRootOf(hier, "regional"), SampleEntities);
    FilterCons(IsRootOf(hier, "regional"), [FireChief]);
  }

  /** The mayor's subtree: the fire chief once, nothing for the dangling edge. */
  lemma SampleMayorNode()
    ensures BuildNode(SampleEntities, SampleEdges[..2], Mayor, 0, 2) == Some(MayorNode)
  {
    var hier := SampleEdges[..2];
    assert Find(SampleEntities, "ghost-999") == None;
    assert Find(SampleEntities, "city-fire-chief") == Some(FireChief);
    assert BuildChildren(SampleEntities, hier, "city-fire-chief", hier[2..], 2, 0) == Some([]);
    assert BuildChildren(SampleEntities, hier, "city-fire-chief", hier[1..], 2, 0) == Some([]);
    assert BuildChildren(SampleEntities, hier, "city-fire-chief", hier, 2, 0) == Some([]);
    assert BuildNode(SampleEntities, hier, FireChief, 1, 1) == Some(ChiefNode);
    assert BuildChildren(SampleEntities, hier, "mayor-001", hier[2..], 1, 1) == Some([]);
    assert BuildChildren(SampleEntities, hier, "mayor-001", hier[1..], 1, 1) == Some([]);
    assert ChildOf(hier[0], "mayor-001") == Some("city-fire-chief");
    assert [ChiefNode] + [] == [ChiefNode];
    assert BuildChildren(SampleEntities, hier, "mayor-001", hier, 1, 1) == Some([ChiefNode]);
  }

  lemma SampleCityForest()
    ensures Forest(SampleEntities, SampleEdges, City, 2) == Some([MayorNode])
  {
    SampleRoots();
    SampleMayorNode();
    var hier := SampleEdges[..2];
    assert [Mayor][1..] == [];
    assert BuildForest(SampleEntities, hier, [], 2) == Some([]);
    assert [MayorNode] + [] == [MayorNode];
    assert BuildForest(SampleEntities, hier, [Mayor], 2) == Some([MayorNode]);
  }

  lemma SampleOtherForests()
    ensures Forest(SampleEntities, SampleEdges, County, 2) == Some([])
    ensures Forest(SampleEntities, SampleEdges, Regional, 2) == Some([])
  {
    SampleRoots();
    assert BuildForest(SampleEntities, SampleEdges[..2], [], 2) == Some([]);
  }

  lemma SampleForests()
    ensures Forest(SampleEntities, SampleEdges, City, 2) == Some([MayorNode])
    ensures Forest(SampleEntities, SampleEdges, County, 2) == Some([])
    ensures Forest(SampleEntities, SampleEdges, Regional, 2) == Some([])
  {
    SampleCityForest();
    SampleOtherForests();
  }

  /** As corrected, the mayor is the only city root, at level 2 under the city
      container, and the fire chief is its only child, at level 3. */
  lemma SampleChart()
    ensures BuildHierarchyCorrected(Some(SampleEntities), Some(SampleEdges), 2).Built?
    ensures var t := BuildHierarchyCorrected(Some(SampleEntities), Some(SampleEdges), 2).tree;
      |t.children| == 1 && t.children[0].id == "city-root"
      && Ids(t.children[0].children) == ["mayor-001"] && t.children[0].children[0].level == 2
      && Ids(t.children[0].children[0].children) == ["city-fire-chief"]
      && t.children[0].children[0].children[0].level == 3
  {
    SampleForests();
    SampleShifted();
    SampleContainers();
  }

  /** The mayor's subtree, moved under its container. */
  lemma SampleShifted()
    ensures var s := ShiftSubtrees([MayorNode]);
      |s| == 1 && s[0].id == "mayor-001" && s[0].level == 2
      && Ids(s[0].children) == ["city-fire-chief"] && s[0].children[0].level == 3
  {
    var s := ShiftSubtrees([MayorNode]);
    assert s[0] == ShiftSubtree(MayorNode, 2);
    assert s[0].children[0] == ShiftSubtree(ChiefNode, 2);
  }

  lemma SampleContainers()
    ensures Containers([[MayorNode], [], []], ShiftSubtrees) == [Container(0, ShiftSubtrees([MayorNode]))]
  {
  }

  /** As written, the same data gives the bare super-root. */
  lemma SampleChartAsWritten()
    ensures BuildHierarchy(Some(SampleEntities), Some(SampleEdges), 2) == Built(SuperRoot([]))
  {
    AsWrittenChartIsEmpty(SampleEntities, SampleEdges, 2);
  }
}
