/** The force-directed network view: entities and relationships as loaded, the three
    dropdown filters, name search, the sidebar's relationship lists, and the sizing
    rules of the drawing. Relationships are matched to entities by the ids read from
    the table, which the drawing never changes. */
module Network {
  import opened Wrappers
  import opened Text
  import opened Seqs
  import opened Classify

  /** An entity as the view keeps it (only the fields the logic reads). */
  datatype Entity = Entity(id: string, name: string, typeLabel: string, jurisdiction: Jurisdiction, entityType: EntityType)

  /** A relationship with the endpoint ids kept as read from the table. */
  datatype Relationship = Relationship(id: string, sourceId: string, targetId: string, relType: string, category: string)

  /** The entity columns read when loading. */
  datatype EntityRow = EntityRow(id: string, name: string, typeLabel: string, jurisdiction: string)

  /** Loading maps each row to an entity, classifying its jurisdiction and type. */
  function LoadEntities(rows: seq<EntityRow>): (r: seq<Entity>)
    ensures |r| == |rows|
    ensures forall i :: 0 <= i < |rows| ==>
      r[i].id == rows[i].id && r[i].name == rows[i].name && r[i].typeLabel == rows[i].typeLabel
      && r[i].jurisdiction == JurisdictionOf(rows[i].jurisdiction)
      && r[i].entityType == NetworkEntityType(rows[i].typeLabel)
  {
    seq(|rows|, i requires 0 <= i < |rows| =>
      Entity(rows[i].id, rows[i].name, rows[i].typeLabel, JurisdictionOf(rows[i].jurisdiction), NetworkEntityType(rows[i].typeLabel)))
  }

  /** The dropdown values; "all", "all-types" and "all-rels" are the wildcards. */
  datatype Filters = Filters(jurisdiction: string, entityType: string, relationshipType: string)

  const DefaultFilters := Filters("all", "all-types", "all-rels")

  predicate EntityPasses(f: Filters, e: Entity) {
    (f.jurisdiction == "all" || JurisdictionName(e.jurisdiction) == f.jurisdiction)
    && (f.entityType == "all-types" || EntityTypeName(e.entityType) == f.entityType)
  }

  function IdSet(es: seq<Entity>): (ids: set<string>)
    ensures forall id :: id in ids <==> exists i :: 0 <= i < |es| && es[i].id == id
  {
    set i | 0 <= i < |es| :: es[i].id
  }

  predicate RelationshipPasses(f: Filters, ids: set<string>, r: Relationship) {
    r.sourceId in ids && r.targetId in ids
    && (f.relationshipType == "all-rels" || r.category == f.relationshipType)
  }

  /** What the view draws after `applyFilters`. */
  datatype View = View(entities: seq<Entity>, relationships: seq<Relationship>)

  /** `applyFilters`: the entities meeting both entity filters, then the relationships
      meeting the relationship filter whose two endpoints are both among them. */
  function ApplyFilters(f: Filters, es: seq<Entity>, rels: seq<Relationship>): (v: View)
    ensures forall e :: e in v.entities <==> e in es && EntityPasses(f, e)
    ensures forall r :: r in v.relationships <==>
      r in rels && RelationshipPasses(f, IdSet(v.entities), r)
    ensures IsSubsequence(v.entities, es) && IsSubsequence(v.relationships, rels)
    ensures |v.entities| == Count((e: Entity) => EntityPasses(f, e), es)
    ensures |v.relationships| == Count((r: Relationship) => RelationshipPasses(f, IdSet(v.entities), r), rels)
  {
    var shown := Filter((e: Entity) => EntityPasses(f, e), es);
    var ids := IdSet(shown);
    FilterIsSubsequence((e: Entity) => EntityPasses(f, e), es);
    FilterIsSubsequence((r: Relationship) => RelationshipPasses(f, ids, r), rels);
    FilterLengthIsCount((e: Entity) => EntityPasses(f, e), es);
    FilterLengthIsCount((r: Relationship) => RelationshipPasses(f, ids, r), rels);
    View(shown, Filter((r: Relationship) => RelationshipPasses(f, ids, r), rels))
  }

  /** `query.length > 1` after lower-casing and trimming the input; a shorter query
      hides the result list. */
  function SearchQuery(input: string): (q: Option<string>)
    ensures q.Some? ==> |q.value| > 1 && q.value == Strip(Lower(input))
    ensures q.None? <==> |Strip(Lower(input))| <= 1
  {
    var query := Strip(Lower(input));
    if |query| > 1 then Some(query) else None
  }

  predicate NameMatches(query: string, e: Entity) {
    Contains(Lower(e.name), query)
  }

  /** `showSearchResults`: the first ten entities whose lower-cased name contains the
      query, in entity order. */
  function SearchResults(es: seq<Entity>, query: string): (r: seq<Entity>)
    ensures |r| <= 10
    ensures forall i :: 0 <= i < |r| ==> r[i] in es && NameMatches(query, r[i])
    ensures var all := Filter((e: Entity) => NameMatches(query, e), es); |r| <= |all| && r == all[..|r|]
    ensures |r| < 10 ==> forall e :: e in es && NameMatches(query, e) ==> e in r
    ensures |r| == if Count((e: Entity) => NameMatches(query, e), es) < 10
      then Count((e: Entity) => NameMatches(query, e), es) else 10
  {
    FilterLengthIsCount((e: Entity) => NameMatches(query, e), es);
    Take(Filter((e: Entity) => NameMatches(query, e), es), 10)
  }

  /** `getNodeRadius` of the network. */
  function NodeRadius(t: EntityType): (r: int)
    ensures r == 12 <==> t == Elected
    ensures r == 8 <==> t == Departments
    ensures r == 6 <==> t == Boards
  {
    match t
    case Elected => 12
    case Departments => 8
    case Boards => 6
  }

  /** `getNodeCharge`: elected officials repel most, boards least. */
  function NodeCharge(t: EntityType): (c: int)
    ensures c < 0
    ensures c == -500 <==> t == Elected
    ensures c == -300 <==> t == Departments
    ensures c == -200 <==> t == Boards
  {
    match t
    case Elected => -500
    case Departments => -300
    case Boards => -200
  }

  /** `getLinkDistance`: 80 for hierarchical links, 100 for appointments, 90 for any
      other category. */
  function LinkDistance(category: string): (d: int)
    ensures d == 80 <==> category == "hierarchical"
    ensures d == 100 <==> category == "appointment"
    ensures d == 90 <==> category != "hierarchical" && category != "appointment"
  {
    if category == "hierarchical" then 80
    else if category == "appointment" then 100
    else 90
  }

  /** The two tables agree: a larger node repels harder, and equal sizes repel equally. */
  lemma ChargeFollowsRadius(a: EntityType, b: EntityType)
    ensures NodeRadius(a) > NodeRadius(b) <==> NodeCharge(a) < NodeCharge(b)
    ensures NodeRadius(a) == NodeRadius(b) <==> NodeCharge(a) == NodeCharge(b)
  {
  }

  /** Hierarchical links are the shortest, appointment links the longest, and every
      other category sits strictly between them. */
  lemma LinkDistanceOrder(category: string)
    ensures LinkDistance("hierarchical") <= LinkDistance(category) <= LinkDistance("appointment")
    ensures LinkDistance(category) == LinkDistance("hierarchical") ==> category == "hierarchical"
    ensures LinkDistance(category) == LinkDistance("appointment") ==> category == "appointment"
  {
  }

  /** `shouldShowLabel`: elected officials, or departments whose radius exceeds 8; no
      department radius does, so exactly the elected officials are labelled. */
  function ShouldShowLabel(t: EntityType): (b: bool)
    ensures b <==> t == Elected
  {
    t == Elected || (t == Departments && NodeRadius(t) > 8)
  }

  /** `getEntityRelationships`: every relationship touching the entity, in table order. */
  function EntityRelationships(rels: seq<Relationship>, id: string): (r: seq<Relationship>)
    ensures forall x :: x in r <==> x in rels && (x.sourceId == id || x.targetId == id)
    ensures IsSubsequence(r, rels)
    ensures |r| == Count((x: Relationship) => x.sourceId == id || x.targetId == id, rels)
  {
    FilterLengthIsCount((x: Relationship) => x.sourceId == id || x.targetId == id, rels);
    FilterIsSubsequence((x: Relationship) => x.sourceId == id || x.targetId == id, rels);
    Filter((x: Relationship) => x.sourceId == id || x.targetId == id, rels)
  }

  /** The sidebar's two lists: hierarchical and appointment relationships; other
      categories are in neither. */
  function PartitionRelationships(rels: seq<Relationship>): (p: (seq<Relationship>, seq<Relationship>))
    ensures forall x :: x in p.0 <==> x in rels && x.category == "hierarchical"
    ensures forall x :: x in p.1 <==> x in rels && x.category == "appointment"
    ensures IsSubsequence(p.0, rels) && IsSubsequence(p.1, rels)
    ensures |p.0| == Count((x: Relationship) => x.category == "hierarchical", rels)
    ensures |p.1| == Count((x: Relationship) => x.category == "appointment", rels)
  {
    FilterIsSubsequence((x: Relationship) => x.category == "hierarchical", rels);
    FilterIsSubsequence((x: Relationship) => x.category == "appointment", rels);
    FilterLengthIsCount((x: Relationship) => x.category == "hierarchical", rels);
    FilterLengthIsCount((x: Relationship) => x.category == "appointment", rels);
    (Filter((x: Relationship) => x.category == "hierarchical", rels),
     Filter((x: Relationship) => x.category == "appointment", rels))
  }

  predicate Touches(r: Relationship, focus: string) {
    r.sourceId == focus || r.targetId == focus
  }

  /** `highlightConnections`: both endpoints of every drawn relationship that touches
      the focus node. */
  function ConnectedNodes(rels: seq<Relationship>, focus: string): (s: set<string>)
    ensures forall id :: id in s <==>
      exists i :: 0 <= i < |rels| && Touches(rels[i], focus) && (id == rels[i].sourceId || id == rels[i].targetId)
    decreases |rels|
  {
    if |rels| == 0 then {}
    else
      var rest := ConnectedNodes(rels[1..], focus);
      assert forall i :: 1 <= i < |rels| ==> rels[i] == rels[1..][i - 1];
      (if Touches(rels[0], focus) then {rels[0].sourceId, rels[0].targetId} else {}) + rest
  }
}
