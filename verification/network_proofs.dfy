/** Properties of the network view's filtering. */
module NetworkProofs {
  import opened Seqs
  import opened Classify
  import opened Network

  /** With every dropdown on its wildcard, all entities are drawn, and exactly the
      relationships whose endpoints both name a loaded entity. */
  lemma DefaultFiltersShowEverything(es: seq<Entity>, rels: seq<Relationship>)
    ensures ApplyFilters(DefaultFilters, es, rels).entities == es
    ensures ApplyFilters(DefaultFilters, es, rels).relationships
      == Filter((r: Relationship) => r.sourceId in IdSet(es) && r.targetId in IdSet(es), rels)
  {
    FilterKeepsAll((e: Entity) => EntityPasses(DefaultFilters, e), es);
    FilterCongruent(
      (r: Relationship) => RelationshipPasses(DefaultFilters, IdSet(es), r),
      (r: Relationship) => r.sourceId in IdSet(es) && r.targetId in IdSet(es),
      rels);
  }

  /** Applying the same filters to what is drawn changes nothing. */
  lemma ApplyFiltersIdempotent(f: Filters, es: seq<Entity>, rels: seq<Relationship>)
    ensures var v := ApplyFilters(f, es, rels); ApplyFilters(f, v.entities, v.relationships) == v
  {
    var v := ApplyFilters(f, es, rels);
    FilterKeepsAll((e: Entity) => EntityPasses(f, e), v.entities);
    FilterKeepsAll((r: Relationship) => RelationshipPasses(f, IdSet(v.entities), r), v.relationships);
  }

  /** A relationship with an endpoint that names no loaded entity is never drawn. */
  lemma DanglingRelationshipHidden(f: Filters, es: seq<Entity>, rels: seq<Relationship>, r: Relationship)
    requires forall i :: 0 <= i < |es| ==> es[i].id != r.targetId
    ensures r !in ApplyFilters(f, es, rels).relationships
  {
  }
}

/** The network view of the second version, where the table's endpoint ids are also the
    fields the force simulation overwrites: once a relationship has been drawn its
    `source` and `target` hold node objects, which no later filtering matches against
    the id set. */
module NetworkAsWritten {
  import opened Seqs
  import opened Classify
  import opened Network

  /** A relationship endpoint: the id string as loaded, or the node object the force
      simulation puts in its place. */
  datatype Endpoint = IdKey(id: string) | NodeObject(id: string)

  datatype LinkedRelationship = LinkedRelationship(id: string, source: Endpoint, target: Endpoint, relType: string, category: string)

  /** Loading: both endpoints hold the id strings. */
  function LoadLinked(rels: seq<Relationship>): (r: seq<LinkedRelationship>)
    ensures |r| == |rels|
    ensures forall i :: 0 <= i < |rels| ==>
      r[i].source == IdKey(rels[i].sourceId) && r[i].target == IdKey(rels[i].targetId)
      && r[i].id == rels[i].id && r[i].category == rels[i].category
  {
    seq(|rels|, i requires 0 <= i < |rels| =>
      LinkedRelationship(rels[i].id, IdKey(rels[i].sourceId), IdKey(rels[i].targetId), rels[i].relType, rels[i].category))
  }

  /** `entityIds.has(rel.source) && entityIds.has(rel.target)` plus the category test:
      a node object is never in the set of id strings. */
  predicate PassesAsWritten(f: Filters, ids: set<string>, r: LinkedRelationship) {
    r.source.IdKey? && r.source.id in ids && r.target.IdKey? && r.target.id in ids
    && (f.relationshipType == "all-rels" || r.category == f.relationshipType)
  }

  function ApplyFiltersAsWritten(f: Filters, es: seq<Entity>, rels: seq<LinkedRelationship>): (v: (seq<Entity>, seq<LinkedRelationship>))
    ensures forall r :: r in v.1 <==> r in rels && PassesAsWritten(f, IdSet(v.0), r)
  {
    var shown := Filter((e: Entity) => EntityPasses(f, e), es);
    (shown, Filter((r: LinkedRelationship) => PassesAsWritten(f, IdSet(shown), r), rels))
  }

  function Bind(r: LinkedRelationship): LinkedRelationship {
    r.(source := NodeObject(r.source.id), target := NodeObject(r.target.id))
  }

  /** `createVisualization` after `applyFilters`: when any entity is shown, the link
      force replaces the endpoints of every drawn relationship, in place, in the full
      relationship list too. */
  function Draw(f: Filters, es: seq<Entity>, rels: seq<LinkedRelationship>): (r: seq<LinkedRelationship>)
    ensures |r| == |rels|
  {
    var shown := Filter((e: Entity) => EntityPasses(f, e), es);
    if |shown| == 0 then rels
    else
      seq(|rels|, i requires 0 <= i < |rels| =>
        if PassesAsWritten(f, IdSet(shown), rels[i]) then Bind(rels[i]) else rels[i])
  }

  /** After the first drawing, filtering again, with any filters, shows none of the
      relationships that were drawn; with the same filters it shows none at all. */
  lemma RefilterLosesDrawnRelationships(f: Filters, g: Filters, es: seq<Entity>, rels: seq<LinkedRelationship>)
    ensures forall i :: 0 <= i < |rels| && Draw(f, es, rels)[i] != rels[i] ==>
      Draw(f, es, rels)[i] !in ApplyFiltersAsWritten(g, es, Draw(f, es, rels)).1
    ensures |ApplyFiltersAsWritten(f, es, rels).0| > 0 ==>
      ApplyFiltersAsWritten(f, es, Draw(f, es, rels)).1 == []
  {
    var drawn := Draw(f, es, rels);
    var shown := Filter((e: Entity) => EntityPasses(f, e), es);
    if |shown| > 0 {
      FilterDropsAll((r: LinkedRelationship) => PassesAsWritten(f, IdSet(shown), r), drawn);
    }
  }

  /** `rel.source === entityId || rel.target === entityId`: a node object never equals
      an id string. */
  predicate TouchesAsWritten(r: LinkedRelationship, id: string) {
    (r.source.IdKey? && r.source.id == id) || (r.target.IdKey? && r.target.id == id)
  }

  /** `getEntityRelationships` of the second version. */
  function EntityRelationshipsAsWritten(rels: seq<LinkedRelationship>, id: string): (r: seq<LinkedRelationship>)
    ensures forall x :: x in r <==> x in rels && TouchesAsWritten(x, id)
  {
    Filter((x: LinkedRelationship) => TouchesAsWritten(x, id), rels)
  }

  /** After the first drawing, the sidebar of any entity lists none of the drawn
      relationships, although the kept ids of those that touch it still name it. */
  lemma SidebarLosesDrawnRelationships(f: Filters, es: seq<Entity>, rels: seq<LinkedRelationship>, id: string)
    ensures forall i :: 0 <= i < |rels| && Draw(f, es, rels)[i] != rels[i] ==>
      Draw(f, es, rels)[i] !in EntityRelationshipsAsWritten(Draw(f, es, rels), id)
    ensures forall i :: 0 <= i < |rels| && (rels[i].source.id == id || rels[i].target.id == id) ==>
      StableIds(Draw(f, es, rels))[i] in EntityRelationships(StableIds(Draw(f, es, rels)), id)
  {
  }

  /** The first version's reading: the id strings kept aside as `sourceId` /
      `targetId`, which the drawing does not touch. */
  function StableIds(rels: seq<LinkedRelationship>): (r: seq<Relationship>)
    ensures |r| == |rels|
    ensures forall i :: 0 <= i < |rels| ==>
      r[i] == Relationship(rels[i].id, rels[i].source.id, rels[i].target.id, rels[i].relType, rels[i].category)
  {
    seq(|rels|, i requires 0 <= i < |rels| =>
      Relationship(rels[i].id, rels[i].source.id, rels[i].target.id, rels[i].relType, rels[i].category))
  }

  /** Filtering and listing on the kept ids give the same view before and after any
      drawing. */
  lemma StableIdsSurviveDrawing(f: Filters, g: Filters, es: seq<Entity>, rels: seq<LinkedRelationship>, id: string)
    ensures StableIds(Draw(f, es, rels)) == StableIds(rels)
    ensures ApplyFilters(g, es, StableIds(Draw(f, es, rels))) == ApplyFilters(g, es, StableIds(rels))
    ensures EntityRelationships(StableIds(Draw(f, es, rels)), id) == EntityRelationships(StableIds(rels), id)
  {
  }

  /** Before anything is drawn, the second version's filtering selects exactly the
      relationships the first version's does. */
  lemma {:induction false} AsWrittenAgreesBeforeDrawing(f: Filters, ids: set<string>, rels: seq<Relationship>)
    ensures StableIds(Filter((r: LinkedRelationship) => PassesAsWritten(f, ids, r), LoadLinked(rels)))
      == Filter((r: Relationship) => RelationshipPasses(f, ids, r), rels)
    decreases |rels|
  {
    if |rels| > 0 {
      AsWrittenAgreesBeforeDrawing(f, ids, rels[1..]);
      var linked := LoadLinked(rels);
      assert linked[1..] == LoadLinked(rels[1..]);
      FilterCons((r: LinkedRelationship) => PassesAsWritten(f, ids, r), linked);
      FilterCons((r: Relationship) => RelationshipPasses(f, ids, r), rels);
      assert StableIds([linked[0]]) == [rels[0]];
      StableIdsAppend([linked[0]], Filter((r: LinkedRelationship) => PassesAsWritten(f, ids, r), linked[1..]));
    }
  }

  lemma StableIdsAppend(a: seq<LinkedRelationship>, b: seq<LinkedRelationship>)
    ensures StableIds(a + b) == StableIds(a) + StableIds(b)
  {
    assert forall i :: 0 <= i < |a| ==> (a + b)[i] == a[i];
    assert forall i :: |a| <= i < |a + b| ==> (a + b)[i] == b[i - |a|];
  }
}
