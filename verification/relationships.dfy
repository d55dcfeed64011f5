/** The relationship checks of the data scripts: every relationship endpoint must name
    an entity of the master list, and the hierarchical and appointment tables are
    merged into one master relationship table. */
module RelationshipValidation {
  import opened Wrappers
  import opened Seqs
  import opened Rows

  /** One reported problem: the column, the id it held, and the id of the row. */
  datatype RefError = RefError(column: string, value: string, rowId: string)

  /** `valid_entity_ids`: the `id` of every entity row (`row['id']`). */
  function EntityIds(rows: seq<Row>): (r: Result<set<string>, PyError>)
    ensures r.Success? <==> forall i :: 0 <= i < |rows| ==> "id" in rows[i]
    ensures r.Success? ==> forall id :: id in r.value <==> exists i :: 0 <= i < |rows| && rows[i]["id"] == id
    ensures r.Failure? ==> r.error == KeyError("id")
    decreases |rows|
  {
    if |rows| == 0 then Success({})
    else if "id" !in rows[0] then Failure(KeyError("id"))
    else
      var rest := EntityIds(rows[1..]);
      assert forall i :: 1 <= i < |rows| ==> rows[i] == rows[1..][i - 1];
      if rest.Failure? then rest
      else Success({rows[0]["id"]} + rest.value)
  }

  /** Both endpoints of the row name known entities. */
  predicate Resolves(row: Row, ids: set<string>, srcCol: string, dstCol: string)
  {
    srcCol in row && dstCol in row && row[srcCol] in ids && row[dstCol] in ids
  }

  /** The checks of one row: the two endpoint columns are read first; the row's own id
      column is read only to word an error. */
  function CheckRow(row: Row, ids: set<string>, srcCol: string, dstCol: string, idCol: string): (r: Result<seq<RefError>, PyError>)
    ensures r.Success? <==> srcCol in row && dstCol in row && (Resolves(row, ids, srcCol, dstCol) || idCol in row)
    ensures r.Success? ==>
      |r.value| == (if row[srcCol] in ids then 0 else 1) + (if row[dstCol] in ids then 0 else 1)
      && (r.value == [] <==> Resolves(row, ids, srcCol, dstCol))
      && forall k :: 0 <= k < |r.value| ==>
           r.value[k].value !in ids && r.value[k].rowId == row[idCol]
           && (r.value[k].column == srcCol || r.value[k].column == dstCol)
  {
    if srcCol !in row then Failure(KeyError(srcCol))
    else if dstCol !in row then Failure(KeyError(dstCol))
    else
      var s := row[srcCol];
      var d := row[dstCol];
      if (s !in ids || d !in ids) && idCol !in row then Failure(KeyError(idCol))
      else
        Success((if s !in ids then [RefError(srcCol, s, row[idCol])] else [])
          + (if d !in ids then [RefError(dstCol, d, row[idCol])] else []))
  }

  /** The row's cell in `col` is not a known id. */
  function UnknownIn(ids: set<string>, col: string): Row -> bool {
    row => GetOr(row, col, "") !in ids
  }

  /** The loop over one relationship table: one error per unknown source and one per
      unknown target, each naming its column and the unknown id. */
  function CheckRows(rows: seq<Row>, ids: set<string>, srcCol: string, dstCol: string, idCol: string): (r: Result<seq<RefError>, PyError>)
    ensures r.Success? <==> forall i :: 0 <= i < |rows| ==> CheckRow(rows[i], ids, srcCol, dstCol, idCol).Success?
    ensures r.Success? ==>
      (r.value == [] <==> forall i :: 0 <= i < |rows| ==> Resolves(rows[i], ids, srcCol, dstCol))
    ensures r.Success? ==> |r.value| <= 2 * |rows|
    ensures r.Success? ==> |r.value| == Count(UnknownIn(ids, srcCol), rows) + Count(UnknownIn(ids, dstCol), rows)
    ensures r.Success? ==> forall k :: 0 <= k < |r.value| ==>
      r.value[k].value !in ids && (r.value[k].column == srcCol || r.value[k].column == dstCol)
    decreases |rows|
  {
    if |rows| == 0 then Success([])
    else
      var first := CheckRow(rows[0], ids, srcCol, dstCol, idCol);
      var rest := CheckRows(rows[1..], ids, srcCol, dstCol, idCol);
      assert forall i :: 1 <= i < |rows| ==> rows[i] == rows[1..][i - 1];
      if first.Failure? then Failure(first.error)
      else if rest.Failure? then rest
      else Success(first.value + rest.value)
  }

  /** What `validate_relationship_integrity` counts and reports. */
  datatype Report = Report(hierCount: nat, hierErrors: seq<RefError>, apptCount: nat, apptErrors: seq<RefError>) {
    function TotalRelationships(): nat { hierCount + apptCount }
    function TotalErrors(): nat { |hierErrors| + |apptErrors| }
    /** The function's return value: `True` exactly when no error was found. */
    predicate Valid() { TotalErrors() == 0 }
  }

  /** `validate_relationship_integrity` on the three tables, already read. */
  function ValidateIntegrity(entities: seq<Row>, hier: seq<Row>, appts: seq<Row>): (r: Result<Report, PyError>)
    ensures r.Success? ==> r.value.hierCount == |hier| && r.value.apptCount == |appts|
    ensures r.Success? ==> EntityIds(entities).Success? && (r.value.Valid() <==>
      (forall i :: 0 <= i < |hier| ==> Resolves(hier[i], EntityIds(entities).value, "parent_id", "child_id"))
      && (forall i :: 0 <= i < |appts| ==> Resolves(appts[i], EntityIds(entities).value, "appointer_id", "appointee_entity_id")))
    ensures r.Success? <==> (EntityIds(entities).Success?
      && CheckRows(hier, EntityIds(entities).value, "parent_id", "child_id", "relationship_id").Success?
      && CheckRows(appts, EntityIds(entities).value, "appointer_id", "appointee_entity_id", "appointment_id").Success?)
    ensures r.Failure? && EntityIds(entities).Failure? ==> r.error == EntityIds(entities).error
  {
    var ids :- EntityIds(entities);
    var hierErrors :- CheckRows(hier, ids, "parent_id", "child_id", "relationship_id");
    var apptErrors :- CheckRows(appts, ids, "appointer_id", "appointee_entity_id", "appointment_id");
    Success(Report(|hier|, hierErrors, |appts|, apptErrors))
  }

  /** The printed error list: the first ten errors, then how many more there are. */
  function Listing(errors: seq<RefError>): (r: (seq<RefError>, nat))
    ensures |r.0| <= 10 && |r.0| <= |errors| && r.0 == errors[..|r.0|]
    ensures |r.0| + r.1 == |errors|
    ensures r.1 > 0 ==> |r.0| == 10
  {
    if |errors| > 10 then (errors[..10], |errors| - 10) else (errors, 0)
  }

  const MasterHeaders: seq<string> := [
    "relationship_id", "source_entity_id", "target_entity_id", "relationship_type",
    "relationship_category", "authority_source", "description", "last_verified"]

  /** The source columns of a hierarchical row, in the order the master row reads them. */
  const HierColumns: seq<string> := [
    "relationship_id", "parent_id", "child_id", "relationship_type", "authority_source", "description", "last_verified"]

  const ApptColumns: seq<string> := [
    "appointment_id", "appointer_id", "appointee_entity_id", "appointment_type", "authority_source", "description", "last_verified"]

  /** The row has every one of the columns. */
  predicate HasColumns(row: Row, cols: seq<string>) {
    forall k :: 0 <= k < |cols| ==> cols[k] in row
  }

  /** Reads the columns in order; the first missing one raises `KeyError`. */
  function Pick(row: Row, cols: seq<string>): (r: Result<seq<string>, PyError>)
    ensures r.Success? <==> HasColumns(row, cols)
    ensures r.Success? ==> |r.value| == |cols| && forall i :: 0 <= i < |cols| ==> r.value[i] == row[cols[i]]
    decreases |cols|
  {
    if |cols| == 0 then Success([])
    else if cols[0] !in row then Failure(KeyError(cols[0]))
    else
      var rest := Pick(row, cols[1..]);
      assert forall i :: 1 <= i < |cols| ==> cols[i] == cols[1..][i - 1];
      if rest.Failure? then rest else Success([row[cols[0]]] + rest.value)
  }

  const MasterKeys: set<string> := set h | h in MasterHeaders

  /** A master row: exactly the master columns, with the given category and endpoints. */
  predicate Tagged(m: Row, category: string, src: string, dst: string)
  {
    m.Keys == MasterKeys
    && "relationship_category" in m && "source_entity_id" in m && "target_entity_id" in m
    && m["relationship_category"] == category
    && m["source_entity_id"] == src && m["target_entity_id"] == dst
  }

  /** `m` is the master row of the seven values `v` read from a source row (id, source,
      target, type, authority, description, date) and the category: each value lands in
      its master column. */
  predicate MasterOf(m: Row, v: seq<string>, category: string)
    requires |v| == 7
  {
    Tagged(m, category, v[1], v[2])
    && "relationship_id" in m && "relationship_type" in m && "authority_source" in m
    && "description" in m && "last_verified" in m
    && m["relationship_id"] == v[0] && m["relationship_type"] == v[3]
    && m["authority_source"] == v[4] && m["description"] == v[5] && m["last_verified"] == v[6]
  }

  /** One master row from the seven source values and the category literal. */
  function MasterRow(v: seq<string>, category: string): (m: Row)
    requires |v| == 7
    ensures MasterOf(m, v, category)
  {
    map["relationship_id" := v[0], "source_entity_id" := v[1], "target_entity_id" := v[2],
        "relationship_type" := v[3], "relationship_category" := category,
        "authority_source" := v[4], "description" := v[5], "last_verified" := v[6]]
  }

  /** `m` is the master row of `row`: the seven columns `cols` read from `row`, each
      copied into its master column, and the category added. */
  predicate RenamedFrom(m: Row, row: Row, cols: seq<string>, category: string)
    requires |cols| == 7
  {
    cols[0] in row && cols[1] in row && cols[2] in row && cols[3] in row
    && cols[4] in row && cols[5] in row && cols[6] in row
    && Tagged(m, category, row[cols[1]], row[cols[2]])
    && "relationship_id" in m && "relationship_type" in m && "authority_source" in m
    && "description" in m && "last_verified" in m
    && m["relationship_id"] == row[cols[0]] && m["relationship_type"] == row[cols[3]]
    && m["authority_source"] == row[cols[4]] && m["description"] == row[cols[5]]
    && m["last_verified"] == row[cols[6]]
  }

  /** The master row of the values `Pick` reads is the renamed row. */
  lemma PickedRenamed(row: Row, cols: seq<string>, category: string)
    requires |cols| == 7 && Pick(row, cols).Success?
    ensures RenamedFrom(MasterRow(Pick(row, cols).value, category), row, cols, category)
  {
    var v := Pick(row, cols).value;
    assert v[0] == row[cols[0]] && v[1] == row[cols[1]] && v[2] == row[cols[2]] && v[3] == row[cols[3]];
    assert v[4] == row[cols[4]] && v[5] == row[cols[5]] && v[6] == row[cols[6]];
    assert HasColumns(row, cols);
    assert cols[0] in row && cols[3] in row && cols[4] in row && cols[5] in row && cols[6] in row;
  }

  /** Renaming the first row and then the rest renames the whole table. */
  lemma RenamedCons(m: Row, rest: seq<Row>, rows: seq<Row>, cols: seq<string>, category: string)
    requires |cols| == 7 && |rows| > 0 && |rest| == |rows| - 1
    requires RenamedFrom(m, rows[0], cols, category)
    requires forall i :: 0 <= i < |rest| ==> RenamedFrom(rest[i], rows[1..][i], cols, category)
    ensures forall i :: 0 <= i < |rows| ==> RenamedFrom(([m] + rest)[i], rows[i], cols, category)
  {
    forall i | 0 <= i < |rows|
      ensures RenamedFrom(([m] + rest)[i], rows[i], cols, category)
    {
      if i > 0 {
        assert ([m] + rest)[i] == rest[i - 1];
        assert rows[i] == rows[1..][i - 1];
      }
    }
  }

  /** Every row renamed onto the master columns; the first missing column raises. */
  function ToMaster(rows: seq<Row>, cols: seq<string>, category: string): (r: Result<seq<Row>, PyError>)
    requires |cols| == 7
    ensures r.Success? <==> forall i :: 0 <= i < |rows| ==> HasColumns(rows[i], cols)
    ensures r.Success? ==> |r.value| == |rows| && forall i :: 0 <= i < |rows| ==>
      RenamedFrom(r.value[i], rows[i], cols, category)
    decreases |rows|
  {
    if |rows| == 0 then Success([])
    else
      var first := Pick(rows[0], cols);
      var rest := ToMaster(rows[1..], cols, category);
      assert forall i :: 1 <= i < |rows| ==> rows[i] == rows[1..][i - 1];
      if first.Failure? then Failure(first.error)
      else if rest.Failure? then rest
      else
        PickedRenamed(rows[0], cols, category);
        RenamedCons(MasterRow(first.value, category), rest.value, rows, cols, category);
        Success([MasterRow(first.value, category)] + rest.value)
  }

  /** `generate_master_relationships`: the hierarchical rows, then the appointment rows,
      each renamed onto the master columns and tagged with its category. */
  function GenerateMasterRelationships(hier: seq<Row>, appts: seq<Row>): (r: Result<seq<Row>, PyError>)
    ensures r.Success? <==>
      (forall i :: 0 <= i < |hier| ==> HasColumns(hier[i], HierColumns))
      && (forall i :: 0 <= i < |appts| ==> HasColumns(appts[i], ApptColumns))
    ensures r.Success? ==> |r.value| == |hier| + |appts|
  {
    var h := ToMaster(hier, HierColumns, "hierarchical");
    var a := ToMaster(appts, ApptColumns, "appointment");
    if h.Failure? then Failure(h.error)
    else if a.Failure? then Failure(a.error)
    else Success(h.value + a.value)
  }

  /** Positions `n`, `n + 1`, ... of `master` are the master rows of `rows`, in order. */
  predicate RenamedRun(master: seq<Row>, n: nat, rows: seq<Row>, cols: seq<string>, category: string)
    requires |cols| == 7
  {
    n + |rows| <= |master|
    && forall i :: 0 <= i < |rows| ==> RenamedFrom(master[n + i], rows[i], cols, category)
  }

  /** A successful merge is the renamed hierarchical rows followed by the renamed
      appointment rows. */
  lemma GeneratedSplit(hier: seq<Row>, appts: seq<Row>)
    requires GenerateMasterRelationships(hier, appts).Success?
    ensures ToMaster(hier, HierColumns, "hierarchical").Success?
    ensures ToMaster(appts, ApptColumns, "appointment").Success?
    ensures GenerateMasterRelationships(hier, appts).value
      == ToMaster(hier, HierColumns, "hierarchical").value + ToMaster(appts, ApptColumns, "appointment").value
  {
  }

  /** Rows renamed from `rows` keep that relation when placed after `n` other rows and
      followed by any more. */
  lemma RenamedAfter(master: seq<Row>, pre: seq<Row>, ms: seq<Row>, post: seq<Row>, n: nat, rows: seq<Row>, cols: seq<string>, category: string)
    requires |cols| == 7 && master == pre + ms + post && |pre| == n && |ms| == |rows|
    requires forall i :: 0 <= i < |rows| ==> RenamedFrom(ms[i], rows[i], cols, category)
    ensures RenamedRun(master, n, rows, cols, category)
  {
    forall i | 0 <= i < |rows|
      ensures RenamedFrom(master[n + i], rows[i], cols, category)
    {
      assert master[n + i] == ms[i];
    }
  }

  /** The merged table starts with the hierarchical rows, in input order, each tagged
      `hierarchical`. */
  lemma GeneratedHierarchyFirst(hier: seq<Row>, appts: seq<Row>)
    requires GenerateMasterRelationships(hier, appts).Success?
    ensures RenamedRun(GenerateMasterRelationships(hier, appts).value, 0, hier, HierColumns, "hierarchical")
  {
    GeneratedSplit(hier, appts);
    var h := ToMaster(hier, HierColumns, "hierarchical").value;
    var a := ToMaster(appts, ApptColumns, "appointment").value;
    assert h + a == [] + h + a;
    RenamedAfter(GenerateMasterRelationships(hier, appts).value, [], h, a, 0, hier, HierColumns, "hierarchical");
  }

  /** The appointment rows follow, in input order, each tagged `appointment`. */
  lemma GeneratedAppointmentsAfter(hier: seq<Row>, appts: seq<Row>)
    requires GenerateMasterRelationships(hier, appts).Success?
    ensures RenamedRun(GenerateMasterRelationships(hier, appts).value, |hier|, appts, ApptColumns, "appointment")
  {
    GeneratedSplit(hier, appts);
    var h := ToMaster(hier, HierColumns, "hierarchical").value;
    var a := ToMaster(appts, ApptColumns, "appointment").value;
    assert h + a == h + a + [];
    RenamedAfter(GenerateMasterRelationships(hier, appts).value, h, a, [], |hier|, appts, ApptColumns, "appointment");
  }

  /** A renamed hierarchical row: every column copied under its own name, except that
      `parent_id` and `child_id` become the source and target. */
  lemma HierarchicalRowCopied(m: Row, row: Row)
    requires RenamedFrom(m, row, HierColumns, "hierarchical")
    ensures m.Keys == MasterKeys && HasColumns(row, HierColumns)
    ensures m["relationship_id"] == row["relationship_id"]
      && m["source_entity_id"] == row["parent_id"] && m["target_entity_id"] == row["child_id"]
      && m["relationship_type"] == row["relationship_type"]
      && m["relationship_category"] == "hierarchical"
      && m["authority_source"] == row["authority_source"]
      && m["description"] == row["description"] && m["last_verified"] == row["last_verified"]
  {
  }

  /** A renamed appointment row: the appointment id, appointer, appointee and
      appointment type become the relationship id, source, target and type. */
  lemma AppointmentRowCopied(m: Row, row: Row)
    requires RenamedFrom(m, row, ApptColumns, "appointment")
    ensures m.Keys == MasterKeys && HasColumns(row, ApptColumns)
    ensures m["relationship_id"] == row["appointment_id"]
      && m["source_entity_id"] == row["appointer_id"] && m["target_entity_id"] == row["appointee_entity_id"]
      && m["relationship_type"] == row["appointment_type"]
      && m["relationship_category"] == "appointment"
      && m["authority_source"] == row["authority_source"]
      && m["description"] == row["description"] && m["last_verified"] == row["last_verified"]
  {
  }

  /** Both endpoints of a master row name known entities. */
  predicate LinksKnown(m: Row, ids: set<string>)
  {
    "source_entity_id" in m && "target_entity_id" in m
    && m["source_entity_id"] in ids && m["target_entity_id"] in ids
  }

  /** A renamed row whose endpoints resolve links known entities. */
  lemma RenamedLinks(m: Row, row: Row, cols: seq<string>, category: string, ids: set<string>)
    requires |cols| == 7 && RenamedFrom(m, row, cols, category) && Resolves(row, ids, cols[1], cols[2])
    ensures LinksKnown(m, ids)
  {
  }

  /** A renamed row has only master columns. */
  lemma RenamedKeys(m: Row, row: Row, cols: seq<string>, category: string)
    requires |cols| == 7 && RenamedFrom(m, row, cols, category)
    ensures m.Keys <= set k | k in MasterHeaders
  {
  }

  /** A table made of a run of renamed hierarchical rows followed by a run of renamed
      appointment rows links known entities when every source row resolves. */
  lemma RunsLinkKnown(master: seq<Row>, hier: seq<Row>, appts: seq<Row>, ids: set<string>)
    requires |master| == |hier| + |appts|
    requires RenamedRun(master, 0, hier, HierColumns, "hierarchical")
    requires RenamedRun(master, |hier|, appts, ApptColumns, "appointment")
    requires forall i :: 0 <= i < |hier| ==> Resolves(hier[i], ids, "parent_id", "child_id")
    requires forall i :: 0 <= i < |appts| ==> Resolves(appts[i], ids, "appointer_id", "appointee_entity_id")
    ensures forall i :: 0 <= i < |master| ==> LinksKnown(master[i], ids)
  {
    forall i | 0 <= i < |master|
      ensures LinksKnown(master[i], ids)
    {
      if i < |hier| {
        assert master[0 + i] == master[i];
        RenamedLinks(master[i], hier[i], HierColumns, "hierarchical", ids);
      } else {
        var j := i - |hier|;
        RenamedLinks(master[|hier| + j], appts[j], ApptColumns, "appointment", ids);
      }
    }
  }

  /** The same two runs hold only master columns. */
  lemma RunsHaveMasterKeys(master: seq<Row>, hier: seq<Row>, appts: seq<Row>)
    requires |master| == |hier| + |appts|
    requires RenamedRun(master, 0, hier, HierColumns, "hierarchical")
    requires RenamedRun(master, |hier|, appts, ApptColumns, "appointment")
    ensures forall i :: 0 <= i < |master| ==> master[i].Keys <= set k | k in MasterHeaders
  {
    forall i | 0 <= i < |master|
      ensures master[i].Keys <= set k | k in MasterHeaders
    {
      if i < |hier| {
        assert master[0 + i] == master[i];
        RenamedKeys(master[i], hier[i], HierColumns, "hierarchical");
      } else {
        var j := i - |hier|;
        RenamedKeys(master[|hier| + j], appts[j], ApptColumns, "appointment");
      }
    }
  }

  /** A passing integrity check guarantees the merged table only links known entities. */
  lemma ValidatedMasterResolves(entities: seq<Row>, hier: seq<Row>, appts: seq<Row>)
    requires ValidateIntegrity(entities, hier, appts).Success?
    requires ValidateIntegrity(entities, hier, appts).value.Valid()
    requires GenerateMasterRelationships(hier, appts).Success?
    ensures EntityIds(entities).Success?
    ensures var master := GenerateMasterRelationships(hier, appts).value;
      forall i :: 0 <= i < |master| ==> LinksKnown(master[i], EntityIds(entities).value)
  {
    GeneratedHierarchyFirst(hier, appts);
    GeneratedAppointmentsAfter(hier, appts);
    RunsLinkKnown(GenerateMasterRelationships(hier, appts).value, hier, appts, EntityIds(entities).value);
  }

  /** Every merged row has exactly the master columns, so writing them never raises. */
  lemma MasterWritesCleanly(hier: seq<Row>, appts: seq<Row>)
    requires GenerateMasterRelationships(hier, appts).Success?
    ensures var w := WriteRows(GenerateMasterRelationships(hier, appts).value, MasterHeaders);
      w.1.None? && |w.0| == |hier| + |appts|
  {
    GeneratedHierarchyFirst(hier, appts);
    GeneratedAppointmentsAfter(hier, appts);
    RunsHaveMasterKeys(GenerateMasterRelationships(hier, appts).value, hier, appts);
  }
}
