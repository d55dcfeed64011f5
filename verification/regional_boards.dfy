/** `integrate_regional_boards`: the regional boards and committees table converted to
    the boards-and-commissions layout and appended to that table, which is rewritten. */
module RegionalBoards {
  import opened Wrappers
  import opened Text
  import opened Rows

  const Fieldnames: seq<string> := [
    "id", "name", "type", "jurisdiction", "parent_entity", "website_url", "description",
    "members_count", "appointment_authority", "meeting_schedule", "creation_date",
    "legal_source", "last_verified"]

  const FieldKeys: set<string> := set h | h in Fieldnames

  const TargetFile := "sd_gov_boards_commissions.csv"

  /** A converted row: the target layout, filled from the regional columns. */
  predicate ConvertedFrom(m: Row, row: Row)
  {
    m.Keys == FieldKeys
    && GetOr(m, "id", "") == GetOr(row, "id", "")
    && GetOr(m, "name", "") == GetOr(row, "official_name", "")
    && GetOr(m, "parent_entity", "") == GetOr(row, "parent_organization", "")
    && GetOr(m, "description", "") == GetOr(row, "description_purpose", "")
    && GetOr(m, "members_count", "") == GetOr(row, "member_count", "")
    && GetOr(m, "website_url", "") == GetOr(row, "website_url", "")
    && GetOr(m, "appointment_authority", "") == GetOr(row, "appointment_authority", "")
    && GetOr(m, "meeting_schedule", "") == GetOr(row, "meeting_schedule", "")
    && (GetOr(m, "type", "") == "Board" <==> Contains(GetOr(row, "official_name", ""), "Board"))
    && (GetOr(m, "type", "") == "Board" || GetOr(m, "type", "") == "Committee")
    && GetOr(m, "jurisdiction", "") == "Regional"
    && GetOr(m, "creation_date", "") == ""
    && GetOr(m, "legal_source", "") == "Regional Authority Governance"
    && GetOr(m, "last_verified", "") == "2024-09-03"
  }

  /** One regional row in the target layout: a name containing `Board` (case-sensitive)
      makes a board, anything else a committee. */
  function ConvertRow(row: Row): (m: Row)
    ensures m.Keys == FieldKeys
  {
    var name := GetOr(row, "official_name", "");
    map["id" := GetOr(row, "id", ""),
        "name" := name,
        "type" := if Contains(name, "Board") then "Board" else "Committee",
        "jurisdiction" := "Regional",
        "parent_entity" := GetOr(row, "parent_organization", ""),
        "website_url" := GetOr(row, "website_url", ""),
        "description" := GetOr(row, "description_purpose", ""),
        "members_count" := GetOr(row, "member_count", ""),
        "appointment_authority" := GetOr(row, "appointment_authority", ""),
        "meeting_schedule" := GetOr(row, "meeting_schedule", ""),
        "creation_date" := "",
        "legal_source" := "Regional Authority Governance",
        "last_verified" := "2024-09-03"]
  }

  lemma ConvertKeepsIds(row: Row)
    ensures var m := ConvertRow(row);
      GetOr(m, "id", "") == GetOr(row, "id", "")
      && GetOr(m, "website_url", "") == GetOr(row, "website_url", "")
  {
  }

  lemma ConvertKeepsAppointments(row: Row)
    ensures var m := ConvertRow(row);
      GetOr(m, "appointment_authority", "") == GetOr(row, "appointment_authority", "")
      && GetOr(m, "meeting_schedule", "") == GetOr(row, "meeting_schedule", "")
  {
  }

  lemma ConvertRenamesNames(row: Row)
    ensures var m := ConvertRow(row);
      GetOr(m, "name", "") == GetOr(row, "official_name", "")
      && GetOr(m, "parent_entity", "") == GetOr(row, "parent_organization", "")
  {
  }

  lemma ConvertRenamesDetails(row: Row)
    ensures var m := ConvertRow(row);
      GetOr(m, "description", "") == GetOr(row, "description_purpose", "")
      && GetOr(m, "members_count", "") == GetOr(row, "member_count", "")
  {
  }

  lemma ConvertType(row: Row)
    ensures var m := ConvertRow(row);
      (GetOr(m, "type", "") == "Board" <==> Contains(GetOr(row, "official_name", ""), "Board"))
      && (GetOr(m, "type", "") == "Board" || GetOr(m, "type", "") == "Committee")
  {
  }

  lemma ConvertConstants(row: Row)
    ensures var m := ConvertRow(row);
      GetOr(m, "jurisdiction", "") == "Regional"
      && GetOr(m, "creation_date", "") == ""
      && GetOr(m, "legal_source", "") == "Regional Authority Governance"
      && GetOr(m, "last_verified", "") == "2024-09-03"
  {
  }

  /** A converted row has exactly the target columns, filled from the regional columns
      they correspond to, with the type decided by the name and the rest constant. */
  lemma ConvertFields(row: Row)
    ensures ConvertedFrom(ConvertRow(row), row)
  {
    ConvertKeepsIds(row);
    ConvertKeepsAppointments(row);
    ConvertRenamesNames(row);
    ConvertRenamesDetails(row);
    ConvertType(row);
    ConvertConstants(row);
  }

  function ConvertAll(rows: seq<Row>): (ms: seq<Row>)
    ensures |ms| == |rows| && forall i :: 0 <= i < |rows| ==> ms[i] == ConvertRow(rows[i])
  {
    seq(|rows|, i requires 0 <= i < |rows| => ConvertRow(rows[i]))
  }

  /** What a run leaves behind. `Raised` carries the error and, when the target file had
      already been opened for writing, the lines it was left holding. */
  datatype Outcome =
    | SourceMissing
    | Raised(error: PyError, partial: Option<seq<seq<string>>>)
    | Integrated(lines: seq<seq<string>>, count: nat)

  /** A run over the regional table (`None` when the file does not exist) and the
      target table. The target is truncated and the header written before any row, so a
      row the writer rejects leaves the header and the rows before it in the file. */
  function Integrate(source: Option<seq<Row>>, target: Option<seq<Row>>): (o: Outcome)
    ensures source.None? <==> o.SourceMissing?
    ensures source.Some? && target.None? ==> o == Raised(FileNotFound(TargetFile), None)
    ensures o.Integrated? ==> o.count == |target.value| + |source.value| && |o.lines| == o.count + 1
    ensures o.Raised? && o.partial.Some? ==> |o.partial.value| >= 1 && o.partial.value[0] == Fieldnames
  {
    if source.None? then SourceMissing
    else if target.None? then Raised(FileNotFound(TargetFile), None)
    else
      var all := target.value + ConvertAll(source.value);
      var (lines, err) := WriteRows(all, Fieldnames);
      if err.Some? then Raised(err.value, Some([Fieldnames] + lines))
      else Integrated([Fieldnames] + lines, |all|)
  }

  /** Converted rows never trip the writer: the run succeeds exactly when every row
      already in the target uses only the target's columns. */
  lemma IntegrateSucceedsIff(source: seq<Row>, target: seq<Row>)
    ensures Integrate(Some(source), Some(target)).Integrated? <==>
      forall i :: 0 <= i < |target| ==> target[i].Keys <= FieldKeys
  {
    var all := target + ConvertAll(source);
    assert forall i :: 0 <= i < |target| ==> all[i] == target[i];
    assert forall i :: |target| <= i < |all| ==> all[i] == ConvertRow(source[i - |target|]);
  }

  /** A successful run rewrites the existing rows unchanged and in order, then appends
      every converted regional row in order. */
  lemma IntegratedFile(source: seq<Row>, target: seq<Row>)
    requires Integrate(Some(source), Some(target)).Integrated?
    ensures var file := Integrate(Some(source), Some(target)).lines;
      |file| == 1 + |target| + |source|
      && file[0] == Fieldnames
      && (forall i :: 0 <= i < |target| ==> file[1 + i] == Line(target[i], Fieldnames))
      && (forall i :: 0 <= i < |source| ==> file[1 + |target| + i] == Line(ConvertRow(source[i]), Fieldnames))
  {
    var all := target + ConvertAll(source);
    assert forall i :: 0 <= i < |target| ==> all[i] == target[i];
    assert forall i :: 0 <= i < |source| ==> all[|target| + i] == ConvertRow(source[i]);
  }
}
