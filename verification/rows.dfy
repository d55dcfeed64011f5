/** CSV rows as `csv.DictReader` yields them: a map from column name to cell text, and
    the errors the scripts can raise while reading and writing them. */
module Rows {
  import opened Wrappers

  type Row = map<string, string>

  /** `KeyError` of `row[key]`, a missing file, or `ValueError` of `DictWriter` when a
      row has a key outside its field names. */
  datatype PyError = KeyError(key: string) | FileNotFound(name: string) | ValueError(extra: set<string>)

  /** `row.get(key, default)`. */
  function GetOr(row: Row, key: string, default: string): (v: string)
    ensures key in row ==> v == row[key]
    ensures key !in row ==> v == default
  {
    if key in row then row[key] else default
  }

  /** `row[key]`. */
  function Get(row: Row, key: string): (r: Result<string, PyError>)
    ensures r.Success? <==> key in row
    ensures r.Success? ==> r.value == row[key]
    ensures r.Failure? ==> r.error == KeyError(key)
  {
    if key in row then Success(row[key]) else Failure(KeyError(key))
  }

  /** The cells `csv.DictWriter` writes for a row: one per field name, `''` where the
      row has no such key. */
  function Line(row: Row, fieldnames: seq<string>): (cells: seq<string>)
    ensures |cells| == |fieldnames|
    ensures forall i :: 0 <= i < |fieldnames| ==> cells[i] == GetOr(row, fieldnames[i], "")
  {
    seq(|fieldnames|, i requires 0 <= i < |fieldnames| => GetOr(row, fieldnames[i], ""))
  }

  /** `DictWriter.writerows` with the default `extrasaction='raise'`: rows are written in
      order until the first one with a key outside the field names, which raises
      `ValueError`; the lines written before it stay in the file. */
  function WriteRows(rows: seq<Row>, fieldnames: seq<string>): (r: (seq<seq<string>>, Option<PyError>))
    ensures r.1.None? <==> forall i :: 0 <= i < |rows| ==> rows[i].Keys <= set k | k in fieldnames
    ensures r.1.None? ==> |r.0| == |rows|
    ensures |r.0| <= |rows|
    ensures forall i :: 0 <= i < |r.0| ==> r.0[i] == Line(rows[i], fieldnames)
    ensures r.1.Some? ==> |r.0| < |rows| && r.1.value == ValueError(rows[|r.0|].Keys - set k | k in fieldnames)
    ensures forall i :: 0 <= i < |r.0| ==> rows[i].Keys <= set k | k in fieldnames
    ensures r.1.Some? ==> !(rows[|r.0|].Keys <= set k | k in fieldnames)
    decreases |rows|
  {
    if |rows| == 0 then ([], None)
    else if !(rows[0].Keys <= set k | k in fieldnames) then
      ([], Some(ValueError(rows[0].Keys - set k | k in fieldnames)))
    else
      var rest := WriteRows(rows[1..], fieldnames);
      assert forall i :: 1 <= i < |rows| ==> rows[i] == rows[1..][i - 1];
      ([Line(rows[0], fieldnames)] + rest.0, rest.1)
  }
}
