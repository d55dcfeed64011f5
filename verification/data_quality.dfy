/** The counting checks of the data-quality report: which required fields are blank,
    which ids appear more than once, and which names repeat. */
module DataQuality {
  import opened Text
  import opened Seqs
  import opened Rows

  const RequiredFields: seq<string> := ["id", "name", "description", "website_url", "legal_source"]

  /** A field is missing when the row lacks it or holds only whitespace. */
  predicate FieldMissing(row: Row, field: string) {
    IsBlank(GetOr(row, field, ""))
  }

  function MissingIn(field: string): Row -> bool {
    row => FieldMissing(row, field)
  }

  /** The rows in which `field` is missing, in file order. */
  function MissingRows(rows: seq<Row>, field: string): seq<Row> {
    Filter(MissingIn(field), rows)
  }

  /** The per-field tally of `validate_data_completeness`. */
  datatype FieldStat = FieldStat(field: string, total: nat, missing: nat)

  /** The rows missing a field, counted: their number, and when it is zero. */
  lemma FieldTally(rows: seq<Row>, field: string)
    ensures |MissingRows(rows, field)| == Count(MissingIn(field), rows)
    ensures |MissingRows(rows, field)| == 0 <==> forall i :: 0 <= i < |rows| ==> !IsBlank(GetOr(rows[i], field, ""))
  {
    FilterEmptyIff(MissingIn(field), rows);
    FilterLengthIsCount(MissingIn(field), rows);
  }

  /** One tally per required field: every row counted, and the rows in which the field
      is missing counted one by one. */
  function Completeness(rows: seq<Row>): (stats: seq<FieldStat>)
    ensures |stats| == |RequiredFields|
    ensures forall k :: 0 <= k < |stats| ==>
      stats[k].field == RequiredFields[k] && stats[k].total == |rows| && stats[k].missing <= stats[k].total
    ensures forall k :: 0 <= k < |stats| ==>
      (stats[k].missing == 0 <==> forall i :: 0 <= i < |rows| ==> !IsBlank(GetOr(rows[i], RequiredFields[k], "")))
    ensures forall k :: 0 <= k < |stats| ==> stats[k].missing == Count(MissingIn(RequiredFields[k]), rows)
  {
    forall k | 0 <= k < |RequiredFields| {
      FieldTally(rows, RequiredFields[k]);
    }
    seq(|RequiredFields|, k requires 0 <= k < |RequiredFields| =>
      FieldStat(RequiredFields[k], |rows|, |MissingRows(rows, RequiredFields[k])|))
  }

  /** The ids (or `'unknown'`) of every row in which `field` is missing. */
  function MissingIds(rows: seq<Row>, field: string): (ids: seq<string>)
    ensures |ids| == |MissingRows(rows, field)|
  {
    var m := MissingRows(rows, field);
    seq(|m|, i requires 0 <= i < |m| => GetOr(m[i], "id", "unknown"))
  }

  lemma MissingIdsStep(rows: seq<Row>, field: string, i: nat)
    requires i < |rows|
    ensures MissingIds(rows[..i + 1], field)
      == MissingIds(rows[..i], field) + (if FieldMissing(rows[i], field) then [GetOr(rows[i], "id", "unknown")] else [])
  {
    assert rows[..i + 1] == rows[..i] + [rows[i]];
    FilterAppend(MissingIn(field), rows[..i], [rows[i]]);
    assert [rows[i]][1..] == [];
  }

  lemma MissingIdsPrefix(rows: seq<Row>, field: string, i: nat)
    requires i <= |rows|
    ensures |MissingIds(rows[..i], field)| <= |MissingIds(rows, field)|
    ensures MissingIds(rows[..i], field) == MissingIds(rows, field)[..|MissingIds(rows[..i], field)|]
  {
    assert rows == rows[..i] + rows[i..];
    FilterAppend(MissingIn(field), rows[..i], rows[i..]);
  }

  /** The listing printed under a field with few blanks: the ids of the rows missing it,
      collected in order until five have been found. */
  method ListMissing(rows: seq<Row>, field: string) returns (ids: seq<string>)
    ensures ids == Take(MissingIds(rows, field), 5)
    ensures |MissingRows(rows, field)| <= 5 ==> |ids| == |MissingRows(rows, field)|
  {
    ids := [];
    var i := 0;
    while i < |rows| && |ids| < 5
      invariant 0 <= i <= |rows|
      invariant ids == MissingIds(rows[..i], field)
      invariant |ids| <= 5
    {
      MissingIdsStep(rows, field, i);
      if FieldMissing(rows[i], field) {
        ids := ids + [GetOr(rows[i], "id", "unknown")];
      }
      i := i + 1;
    }
    ListingDone(rows, field, i, ids);
  }

  lemma ListingDone(rows: seq<Row>, field: string, i: nat, ids: seq<string>)
    requires i <= |rows| && ids == MissingIds(rows[..i], field) && |ids| <= 5
    requires i == |rows| || |ids| == 5
    ensures ids == Take(MissingIds(rows, field), 5)
    ensures |MissingRows(rows, field)| <= 5 ==> |ids| == |MissingRows(rows, field)|
  {
    MissingIdsPrefix(rows, field, i);
    if i == |rows| {
      assert rows[..i] == rows;
    }
  }

  /** The key `check_duplicates` compares ids by. */
  function IdKey(row: Row): string {
    Strip(GetOr(row, "id", ""))
  }

  /** The key names are compared by: stripped, then lower-cased. */
  function NameKey(row: Row): string {
    Lower(Strip(GetOr(row, "name", "")))
  }

  function IdKeys(rows: seq<Row>): (keys: seq<string>)
    ensures |keys| == |rows| && forall i :: 0 <= i < |rows| ==> keys[i] == IdKey(rows[i])
  {
    seq(|rows|, i requires 0 <= i < |rows| => IdKey(rows[i]))
  }

  function NameKeys(rows: seq<Row>): (keys: seq<string>)
    ensures |keys| == |rows| && forall i :: 0 <= i < |rows| ==> keys[i] == NameKey(rows[i])
  {
    seq(|rows|, i requires 0 <= i < |rows| => NameKey(rows[i]))
  }

  function RawNames(rows: seq<Row>): (names: seq<string>)
    ensures |names| == |rows| && forall i :: 0 <= i < |rows| ==> names[i] == GetOr(rows[i], "name", "")
  {
    seq(|rows|, i requires 0 <= i < |rows| => GetOr(rows[i], "name", ""))
  }

  /** Position `j` repeats a key of an earlier position (and, when blanks are skipped,
      the key is not blank). */
  predicate RepeatAt(keys: seq<string>, j: nat, skipBlank: bool)
    requires j < |keys|
  {
    keys[j] in keys[..j] && (!skipBlank || keys[j] != "")
  }

  /** The value reported for each repeating position, in order. */
  function Repeats(keys: seq<string>, vals: seq<string>, skipBlank: bool): (r: seq<string>)
    requires |vals| == |keys|
    ensures |r| <= |keys|
    decreases |keys|
  {
    if |keys| == 0 then []
    else
      var n := |keys| - 1;
      Repeats(keys[..n], vals[..n], skipBlank) + (if RepeatAt(keys, n, skipBlank) then [vals[n]] else [])
  }

  /** `v` is the value of some position that repeats an earlier key. */
  predicate ValueOfRepeat(keys: seq<string>, vals: seq<string>, skipBlank: bool, v: string)
    requires |vals| == |keys|
  {
    exists j :: 0 <= j < |keys| && RepeatAt(keys, j, skipBlank) && v == vals[j]
  }

  /** Every reported value is the value of a position that repeats an earlier key. */
  lemma {:induction false} RepeatsAreRepeats(keys: seq<string>, vals: seq<string>, skipBlank: bool)
    requires |vals| == |keys|
    ensures forall v :: v in Repeats(keys, vals, skipBlank) ==> ValueOfRepeat(keys, vals, skipBlank, v)
    decreases |keys|
  {
    if |keys| > 0 {
      var n := |keys| - 1;
      RepeatsAreRepeats(keys[..n], vals[..n], skipBlank);
      var rest := Repeats(keys[..n], vals[..n], skipBlank);
      assert Repeats(keys, vals, skipBlank) == rest + (if RepeatAt(keys, n, skipBlank) then [vals[n]] else []);
      forall v | v in Repeats(keys, vals, skipBlank)
        ensures ValueOfRepeat(keys, vals, skipBlank, v)
      {
        if v in rest {
          assert ValueOfRepeat(keys[..n], vals[..n], skipBlank, v);
          var j :| 0 <= j < |keys[..n]| && RepeatAt(keys[..n], j, skipBlank) && v == vals[..n][j];
          RepeatAtPrefix(keys, n, j, skipBlank);
          assert 0 <= j < |keys| && RepeatAt(keys, j, skipBlank) && v == vals[j];
        } else {
          assert 0 <= n < |keys| && RepeatAt(keys, n, skipBlank) && v == vals[n];
        }
      }
    }
  }

  /** Whether a position repeats an earlier key does not depend on what comes after it. */
  lemma RepeatAtPrefix(keys: seq<string>, n: nat, j: nat, skipBlank: bool)
    requires j < n <= |keys|
    ensures RepeatAt(keys[..n], j, skipBlank) == RepeatAt(keys, j, skipBlank)
  {
    assert keys[..n][..j] == keys[..j];
  }

  /** The distinct keys. */
  function KeySet(keys: seq<string>): (r: set<string>)
    ensures forall k :: k in r <==> k in keys
  {
    set k | k in keys
  }

  lemma RepeatsStep(keys: seq<string>, vals: seq<string>, skipBlank: bool, i: nat)
    requires |vals| == |keys| && i < |keys|
    ensures Repeats(keys[..i + 1], vals[..i + 1], skipBlank)
      == Repeats(keys[..i], vals[..i], skipBlank) + (if RepeatAt(keys, i, skipBlank) then [vals[i]] else [])
    ensures KeySet(keys[..i + 1]) == KeySet(keys[..i]) + {keys[i]}
    ensures keys[i] in KeySet(keys[..i]) <==> keys[i] in keys[..i]
  {
    assert keys[..i + 1][..i] == keys[..i] && vals[..i + 1][..i] == vals[..i];
    assert keys[..i + 1][..i + 1 - 1] == keys[..i];
    assert keys[..i + 1] == keys[..i] + [keys[i]];
  }

  /** Some two positions share a key (a non-blank one when blanks are skipped). */
  predicate HasRepeat(keys: seq<string>, skipBlank: bool) {
    exists i, j :: 0 <= i < j < |keys| && keys[i] == keys[j] && (!skipBlank || keys[j] != "")
  }

  lemma {:induction false} RepeatsIffRepeat(keys: seq<string>, vals: seq<string>, skipBlank: bool)
    requires |vals| == |keys|
    ensures |Repeats(keys, vals, skipBlank)| > 0 <==> HasRepeat(keys, skipBlank)
    decreases |keys|
  {
    if |keys| > 0 {
      var n := |keys| - 1;
      var init := keys[..n];
      RepeatsIffRepeat(init, vals[..n], skipBlank);
      if HasRepeat(init, skipBlank) {
        var i, j :| 0 <= i < j < |init| && init[i] == init[j] && (!skipBlank || init[j] != "");
        assert keys[i] == keys[j];
      }
      if RepeatAt(keys, n, skipBlank) {
        var i :| 0 <= i < n && keys[..n][i] == keys[n];
        assert keys[i] == keys[n];
      }
      if HasRepeat(keys, skipBlank) && !HasRepeat(init, skipBlank) {
        var i, j :| 0 <= i < j < |keys| && keys[i] == keys[j] && (!skipBlank || keys[j] != "");
        assert j == n;
        assert keys[..n][i] == keys[n];
      }
    }
  }

  /** Without blank skipping, every position after a key's first adds one entry: the
      entries and the distinct keys together account for every row. */
  lemma {:induction false} RepeatsCount(keys: seq<string>, vals: seq<string>)
    requires |vals| == |keys|
    ensures |Repeats(keys, vals, false)| + |KeySet(keys)| == |keys|
    decreases |keys|
  {
    if |keys| > 0 {
      var n := |keys| - 1;
      RepeatsCount(keys[..n], vals[..n]);
      assert keys == keys[..n] + [keys[n]];
      var before := KeySet(keys[..n]);
      assert KeySet(keys) == before + {keys[n]};
      if keys[n] in keys[..n] {
        assert keys[n] in before;
        assert before + {keys[n]} == before;
        assert Repeats(keys, vals, false) == Repeats(keys[..n], vals[..n], false) + [vals[n]];
      } else {
        assert keys[n] !in before;
        assert |before + {keys[n]}| == |before| + 1;
        assert Repeats(keys, vals, false) == Repeats(keys[..n], vals[..n], false) + [];
      }
    }
  }

  /** The duplicate-id list: the key of every row whose key an earlier row already had,
      blank keys included. */
  function DuplicateIds(rows: seq<Row>): (dups: seq<string>)
    ensures |dups| + |KeySet(IdKeys(rows))| == |rows|
    ensures |dups| > 0 <==> HasRepeat(IdKeys(rows), false)
  {
    RepeatsCount(IdKeys(rows), IdKeys(rows));
    RepeatsIffRepeat(IdKeys(rows), IdKeys(rows), false);
    Repeats(IdKeys(rows), IdKeys(rows), false)
  }

  /** The duplicate-name list: the raw name of every row whose non-blank name key an
      earlier row already had. */
  function DuplicateNames(rows: seq<Row>): (dups: seq<string>)
    ensures |dups| <= |rows|
    ensures |dups| > 0 <==> HasRepeat(NameKeys(rows), true)
  {
    RepeatsIffRepeat(NameKeys(rows), RawNames(rows), true);
    Repeats(NameKeys(rows), RawNames(rows), true)
  }

  /** `v` is the raw name of a row whose name key is not blank. */
  predicate NameOfNamedRow(rows: seq<Row>, v: string) {
    exists j :: 0 <= j < |rows| && v == GetOr(rows[j], "name", "") && NameKey(rows[j]) != ""
  }

  /** Every reported duplicate name is the raw name of a row with a non-blank name. */
  lemma DuplicateNamesAreNames(rows: seq<Row>)
    ensures forall v :: v in DuplicateNames(rows) ==> NameOfNamedRow(rows, v)
  {
    var keys, names := NameKeys(rows), RawNames(rows);
    RepeatsAreRepeats(keys, names, true);
    forall v | v in DuplicateNames(rows)
      ensures NameOfNamedRow(rows, v)
    {
      assert ValueOfRepeat(keys, names, true, v);
      var j :| 0 <= j < |keys| && RepeatAt(keys, j, true) && v == names[j];
      assert keys[j] == NameKey(rows[j]) && names[j] == GetOr(rows[j], "name", "");
    }
  }

  /** Two rows whose ids are both blank count as a duplicate id. */
  lemma BlankIdsAreDuplicates(rows: seq<Row>, i: nat, j: nat)
    requires i < j < |rows|
    requires IsBlank(GetOr(rows[i], "id", "")) && IsBlank(GetOr(rows[j], "id", ""))
    ensures |DuplicateIds(rows)| > 0
  {
    assert IdKeys(rows)[i] == "" == IdKeys(rows)[j];
  }

  /** One pass over the keys with the set of keys seen so far, reporting the value of
      each position that repeats an earlier key. */
  method ScanRepeats(keys: seq<string>, vals: seq<string>, skipBlank: bool) returns (dups: seq<string>)
    requires |vals| == |keys|
    ensures dups == Repeats(keys, vals, skipBlank)
  {
    var seen: set<string> := {};
    dups := [];
    var i := 0;
    assert keys[..0] == [] && vals[..0] == [];
    while i < |keys|
      invariant 0 <= i <= |keys|
      invariant seen == KeySet(keys[..i])
      invariant dups == Repeats(keys[..i], vals[..i], skipBlank)
    {
      RepeatsStep(keys, vals, skipBlank, i);
      var key := keys[i];
      if key in seen && (!skipBlank || key != "") {
        dups := dups + [vals[i]];
      }
      seen := seen + {key};
      i := i + 1;
    }
    assert keys[..i] == keys && vals[..i] == vals;
  }

  /** `check_duplicates`: the id keys and the name keys of every row, each scanned for
      repeats (names skipping blanks and reporting the raw name); returns both lists and
      their lengths. */
  method CheckDuplicates(rows: seq<Row>) returns (idCount: nat, nameCount: nat, dupIds: seq<string>, dupNames: seq<string>)
    ensures dupIds == DuplicateIds(rows) && dupNames == DuplicateNames(rows)
    ensures idCount == |dupIds| && nameCount == |dupNames|
  {
    dupIds := ScanRepeats(IdKeys(rows), IdKeys(rows), false);
    dupNames := ScanRepeats(NameKeys(rows), RawNames(rows), true);
    idCount := |dupIds|;
    nameCount := |dupNames|;
  }
}
