/** `combine_entity_files`: the per-category entity tables normalised onto the nine
    master columns, concatenated in a fixed file order, with a count per category. */
module MasterList {
  import opened Wrappers
  import opened Text
  import opened Rows

  const InputFiles: seq<string> := [
    "sd_gov_elected.csv", "sd_gov_city_departments.csv", "sd_gov_county_departments.csv",
    "sd_gov_regional_authorities.csv", "sd_gov_boards_commissions.csv"]

  const MasterHeaders: seq<string> := [
    "id", "name", "type", "jurisdiction", "parent_entity", "website_url", "description",
    "legal_source", "last_verified"]

  const MasterKeys: set<string> := set h | h in MasterHeaders

  /** The categories a file's rows are counted under. */
  datatype Bucket = Elected | CityDepartments | CountyDepartments | Regional | Boards

  /** The first filename fragment that matches decides the category; a file matching
      none is not counted. */
  function BucketOf(filename: string): Option<Bucket> {
    if Contains(filename, "elected") then Some(Elected)
    else if Contains(filename, "city_departments") then Some(CityDepartments)
    else if Contains(filename, "county_departments") then Some(CountyDepartments)
    else if Contains(filename, "regional") then Some(Regional)
    else if Contains(filename, "boards") then Some(Boards)
    else None
  }

  /** The per-category tally. */
  datatype Counts = Counts(elected: nat, cityDepartments: nat, countyDepartments: nat, regional: nat, boards: nat) {
    function Sum(): nat {
      elected + cityDepartments + countyDepartments + regional + boards
    }

    /** `n` more rows under bucket `b`; nothing changes without a bucket. */
    function Add(b: Option<Bucket>, n: nat): (c: Counts)
      ensures c.Sum() == Sum() + (if b.Some? then n else 0)
    {
      match b
      case None => this
      case Some(Elected) => this.(elected := elected + n)
      case Some(CityDepartments) => this.(cityDepartments := cityDepartments + n)
      case Some(CountyDepartments) => this.(countyDepartments := countyDepartments + n)
      case Some(Regional) => this.(regional := regional + n)
      case Some(Boards) => this.(boards := boards + n)
    }
  }

  const NoCounts := Counts(0, 0, 0, 0, 0)

  /** A master row: exactly the master columns, with `jurisdiction` kept when present
      (even when empty) and `type` taken from `position` only when it is absent. */
  predicate MasterRowOf(m: Row, row: Row, today: string)
  {
    m.Keys == MasterKeys
    && GetOr(m, "id", "") == GetOr(row, "id", "")
    && GetOr(m, "name", "") == GetOr(row, "name", "")
    && GetOr(m, "type", "") == (if "type" in row then row["type"] else GetOr(row, "position", ""))
    && GetOr(m, "jurisdiction", "") == (if "jurisdiction" in row then row["jurisdiction"] else "San Diego County")
    && GetOr(m, "parent_entity", "") == GetOr(row, "parent_entity", "")
    && GetOr(m, "website_url", "") == GetOr(row, "website_url", "")
    && GetOr(m, "description", "") == GetOr(row, "description", "")
    && GetOr(m, "legal_source", "") == GetOr(row, "legal_source", "")
    && GetOr(m, "last_verified", "") == (if "last_verified" in row then row["last_verified"] else today)
  }

  /** One input row standardised onto the master columns; `today` stands for the
      current date the source reads from the clock. */
  function Normalize(row: Row, today: string): (m: Row)
    ensures m.Keys == MasterKeys
  {
    map["id" := GetOr(row, "id", ""),
        "name" := GetOr(row, "name", ""),
        "type" := GetOr(row, "type", GetOr(row, "position", "")),
        "jurisdiction" := GetOr(row, "jurisdiction", "San Diego County"),
        "parent_entity" := GetOr(row, "parent_entity", ""),
        "website_url" := GetOr(row, "website_url", ""),
        "description" := GetOr(row, "description", ""),
        "legal_source" := GetOr(row, "legal_source", ""),
        "last_verified" := GetOr(row, "last_verified", today)]
  }

  lemma NormalizeKeepsId(row: Row, today: string)
    ensures GetOr(Normalize(row, today), "id", "") == GetOr(row, "id", "")
  {
  }

  lemma NormalizeKeepsNameAndParent(row: Row, today: string)
    ensures var m := Normalize(row, today);
      GetOr(m, "name", "") == GetOr(row, "name", "")
      && GetOr(m, "parent_entity", "") == GetOr(row, "parent_entity", "")
  {
  }

  lemma NormalizeKeepsDetails(row: Row, today: string)
    ensures var m := Normalize(row, today);
      GetOr(m, "website_url", "") == GetOr(row, "website_url", "")
      && GetOr(m, "description", "") == GetOr(row, "description", "")
      && GetOr(m, "legal_source", "") == GetOr(row, "legal_source", "")
  {
  }

  lemma NormalizeDefaults(row: Row, today: string)
    ensures var m := Normalize(row, today);
      GetOr(m, "type", "") == (if "type" in row then row["type"] else GetOr(row, "position", ""))
      && GetOr(m, "jurisdiction", "") == (if "jurisdiction" in row then row["jurisdiction"] else "San Diego County")
      && GetOr(m, "last_verified", "") == (if "last_verified" in row then row["last_verified"] else today)
  {
  }

  /** A normalised row is a master row of its input: the copied columns carry the input's
      values, and the three defaulted columns fall back as described above. */
  lemma NormalizeFields(row: Row, today: string)
    ensures MasterRowOf(Normalize(row, today), row, today)
  {
    NormalizeKeepsId(row, today);
    NormalizeKeepsNameAndParent(row, today);
    NormalizeKeepsDetails(row, today);
    NormalizeDefaults(row, today);
  }

  function NormalizeAll(rows: seq<Row>, today: string): (ms: seq<Row>)
    ensures |ms| == |rows| && forall i :: 0 <= i < |rows| ==> ms[i] == Normalize(rows[i], today)
  {
    seq(|rows|, i requires 0 <= i < |rows| => Normalize(rows[i], today))
  }

  lemma NormalizeAllAppend(a: seq<Row>, b: seq<Row>, today: string)
    ensures NormalizeAll(a + b, today) == NormalizeAll(a, today) + NormalizeAll(b, today)
  {
    var l := NormalizeAll(a + b, today);
    var r := NormalizeAll(a, today) + NormalizeAll(b, today);
    forall i | 0 <= i < |l| ensures l[i] == r[i] {
      if i < |a| {
        assert (a + b)[i] == a[i];
      } else {
        assert (a + b)[i] == b[i - |a|];
      }
    }
  }

  /** The rows of the files that exist, in list order. */
  function Present(names: seq<string>, files: map<string, seq<Row>>): seq<Row>
    decreases |names|
  {
    if |names| == 0 then []
    else (if names[0] in files then files[names[0]] else []) + Present(names[1..], files)
  }

  /** The loop over the input files: a file that does not exist is skipped; the rows of
      every other file are normalised and appended, and counted under its bucket. */
  function Combine(names: seq<string>, files: map<string, seq<Row>>, today: string): (r: (seq<Row>, Counts))
    ensures r.0 == NormalizeAll(Present(names, files), today)
    ensures (forall i :: 0 <= i < |names| ==> BucketOf(names[i]).Some?) ==> r.1.Sum() == |r.0|
    decreases |names|
  {
    if |names| == 0 then ([], NoCounts)
    else
      var rows := if names[0] in files then files[names[0]] else [];
      var rest := Combine(names[1..], files, today);
      assert forall i :: 1 <= i < |names| ==> names[i] == names[1..][i - 1];
      var out := NormalizeAll(rows, today) + rest.0;
      NormalizeAllAppend(rows, Present(names[1..], files), today);
      (out, rest.1.Add(BucketOf(names[0]), |rows|))
  }

  /** `combine_entity_files`: the master rows, the per-category counts and the total it
      returns. */
  function CombineEntityFiles(files: map<string, seq<Row>>, today: string): (r: (seq<Row>, Counts, nat))
    ensures r.0 == NormalizeAll(Present(InputFiles, files), today)
    ensures r.2 == |r.0|
  {
    var (rows, counts) := Combine(InputFiles, files, today);
    (rows, counts, |rows|)
  }

  const Fragments: seq<string> := ["elected", "city_departments", "county_departments", "regional", "boards"]
  const Buckets: seq<Bucket> := [Elected, CityDepartments, CountyDepartments, Regional, Boards]

  /** The chain picks the bucket of the first fragment the name contains. */
  lemma ChainPicks(f: string, k: nat)
    requires k < 5 && Contains(f, Fragments[k])
    requires forall i :: 0 <= i < k ==> !Contains(f, Fragments[i])
    ensures BucketOf(f) == Some(Buckets[k])
  {
    if k > 0 { assert !Contains(f, Fragments[0]); }
    if k > 1 { assert !Contains(f, Fragments[1]); }
    if k > 2 { assert !Contains(f, Fragments[2]); }
    if k > 3 { assert !Contains(f, Fragments[3]); }
  }

  /** Facts about the five literal file names, used by `InputFileBuckets`. For each
      file: it contains its own fragment (`*Has*`, by splitting the name around it), no
      earlier fragment occurs in it (`*Lacks*`, by a character of the fragment the name
      lacks), and so `ChainPicks` gives its category (`*Bucket`). The lemmas are
      alike on purpose: one small proof per literal keeps each of them cheap. */
  lemma ElectedFileHasElected()
    ensures Contains("sd_gov_elected.csv", "elected")
  {
    assert "sd_gov_elected.csv" == "sd_gov_" + "elected" + ".csv";
    ContainsSplit("sd_gov_", "elected", ".csv");
  }

  lemma ElectedFileBucket()
    ensures BucketOf("sd_gov_elected.csv") == Some(Elected)
  {
    ElectedFileHasElected();
    ChainPicks("sd_gov_elected.csv", 0);
  }

  lemma CityFileLacksElected()
    ensures !Contains("sd_gov_city_departments.csv", "elected")
  {
    MissingCharExcludes("sd_gov_city_departments.csv", "elected", 'l');
  }

  lemma CityFileHasCity()
    ensures Contains("sd_gov_city_departments.csv", "city_departments")
  {
    assert "sd_gov_city_departments.csv" == "sd_gov_" + "city_departments" + ".csv";
    ContainsSplit("sd_gov_", "city_departments", ".csv");
  }

  lemma CityFileBucket()
    ensures BucketOf("sd_gov_city_departments.csv") == Some(CityDepartments)
  {
    CityFileLacksElected();
    CityFileHasCity();
    ChainPicks("sd_gov_city_departments.csv", 1);
  }

  lemma CountyFileLacksElected()
    ensures !Contains("sd_gov_county_departments.csv", "elected")
  {
    MissingCharExcludes("sd_gov_county_departments.csv", "elected", 'l');
  }

  lemma CountyFileLacksCity()
    ensures !Contains("sd_gov_county_departments.csv", "city_departments")
  {
    MissingCharExcludes("sd_gov_county_departments.csv", "city_departments", 'i');
  }

  lemma CountyFileHasCounty()
    ensures Contains("sd_gov_county_departments.csv", "county_departments")
  {
    assert "sd_gov_county_departments.csv" == "sd_gov_" + "county_departments" + ".csv";
    ContainsSplit("sd_gov_", "county_departments", ".csv");
  }

  lemma CountyFileBucket()
    ensures BucketOf("sd_gov_county_departments.csv") == Some(CountyDepartments)
  {
    CountyFileLacksElected();
    CountyFileLacksCity();
    CountyFileHasCounty();
    ChainPicks("sd_gov_county_departments.csv", 2);
  }

  /** The regional file name has a `d` only before the position `elected` would need it at. */
  lemma RegionalFileLacksElected()
    ensures !Contains("sd_gov_regional_authorities.csv", "elected")
  {
    assert "sd_gov_regional_authorities.csv" == "sd_gov" + "_regional_authorities.csv";
    assert 'd' !in "_regional_authorities.csv";
    CharExcludes("sd_gov_regional_authorities.csv", "elected", 6);
  }

  lemma RegionalFileLacksCity()
    ensures !Contains("sd_gov_regional_authorities.csv", "city_departments")
  {
    MissingCharExcludes("sd_gov_regional_authorities.csv", "city_departments", 'y');
  }

  lemma RegionalFileLacksCounty()
    ensures !Contains("sd_gov_regional_authorities.csv", "county_departments")
  {
    MissingCharExcludes("sd_gov_regional_authorities.csv", "county_departments", 'y');
  }

  lemma RegionalFileHasRegional()
    ensures Contains("sd_gov_regional_authorities.csv", "regional")
  {
    assert "sd_gov_regional_authorities.csv" == "sd_gov_" + "regional" + "_authorities.csv";
    ContainsSplit("sd_gov_", "regional", "_authorities.csv");
  }

  lemma RegionalFileBucket()
    ensures BucketOf("sd_gov_regional_authorities.csv") == Some(Regional)
  {
    RegionalFileLacksElected();
    RegionalFileLacksCity();
    RegionalFileLacksCounty();
    RegionalFileHasRegional();
    ChainPicks("sd_gov_regional_authorities.csv", 3);
  }

  lemma BoardsFileLacksElected()
    ensures !Contains("sd_gov_boards_commissions.csv", "elected")
  {
    MissingCharExcludes("sd_gov_boards_commissions.csv", "elected", 'e');
  }

  lemma BoardsFileLacksCity()
    ensures !Contains("sd_gov_boards_commissions.csv", "city_departments")
  {
    MissingCharExcludes("sd_gov_boards_commissions.csv", "city_departments", 't');
  }

  lemma BoardsFileLacksCounty()
    ensures !Contains("sd_gov_boards_commissions.csv", "county_departments")
  {
    MissingCharExcludes("sd_gov_boards_commissions.csv", "county_departments", 'u');
  }

  lemma BoardsFileLacksRegional()
    ensures !Contains("sd_gov_boards_commissions.csv", "regional")
  {
    MissingCharExcludes("sd_gov_boards_commissions.csv", "regional", 'e');
  }

  lemma BoardsFileHasBoards()
    ensures Contains("sd_gov_boards_commissions.csv", "boards")
  {
    assert "sd_gov_boards_commissions.csv" == "sd_gov_" + "boards" + "_commissions.csv";
    ContainsSplit("sd_gov_", "boards", "_commissions.csv");
  }

  lemma BoardsFileBucket()
    ensures BucketOf("sd_gov_boards_commissions.csv") == Some(Boards)
  {
    BoardsFileLacksElected();
    BoardsFileLacksCity();
    BoardsFileLacksCounty();
    BoardsFileLacksRegional();
    BoardsFileHasBoards();
    ChainPicks("sd_gov_boards_commissions.csv", 4);
  }

  /** Each listed input file falls in its own category, the one its position in the list
      names. */
  lemma InputFileBuckets()
    ensures forall i :: 0 <= i < |InputFiles| ==> BucketOf(InputFiles[i]) == Some(Buckets[i])
  {
    forall i | 0 <= i < |InputFiles|
      ensures BucketOf(InputFiles[i]) == Some(Buckets[i])
    {
      if i == 0 { ElectedFileBucket(); }
      else if i == 1 { CityFileBucket(); }
      else if i == 2 { CountyFileBucket(); }
      else if i == 3 { RegionalFileBucket(); }
      else { BoardsFileBucket(); }
    }
  }

  /** The printed breakdown accounts for every row: the category counts add up to the
      returned total. */
  lemma CountsMatchTotal(files: map<string, seq<Row>>, today: string)
    ensures var r := CombineEntityFiles(files, today); r.1.Sum() == r.2
  {
    InputFileBuckets();
  }

  /** Normalising a master row again changes nothing, whatever the date. */
  lemma NormalizeIdempotent(row: Row, today: string, later: string)
    ensures Normalize(Normalize(row, today), later) == Normalize(row, today)
  {
    var m := Normalize(row, today);
    var m2 := Normalize(m, later);
    NormalizeFields(row, today);
    NormalizeFields(m, later);
    forall k | k in MasterKeys ensures m2[k] == m[k] {
      assert GetOr(m2, k, "") == GetOr(m, k, "");
    }
  }

  /** Every master row has exactly the master columns, so the writer never raises. */
  lemma MasterWritesCleanly(files: map<string, seq<Row>>, today: string)
    ensures var rows := CombineEntityFiles(files, today).0;
      WriteRows(rows, MasterHeaders).1.None?
  {
  }
}
