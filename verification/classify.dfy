/** The two classifiers every view applies to a raw entity row: its jurisdiction
    (identical in all four scripts) and its entity type (two different rule sets:
    the tree views and the network views disagree). */
module Classify {
  import opened Text

  datatype Jurisdiction = City | County | Regional

  /** The string the scripts store after normalisation. */
  function JurisdictionName(j: Jurisdiction): string {
    match j
    case City => "city"
    case County => "county"
    case Regional => "regional"
  }

  datatype EntityType = Elected | Departments | Boards

  function EntityTypeName(t: EntityType): string {
    match t
    case Elected => "elected"
    case Departments => "departments"
    case Boards => "boards"
  }

  /** `getJurisdiction`: a `City` substring wins over `County`; everything else,
      including text naming neither, is regional. */
  function JurisdictionOf(raw: string): (j: Jurisdiction)
    ensures j == City <==> Contains(raw, "City")
    ensures j == County <==> !Contains(raw, "City") && Contains(raw, "County")
    ensures j == Regional <==> !Contains(raw, "City") && !Contains(raw, "County")
  {
    if Contains(raw, "City") then City
    else if Contains(raw, "County") then County
    else if Contains(raw, "Regional") then Regional
    else Regional
  }

  predicate NamesElectedOffice(lower: string) {
    Contains(lower, "mayor") || Contains(lower, "council") || Contains(lower, "supervisor")
  }

  /** `getEntityType` of the tree views. */
  function TreeEntityType(typeLabel: string): (t: EntityType)
    ensures t == Elected <==> NamesElectedOffice(Lower(typeLabel))
    ensures t == Boards <==>
      !NamesElectedOffice(Lower(typeLabel))
      && (Contains(Lower(typeLabel), "board") || Contains(Lower(typeLabel), "commission"))
  {
    var lowerType := Lower(typeLabel);
    if NamesElectedOffice(lowerType) then Elected
    else if Contains(lowerType, "board") || Contains(lowerType, "commission") then Boards
    else Departments
  }

  predicate NamesDepartment(lower: string) {
    Contains(lower, "department") || Contains(lower, "office") || Contains(lower, "agency")
  }

  predicate NamesBoard(lower: string) {
    Contains(lower, "board") || Contains(lower, "commission") || Contains(lower, "committee")
  }

  /** `getEntityType` of the network views: department words are tested before board
      words, and anything unmatched is a department. */
  function NetworkEntityType(typeLabel: string): (t: EntityType)
    ensures t == Elected <==> NamesElectedOffice(Lower(typeLabel))
    ensures t == Boards <==>
      !NamesElectedOffice(Lower(typeLabel)) && !NamesDepartment(Lower(typeLabel))
      && NamesBoard(Lower(typeLabel))
  {
    var lowerType := Lower(typeLabel);
    if NamesElectedOffice(lowerType) then Elected
    else if NamesDepartment(lowerType) then Departments
    else if NamesBoard(lowerType) then Boards
    else Departments
  }

  /** Both rule sets agree on who is elected ... */
  lemma ClassifiersAgreeOnElected(typeLabel: string)
    ensures TreeEntityType(typeLabel) == Elected <==> NetworkEntityType(typeLabel) == Elected
  {
  }

  /** ... but a label naming both a board and a department is a board in the tree and a
      department in the network. */
  lemma ClassifiersDisagreeOnMixedLabels(typeLabel: string)
    requires !NamesElectedOffice(Lower(typeLabel))
    requires Contains(Lower(typeLabel), "board") && Contains(Lower(typeLabel), "department")
    ensures TreeEntityType(typeLabel) == Boards
    ensures NetworkEntityType(typeLabel) == Departments
  {
  }
}
