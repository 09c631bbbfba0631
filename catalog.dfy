/**
 * The records of the static catalog the dashboard filters. The catalog's
 * contents are an input of the model; only the fields the logic reads are kept.
 */
module Catalog {
  import opened Options
  import opened Student

  /** A college's state: Andhra Pradesh or Telangana. */
  datatype Region = AP | TG

  datatype CollegeType = Engineering | Medical | ArtsAndScience | Management | Pharmacy | Law

  /** The type's text, as the type filter compares it. */
  function TypeName(t: CollegeType): string {
    match t
    case Engineering => "Engineering"
    case Medical => "Medical"
    case ArtsAndScience => "Arts & Science"
    case Management => "Management"
    case Pharmacy => "Pharmacy"
    case Law => "Law"
  }

  datatype College = College(
    id: string,
    name: string,
    kind: CollegeType,
    state: Region,
    district: string,
    website: string,
    streams: seq<Stream>,
    minPercentage: Option<int>,
    acceptsJEE: bool,
    acceptsEAPCET: bool,
    acceptsEMCET: bool)

  /** The exam (or the family income) a scholarship is awarded on. */
  datatype Category = JEE | EAPCET | EMCET | Income

  datatype Scholarship = Scholarship(
    id: string,
    name: string,
    category: Category,
    maxRank: Option<int>,
    maxIncome: Option<int>)

  /** An optional catalog number is truthy when present and not 0. */
  predicate Truthy(n: Option<int>) {
    n.Some? && n.value != 0
  }
}
