/**
 * The dashboard's derived lists: the college search with its five filters,
 * the bookmarked colleges, the scholarships the profile is eligible for and
 * the district choices; and saving the profile-edit form.
 */
module Dashboard {
  import opened Options
  import opened JsArray
  import opened JsString
  import opened JsNumber
  import opened Student
  import opened Catalog
  import opened StudentContext

  /** The state selector: "all", "AP" or "TG". */
  datatype StateChoice = AllStates | InState(region: Region)

  /** The district selector's wildcard. */
  const AllDistricts := "All Districts"

  /** The type selector's wildcard. */
  const AllTypes := "all"

  /** The search text and the three selectors. */
  datatype Criteria = Criteria(search: string, state: StateChoice, district: string, kind: string)

  /** Case-insensitive substring test of the query on the name or the district. */
  predicate MatchesSearch(c: College, query: string) {
    Includes(Lower(c.name), Lower(query)) || Includes(Lower(c.district), Lower(query))
  }

  predicate MatchesState(c: College, choice: StateChoice) {
    choice == AllStates || c.state == choice.region
  }

  predicate MatchesDistrict(c: College, district: string) {
    district == AllDistricts || c.district == district
  }

  predicate MatchesType(c: College, kind: string) {
    kind == AllTypes || TypeName(c.kind) == kind
  }

  /** `!studentData?.stream || college.streams.includes(studentData.stream)`. */
  predicate MatchesStream(c: College, profile: Option<Profile>) {
    profile.None? || profile.value.stream == NoStream || profile.value.stream in c.streams
  }

  predicate Matches(c: College, crit: Criteria, profile: Option<Profile>) {
    MatchesSearch(c, crit.search) && MatchesState(c, crit.state) && MatchesDistrict(c, crit.district) &&
    MatchesType(c, crit.kind) && MatchesStream(c, profile)
  }

  /**
   * `filteredColleges`: a college is listed iff all five tests pass, and the
   * list keeps catalog order.
   */
  function FilteredColleges(catalog: seq<College>, crit: Criteria, profile: Option<Profile>): (r: seq<College>)
    ensures forall c :: c in r <==> c in catalog && Matches(c, crit, profile)
    ensures IsSubsequence(r, catalog)
  {
    FilterIsSubsequence(catalog, (c: College) => Matches(c, crit, profile));
    Filter(catalog, (c: College) => Matches(c, crit, profile))
  }

  /**
   * The five tests applied one after another, in the order written, give
   * the same list as their conjunction; since filters commute
   * (`FilterCommutes`), so does every other order.
   */
  lemma FilteredCollegesInStages(catalog: seq<College>, crit: Criteria, profile: Option<Profile>,
                                 search: College -> bool, state: College -> bool, district: College -> bool,
                                 kind: College -> bool, stream: College -> bool)
    requires forall c :: search(c) == MatchesSearch(c, crit.search)
    requires forall c :: state(c) == MatchesState(c, crit.state)
    requires forall c :: district(c) == MatchesDistrict(c, crit.district)
    requires forall c :: kind(c) == MatchesType(c, crit.kind)
    requires forall c :: stream(c) == MatchesStream(c, profile)
    ensures FilteredColleges(catalog, crit, profile) ==
      Filter(Filter(Filter(Filter(Filter(catalog, search), state), district), kind), stream)
  {
    var q2 := (c: College) => search(c) && state(c);
    var q3 := (c: College) => q2(c) && district(c);
    var q4 := (c: College) => q3(c) && kind(c);
    var all := (c: College) => Matches(c, crit, profile);
    FilterThenFilter(catalog, search, state, q2);
    FilterThenFilter(catalog, q2, district, q3);
    FilterThenFilter(catalog, q3, kind, q4);
    FilterThenFilter(catalog, q4, stream, all);
  }

  /** With an empty query, every wildcard and no stream, the whole catalog is listed. */
  lemma NoFiltersListEverything(catalog: seq<College>, profile: Option<Profile>)
    requires profile.None? || profile.value.stream == NoStream
    ensures FilteredColleges(catalog, Criteria("", AllStates, AllDistricts, AllTypes), profile) == catalog
  {
    var crit := Criteria("", AllStates, AllDistricts, AllTypes);
    forall i | 0 <= i < |catalog| ensures Matches(catalog[i], crit, profile) {
      assert Lower("") == "";
      IncludesEmpty(Lower(catalog[i].name));
    }
    FilterAll(catalog, (c: College) => Matches(c, crit, profile));
  }

  /** An empty query matches every college. */
  lemma EmptySearchMatches(c: College)
    ensures MatchesSearch(c, "")
  {
    assert Lower("") == "";
    IncludesEmpty(Lower(c.name));
  }

  /**
   * The search ignores letter case: a query typed in capitals matches the
   * same colleges, and so does a college whose name is stored in capitals.
   */
  lemma SearchIgnoresCase(c: College, query: string)
    ensures MatchesSearch(c, Upper(query)) == MatchesSearch(c, query)
    ensures MatchesSearch(c.(name := Upper(c.name)), query) == MatchesSearch(c, query)
  {
    LowerIgnoresCase(query);
    LowerIgnoresCase(c.name);
  }

  /** `markedCollegesList`: the catalog's colleges, in catalog order, whose id is bookmarked. */
  function MarkedCollegesList(catalog: seq<College>, bookmarks: seq<Bookmark>): (r: seq<College>)
    ensures forall c :: c in r <==> c in catalog && Marked(bookmarks, c.id)
    ensures IsSubsequence(r, catalog)
    ensures forall c :: multiset(r)[c] == if Marked(bookmarks, c.id) then multiset(catalog)[c] else 0
  {
    FilterIsSubsequence(catalog, (c: College) => Marked(bookmarks, c.id));
    FilterCountsAll(catalog, (c: College) => Marked(bookmarks, c.id));
    Filter(catalog, (c: College) => Marked(bookmarks, c.id))
  }

  /** Toggling an id that no catalog college has leaves the bookmarked list unchanged. */
  lemma ToggleUnknownIdKeepsList(catalog: seq<College>, bookmarks: seq<Bookmark>, id: string, now: Timestamp)
    requires forall i :: 0 <= i < |catalog| ==> catalog[i].id != id
    ensures MarkedCollegesList(catalog, Toggle(bookmarks, id, now)) == MarkedCollegesList(catalog, bookmarks)
  {
    forall i | 0 <= i < |catalog|
      ensures Marked(Toggle(bookmarks, id, now), catalog[i].id) == Marked(bookmarks, catalog[i].id)
    {
      ToggleFlips(bookmarks, id, now, catalog[i].id);
    }
    FilterCongruent(catalog, (c: College) => Marked(Toggle(bookmarks, id, now), c.id),
                    (c: College) => Marked(bookmarks, c.id));
  }

  /** `s.maxRank ? rank <= s.maxRank : true`: a truthy bound must hold; NaN fails it. */
  predicate WithinBound(n: Number, bound: Option<int>): (r: bool)
    ensures !Truthy(bound) ==> r
    ensures Truthy(bound) && n == NaN ==> !r
    ensures Truthy(bound) && n.Num? ==> (r <==> n.value <= bound.value)
  {
    if Truthy(bound) then AtMost(n, Num(bound.value)) else true
  }

  /** The scholarship rule of `eligibleScholarships`, branch by branch. */
  predicate Eligible(s: Scholarship, profile: Option<Profile>) {
    if s.category == JEE && profile.Some? && Filled(profile.value.jeeRank) then
      WithinBound(ParseInt(profile.value.jeeRank.value), s.maxRank)
    else if s.category == EAPCET && profile.Some? && Filled(profile.value.eapcetRank) then
      WithinBound(ParseInt(profile.value.eapcetRank.value), s.maxRank)
    else if s.category == EMCET && profile.Some? && Filled(profile.value.emcetRank) then
      WithinBound(ParseInt(profile.value.emcetRank.value), s.maxRank)
    else if s.category == Income && profile.Some? && Filled(profile.value.fatherIncome) then
      WithinBound(ParseInt(profile.value.fatherIncome.value), s.maxIncome)
    else false
  }

  /** The profile field a category is judged on. */
  function CategoryField(profile: Profile, category: Category): Option<string> {
    match category
    case JEE => profile.jeeRank
    case EAPCET => profile.eapcetRank
    case EMCET => profile.emcetRank
    case Income => profile.fatherIncome
  }

  /** The bound a scholarship sets on its category's field. */
  function CategoryBound(s: Scholarship): Option<int> {
    if s.category == Income then s.maxIncome else s.maxRank
  }

  /**
   * A scholarship is eligible iff there is a profile whose field for the
   * category is filled and whose parsed value meets the bound, when the
   * bound is truthy.
   */
  lemma EligibleIff(s: Scholarship, profile: Option<Profile>)
    ensures Eligible(s, profile) <==>
      profile.Some? && Filled(CategoryField(profile.value, s.category)) &&
      (Truthy(CategoryBound(s)) ==>
        AtMost(ParseInt(CategoryField(profile.value, s.category).value), Num(CategoryBound(s).value)))
  {
    if profile.Some? {
      var field := CategoryField(profile.value, s.category);
      match s.category
      case JEE => assert field == profile.value.jeeRank;
      case EAPCET => assert field == profile.value.eapcetRank;
      case EMCET => assert field == profile.value.emcetRank;
      case Income => assert field == profile.value.fatherIncome;
    }
  }

  /** Without a profile, or with the category's field empty or missing, nothing is eligible. */
  lemma UnfilledNeverEligible(s: Scholarship, profile: Option<Profile>)
    requires profile.None? || !Filled(CategoryField(profile.value, s.category))
    ensures !Eligible(s, profile)
  {
    EligibleIff(s, profile);
  }

  /** Raising a truthy `maxRank` keeps an eligible scholarship eligible. */
  lemma RaisingMaxRankKeepsEligible(s: Scholarship, profile: Option<Profile>, higher: int)
    requires Truthy(s.maxRank) && higher >= s.maxRank.value
    ensures Eligible(s, profile) ==> Eligible(s.(maxRank := Some(higher)), profile)
  {
    EligibleIff(s, profile);
    EligibleIff(s.(maxRank := Some(higher)), profile);
  }

  /** Raising a truthy `maxIncome` keeps an eligible scholarship eligible. */
  lemma RaisingMaxIncomeKeepsEligible(s: Scholarship, profile: Option<Profile>, higher: int)
    requires Truthy(s.maxIncome) && higher >= s.maxIncome.value
    ensures Eligible(s, profile) ==> Eligible(s.(maxIncome := Some(higher)), profile)
  {
    EligibleIff(s, profile);
    EligibleIff(s.(maxIncome := Some(higher)), profile);
  }

  /**
   * Text that does not parse (NaN) is not treated as absent: it fails a
   * truthy bound, and passes when the scholarship sets none.
   */
  lemma UnparsableFieldPassesOnlyUnbounded(s: Scholarship, p: Profile)
    requires Filled(CategoryField(p, s.category))
    requires ParseInt(CategoryField(p, s.category).value) == NaN
    ensures Eligible(s, Some(p)) <==> !Truthy(CategoryBound(s))
  {
    EligibleIff(s, Some(p));
  }

  /** `eligibleScholarships`: the eligible ones, in catalog order. */
  function EligibleScholarships(scholarships: seq<Scholarship>, profile: Option<Profile>): (r: seq<Scholarship>)
    ensures forall s :: s in r <==> s in scholarships && Eligible(s, profile)
    ensures IsSubsequence(r, scholarships)
    ensures forall s :: multiset(r)[s] == if Eligible(s, profile) then multiset(scholarships)[s] else 0
  {
    FilterIsSubsequence(scholarships, (s: Scholarship) => Eligible(s, profile));
    FilterCountsAll(scholarships, (s: Scholarship) => Eligible(s, profile));
    Filter(scholarships, (s: Scholarship) => Eligible(s, profile))
  }

  /** Saving the untouched edit form changes no scholarship's eligibility. */
  lemma SaveUntouchedKeepsEligibility(s: Scholarship, p: Profile)
    ensures Eligible(s, Some(Merge(p, FormPatch(InitialForm(Some(p)))))) == Eligible(s, Some(p))
  {
    MergeInitialForm(p);
    var r := Merge(p, FormPatch(InitialForm(Some(p))));
    EligibleIff(s, Some(p));
    EligibleIff(s, Some(r));
    assert Filled(CategoryField(r, s.category)) ==> CategoryField(r, s.category) == CategoryField(p, s.category);
  }

  /** `districts`: the district list of the chosen state, none for "all". */
  function Districts(choice: StateChoice, apDistricts: seq<string>, tgDistricts: seq<string>): (r: seq<string>)
    ensures choice == AllStates ==> r == []
    ensures choice == InState(AP) ==> r == apDistricts
    ensures choice == InState(TG) ==> r == tgDistricts
  {
    match choice
    case AllStates => []
    case InState(AP) => apDistricts
    case InState(TG) => tgDistricts
  }

  /**
   * `handleSaveEdit`: merge the nine edit-form fields into the profile; email,
   * phone and every other slice are untouched.
   */
  method SaveEdit(store: StudentStore, form: Form)
    modifies store
    ensures store.profile == UpdateProfile(old(store.profile), FormPatch(form))
    ensures old(store.profile).Some? ==>
      store.profile.value.email == old(store.profile.value.email) &&
      store.profile.value.phone == old(store.profile.value.phone)
    ensures store.bookmarks == old(store.bookmarks) && store.isRegistered == old(store.isRegistered)
    ensures store.currentStep == old(store.currentStep) && store.isOnboarded == old(store.isOnboarded)
    ensures store.storage == ProfileWrite(store.codec, old(store.storage), store.profile)
    ensures old(store.Synced()) ==> store.Synced()
  {
    store.UpdateStudentData(FormPatch(form));
  }

  /**
   * A worked example: with an MPC student and no filters, an AP engineering
   * college offering MPC is listed and a TG medical college offering only
   * BiPC is not.
   */
  lemma CollegeFilterExample(c1: College, c2: College, p: Profile)
    requires c1.state == AP && c1.kind == Engineering && c1.streams == [MPC]
    requires c2.state == TG && c2.kind == Medical && c2.streams == [BiPC]
    requires p.stream == MPC
    ensures FilteredColleges([c1, c2], Criteria("", AllStates, AllDistricts, AllTypes), Some(p)) == [c1]
  {
    var crit := Criteria("", AllStates, AllDistricts, AllTypes);
    EmptySearchMatches(c1);
    assert Matches(c1, crit, Some(p));
    assert !Matches(c2, crit, Some(p));
    var r := FilteredColleges([c1, c2], crit, Some(p));
    assert c1 in r && c2 !in r;
    SubsequenceOfPair(r, c1, c2);
  }

  lemma SubsequenceOfOne<T>(r: seq<T>, x: T)
    requires IsSubsequence(r, [x])
    ensures r == [] || r == [x]
  {
    var s := [x];
    assert s[1..] == [];
    assert IsSubsequence(r, []) ==> r == [];
    assert r != [] ==> IsSubsequence(r[1..], []) ==> r[1..] == [];
  }

  lemma SubsequenceOfPair<T>(r: seq<T>, a: T, b: T)
    requires IsSubsequence(r, [a, b])
    ensures r == [] || r == [a] || r == [b] || r == [a, b]
  {
    var s := [a, b];
    assert s[1..] == [b];
    if r != [] && r[0] == a && IsSubsequence(r[1..], [b]) {
      SubsequenceOfOne(r[1..], b);
      assert r == [r[0]] + r[1..];
    } else if r != [] {
      SubsequenceOfOne(r, b);
    }
  }

  /** "5000" reads as 5000. */
  lemma RankText5000()
    ensures ParseInt("5000") == Num(5000)
  {
    assert "5000"[..3] == "500" && "500"[..2] == "50" && "50"[..1] == "5" && "5"[..0] == [];
    assert DigitsValue("5", 10) == 5;
    assert DigitsValue("50", 10) == 50;
    assert DigitsValue("500", 10) == 500;
    assert DigitsValue("5000", 10) == 5000;
    ParseNumeral("5000", 5000);
  }

  /** "15000" reads as 15000. */
  lemma RankText15000()
    ensures ParseInt("15000") == Num(15000)
  {
    assert "15000"[..4] == "1500" && "1500"[..3] == "150" && "150"[..2] == "15" && "15"[..1] == "1" && "1"[..0] == [];
    assert DigitsValue("1", 10) == 1;
    assert DigitsValue("15", 10) == 15;
    assert DigitsValue("150", 10) == 150;
    assert DigitsValue("1500", 10) == 1500;
    assert DigitsValue("15000", 10) == 15000;
    ParseNumeral("15000", 15000);
  }

  /**
   * A worked example: a JEE scholarship up to rank 10000 is open to rank
   * "5000", closed to rank "15000", and closed without a JEE rank.
   */
  lemma JeeScholarshipExample(s: Scholarship, p: Profile)
    requires s.category == JEE && s.maxRank == Some(10000)
    ensures p.jeeRank == Some("5000") ==> Eligible(s, Some(p))
    ensures p.jeeRank == Some("15000") ==> !Eligible(s, Some(p))
    ensures p.jeeRank.None? ==> !Eligible(s, Some(p))
  {
    EligibleIff(s, Some(p));
    assert CategoryField(p, s.category) == p.jeeRank && CategoryBound(s) == Some(10000);
    if p.jeeRank == Some("5000") {
      RankText5000();
    } else if p.jeeRank == Some("15000") {
      RankText15000();
    }
  }
}
