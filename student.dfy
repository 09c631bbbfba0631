/**
 * The student's profile record, the partial record used to update it
 * (object spread `{ ...prev, ...patch }`), and the nine-field form that the
 * onboarding and profile-edit screens submit as such a partial record.
 */
module Student {
  import opened Options

  /** The stream of the intermediate course; `NoStream` is the empty choice "". */
  datatype Stream = NoStream | MPC | BiPC | MEC | HEC

  /** A truthy optional string: present and not "". */
  predicate Filled(s: Option<string>) {
    s.Some? && s.value != ""
  }

  /** StudentData: contact details, academic details and four optional fields. */
  datatype Profile = Profile(
    email: string,
    phone: string,
    firstName: string,
    lastName: string,
    tenthMarks: string,
    interMarks: string,
    stream: Stream,
    jeeRank: Option<string>,
    eapcetRank: Option<string>,
    emcetRank: Option<string>,
    fatherIncome: Option<string>)

  /** Partial<StudentData>: each field either present (`Some`) or missing. */
  datatype Patch = Patch(
    email: Option<string>,
    phone: Option<string>,
    firstName: Option<string>,
    lastName: Option<string>,
    tenthMarks: Option<string>,
    interMarks: Option<string>,
    stream: Option<Stream>,
    jeeRank: Option<string>,
    eapcetRank: Option<string>,
    emcetRank: Option<string>,
    fatherIncome: Option<string>)

  const EmptyPatch := Patch(None, None, None, None, None, None, None, None, None, None, None)

  /** The patch leaves the contact details alone. */
  predicate KeepsContact(patch: Patch) {
    patch.email.None? && patch.phone.None?
  }

  /** A field after spreading: the patch's value when present, else the old one. */
  function Pick<T>(patched: Option<T>, current: T): T {
    if patched.Some? then patched.value else current
  }

  /** An optional field after spreading: present with the patch's value, else as it was. */
  function PickOptional<T>(patched: Option<T>, current: Option<T>): Option<T> {
    if patched.Some? then patched else current
  }

  /** `{ ...p, ...patch }`. */
  function Merge(p: Profile, patch: Patch): Profile {
    Profile(
      Pick(patch.email, p.email),
      Pick(patch.phone, p.phone),
      Pick(patch.firstName, p.firstName),
      Pick(patch.lastName, p.lastName),
      Pick(patch.tenthMarks, p.tenthMarks),
      Pick(patch.interMarks, p.interMarks),
      Pick(patch.stream, p.stream),
      PickOptional(patch.jeeRank, p.jeeRank),
      PickOptional(patch.eapcetRank, p.eapcetRank),
      PickOptional(patch.emcetRank, p.emcetRank),
      PickOptional(patch.fatherIncome, p.fatherIncome))
  }

  /** `{ ...a, ...b }` of two partial records: b's present fields win. */
  function Then(a: Patch, b: Patch): Patch {
    Patch(
      PickOptional(b.email, a.email),
      PickOptional(b.phone, a.phone),
      PickOptional(b.firstName, a.firstName),
      PickOptional(b.lastName, a.lastName),
      PickOptional(b.tenthMarks, a.tenthMarks),
      PickOptional(b.interMarks, a.interMarks),
      PickOptional(b.stream, a.stream),
      PickOptional(b.jeeRank, a.jeeRank),
      PickOptional(b.eapcetRank, a.eapcetRank),
      PickOptional(b.emcetRank, a.emcetRank),
      PickOptional(b.fatherIncome, a.fatherIncome))
  }

  /** Fields present in the patch take its values; every missing field is unchanged. */
  lemma MergeOverwritesPresent(p: Profile, patch: Patch)
    ensures var r := Merge(p, patch);
      (patch.email.Some? ==> r.email == patch.email.value) &&
      (patch.email.None? ==> r.email == p.email) &&
      (patch.phone.Some? ==> r.phone == patch.phone.value) &&
      (patch.phone.None? ==> r.phone == p.phone) &&
      (patch.firstName.Some? ==> r.firstName == patch.firstName.value) &&
      (patch.firstName.None? ==> r.firstName == p.firstName) &&
      (patch.lastName.Some? ==> r.lastName == patch.lastName.value) &&
      (patch.lastName.None? ==> r.lastName == p.lastName) &&
      (patch.tenthMarks.Some? ==> r.tenthMarks == patch.tenthMarks.value) &&
      (patch.tenthMarks.None? ==> r.tenthMarks == p.tenthMarks) &&
      (patch.interMarks.Some? ==> r.interMarks == patch.interMarks.value) &&
      (patch.interMarks.None? ==> r.interMarks == p.interMarks) &&
      (patch.stream.Some? ==> r.stream == patch.stream.value) &&
      (patch.stream.None? ==> r.stream == p.stream) &&
      (patch.jeeRank.Some? ==> r.jeeRank == patch.jeeRank) &&
      (patch.jeeRank.None? ==> r.jeeRank == p.jeeRank) &&
      (patch.eapcetRank.Some? ==> r.eapcetRank == patch.eapcetRank) &&
      (patch.eapcetRank.None? ==> r.eapcetRank == p.eapcetRank) &&
      (patch.emcetRank.Some? ==> r.emcetRank == patch.emcetRank) &&
      (patch.emcetRank.None? ==> r.emcetRank == p.emcetRank) &&
      (patch.fatherIncome.Some? ==> r.fatherIncome == patch.fatherIncome) &&
      (patch.fatherIncome.None? ==> r.fatherIncome == p.fatherIncome)
  {
  }

  /** A patch without email and phone leaves both as they were. */
  lemma MergeKeepsContact(p: Profile, patch: Patch)
    requires KeepsContact(patch)
    ensures Merge(p, patch).email == p.email && Merge(p, patch).phone == p.phone
  {
  }

  /** Two successive updates are one update with the combined patch. */
  lemma MergeThen(p: Profile, a: Patch, b: Patch)
    ensures Merge(Merge(p, a), b) == Merge(p, Then(a, b))
  {
  }

  /** Applying the same patch twice is applying it once. */
  lemma MergeIdempotent(p: Profile, patch: Patch)
    ensures Merge(Merge(p, patch), patch) == Merge(p, patch)
  {
  }

  /** The empty patch changes nothing. */
  lemma MergeEmpty(p: Profile)
    ensures Merge(p, EmptyPatch) == p
  {
  }

  /** The nine fields of the onboarding form and of the profile-edit form. */
  datatype Form = Form(
    firstName: string,
    lastName: string,
    tenthMarks: string,
    interMarks: string,
    stream: Stream,
    jeeRank: string,
    eapcetRank: string,
    emcetRank: string,
    fatherIncome: string)

  /**
   * The form's first contents: each field `studentData?.field || ""`, so a
   * missing profile or a missing optional field shows as "".
   */
  function InitialForm(profile: Option<Profile>): (f: Form)
    ensures profile.None? ==> f == Form("", "", "", "", NoStream, "", "", "", "")
    ensures profile.Some? ==>
      var p := profile.value;
      f.firstName == p.firstName && f.lastName == p.lastName &&
      f.tenthMarks == p.tenthMarks && f.interMarks == p.interMarks && f.stream == p.stream &&
      f.jeeRank == p.jeeRank.GetOr("") && f.eapcetRank == p.eapcetRank.GetOr("") &&
      f.emcetRank == p.emcetRank.GetOr("") && f.fatherIncome == p.fatherIncome.GetOr("")
  {
    match profile
    case None => Form("", "", "", "", NoStream, "", "", "", "")
    case Some(p) =>
      Form(p.firstName, p.lastName, p.tenthMarks, p.interMarks, p.stream,
           p.jeeRank.GetOr(""), p.eapcetRank.GetOr(""), p.emcetRank.GetOr(""), p.fatherIncome.GetOr(""))
  }

  /** The form submitted as a partial record: all nine fields present, no email, no phone. */
  function FormPatch(f: Form): (patch: Patch)
    ensures KeepsContact(patch)
  {
    Patch(None, None, Some(f.firstName), Some(f.lastName), Some(f.tenthMarks), Some(f.interMarks),
          Some(f.stream), Some(f.jeeRank), Some(f.eapcetRank), Some(f.emcetRank), Some(f.fatherIncome))
  }

  /**
   * Submitting a form merges all nine fields, keeps email and phone, and
   * leaves every optional field present.
   */
  lemma MergeForm(p: Profile, f: Form)
    ensures var r := Merge(p, FormPatch(f));
      r.email == p.email && r.phone == p.phone &&
      r.firstName == f.firstName && r.lastName == f.lastName &&
      r.tenthMarks == f.tenthMarks && r.interMarks == f.interMarks && r.stream == f.stream &&
      r.jeeRank == Some(f.jeeRank) && r.eapcetRank == Some(f.eapcetRank) &&
      r.emcetRank == Some(f.emcetRank) && r.fatherIncome == Some(f.fatherIncome)
  {
  }

  /**
   * Submitting the untouched form keeps every field's truthiness: the profile
   * is unchanged except that a missing optional field becomes present as "".
   */
  lemma MergeInitialForm(p: Profile)
    ensures var r := Merge(p, FormPatch(InitialForm(Some(p))));
      r == p.(jeeRank := Some(p.jeeRank.GetOr("")), eapcetRank := Some(p.eapcetRank.GetOr("")),
              emcetRank := Some(p.emcetRank.GetOr("")), fatherIncome := Some(p.fatherIncome.GetOr(""))) &&
      (Filled(r.jeeRank) <==> Filled(p.jeeRank)) && (Filled(r.eapcetRank) <==> Filled(p.eapcetRank)) &&
      (Filled(r.emcetRank) <==> Filled(p.emcetRank)) && (Filled(r.fatherIncome) <==> Filled(p.fatherIncome))
  {
  }
}
