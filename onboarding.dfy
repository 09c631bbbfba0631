/**
 * The three-step onboarding form: the per-step validation, and the Next,
 * Back and Skip transitions over the store's `currentStep` and `isOnboarded`.
 */
module Onboarding {
  import opened Options
  import opened JsNumber
  import opened Student
  import opened StudentContext

  /** The first failed check of a step, each with its own message. */
  datatype StepError = NamesMissing | TenthMarksInvalid | InterMarksInvalid | StreamMissing

  /**
   * A marks field passes unless it is empty or parses to a number outside
   * [0, 100]; `parseFloat` is a parameter, with `None` for NaN, which both
   * comparisons reject, so non-numeric text passes.
   */
  predicate MarksAccepted(marks: string, parseFloat: string -> Option<real>): (r: bool)
    ensures marks == "" ==> !r
    ensures marks != "" && parseFloat(marks).None? ==> r
    ensures marks != "" && parseFloat(marks).Some? ==>
      (r <==> 0.0 <= parseFloat(marks).value <= 100.0)
  {
    marks != "" && !(parseFloat(marks).Some? && (parseFloat(marks).value < 0.0 || parseFloat(marks).value > 100.0))
  }

  /** `validateStep`: the checks of the current step, in order; `None` when all pass. */
  function ValidateStep(step: Number, form: Form, parseFloat: string -> Option<real>): (r: Option<StepError>)
    ensures r.Some? ==> step == Num(1) || step == Num(2)
    ensures r == Some(NamesMissing) || r == Some(TenthMarksInvalid) ==> step == Num(1)
    ensures r == Some(InterMarksInvalid) || r == Some(StreamMissing) ==> step == Num(2)
  {
    if step == Num(1) then
      if form.firstName == "" || form.lastName == "" then Some(NamesMissing)
      else if !MarksAccepted(form.tenthMarks, parseFloat) then Some(TenthMarksInvalid)
      else None
    else if step == Num(2) then
      if !MarksAccepted(form.interMarks, parseFloat) then Some(InterMarksInvalid)
      else if form.stream == NoStream then Some(StreamMissing)
      else None
    else None
  }

  /** Step 1 passes iff both names are filled and the 10th marks are accepted; names are checked first, then the marks. */
  lemma StepOneRules(form: Form, parseFloat: string -> Option<real>)
    ensures ValidateStep(Num(1), form, parseFloat).None? <==>
      form.firstName != "" && form.lastName != "" && MarksAccepted(form.tenthMarks, parseFloat)
    ensures (form.firstName == "" || form.lastName == "") ==> ValidateStep(Num(1), form, parseFloat) == Some(NamesMissing)
    ensures form.firstName != "" && form.lastName != "" && !MarksAccepted(form.tenthMarks, parseFloat) ==>
      ValidateStep(Num(1), form, parseFloat) == Some(TenthMarksInvalid)
  {
  }

  /** Step 2 passes iff the inter marks are accepted and a stream is chosen; marks are checked first, then the stream. */
  lemma StepTwoRules(form: Form, parseFloat: string -> Option<real>)
    ensures ValidateStep(Num(2), form, parseFloat).None? <==>
      MarksAccepted(form.interMarks, parseFloat) && form.stream != NoStream
    ensures !MarksAccepted(form.interMarks, parseFloat) ==> ValidateStep(Num(2), form, parseFloat) == Some(InterMarksInvalid)
    ensures MarksAccepted(form.interMarks, parseFloat) && form.stream == NoStream ==>
      ValidateStep(Num(2), form, parseFloat) == Some(StreamMissing)
  {
  }

  /**
   * The form resumes from the stored profile (`studentData?.field || ""`), so
   * a returning student's stored answers are what steps 1 and 2 check; with
   * no profile, step 1 asks for the names.
   */
  lemma ResumedFormChecksStoredAnswers(profile: Option<Profile>, parseFloat: string -> Option<real>)
    ensures profile.None? ==> ValidateStep(Num(1), InitialForm(profile), parseFloat) == Some(NamesMissing)
    ensures profile.Some? ==>
      var p := profile.value;
      (ValidateStep(Num(1), InitialForm(profile), parseFloat).None? <==>
         p.firstName != "" && p.lastName != "" && MarksAccepted(p.tenthMarks, parseFloat)) &&
      (ValidateStep(Num(2), InitialForm(profile), parseFloat).None? <==>
         MarksAccepted(p.interMarks, parseFloat) && p.stream != NoStream)
  {
    StepOneRules(InitialForm(profile), parseFloat);
    StepTwoRules(InitialForm(profile), parseFloat);
  }

  /** Every other step, step 3 included, has no checks. */
  lemma OtherStepsUnchecked(step: Number, form: Form, parseFloat: string -> Option<real>)
    requires step != Num(1) && step != Num(2)
    ensures ValidateStep(step, form, parseFloat).None?
  {
  }

  /** The onboarding steps are 1, 2 and 3. */
  predicate InRange(step: Number) {
    step.Num? && 1 <= step.value <= 3
  }

  /** Next: refused with the step's first failed check, advanced, or finished (then `/dashboard`). */
  datatype NextOutcome = Refused(error: StepError) | Advanced | Finished

  /**
   * `handleNext`: when the step's checks fail nothing changes; otherwise the
   * form is merged, then a step below 3 advances and step 3 completes
   * onboarding.
   */
  method HandleNext(store: StudentStore, form: Form, parseFloat: string -> Option<real>) returns (outcome: NextOutcome)
    modifies store
    ensures var err := ValidateStep(old(store.currentStep), form, parseFloat);
      (err.Some? ==> outcome == Refused(err.value)) && (err.None? ==> !outcome.Refused?)
    ensures outcome.Refused? ==> store.State() == old(store.State()) && store.storage == old(store.storage)
    ensures !outcome.Refused? ==> store.profile == UpdateProfile(old(store.profile), FormPatch(form))
    ensures outcome == Advanced <==> !outcome.Refused? && Less(old(store.currentStep), Num(3))
    ensures outcome == Advanced ==>
      store.currentStep == Num(old(store.currentStep).value + 1) && store.isOnboarded == old(store.isOnboarded)
    ensures outcome == Finished ==> store.isOnboarded && store.currentStep == old(store.currentStep)
    ensures store.bookmarks == old(store.bookmarks) && store.isRegistered == old(store.isRegistered)
    ensures var merged := ProfileWrite(store.codec, old(store.storage), store.profile);
      (outcome == Advanced ==> store.storage == merged[CurrentStepKey := ShowNumber(store.currentStep)]) &&
      (outcome == Finished ==> store.storage == OnboardedWrite(merged, old(store.isOnboarded)))
    ensures InRange(old(store.currentStep)) ==> InRange(store.currentStep)
    ensures old(store.Synced()) ==> store.Synced()
  {
    var err := ValidateStep(store.currentStep, form, parseFloat);
    if err.Some? {
      return Refused(err.value);
    }
    var step := store.currentStep;
    store.UpdateStudentData(FormPatch(form));
    if Less(step, Num(3)) {
      store.SetCurrentStep(Num(step.value + 1));
      outcome := Advanced;
    } else {
      store.SetIsOnboarded(true);
      outcome := Finished;
    }
  }

  /** `handleBack`: a step above 1 goes back one; the profile is never touched. */
  method HandleBack(store: StudentStore)
    modifies store
    ensures store.currentStep == if Less(Num(1), old(store.currentStep)) then Num(old(store.currentStep).value - 1) else old(store.currentStep)
    ensures store.profile == old(store.profile) && store.bookmarks == old(store.bookmarks)
    ensures store.isRegistered == old(store.isRegistered) && store.isOnboarded == old(store.isOnboarded)
    ensures store.storage ==
      if Less(Num(1), old(store.currentStep)) then old(store.storage)[CurrentStepKey := ShowNumber(store.currentStep)]
      else old(store.storage)
    ensures InRange(old(store.currentStep)) ==> InRange(store.currentStep)
    ensures old(store.Synced()) ==> store.Synced()
  {
    var step := store.currentStep;
    if Less(Num(1), step) {
      store.SetCurrentStep(Num(step.value - 1));
    }
  }

  /** `handleSkip`: merge the form and complete onboarding, unchecked, leaving the step alone. */
  method HandleSkip(store: StudentStore, form: Form)
    modifies store
    ensures store.profile == UpdateProfile(old(store.profile), FormPatch(form))
    ensures store.isOnboarded
    ensures store.currentStep == old(store.currentStep)
    ensures store.bookmarks == old(store.bookmarks) && store.isRegistered == old(store.isRegistered)
    ensures store.storage == OnboardedWrite(ProfileWrite(store.codec, old(store.storage), store.profile), old(store.isOnboarded))
    ensures old(store.Synced()) ==> store.Synced()
  {
    store.UpdateStudentData(FormPatch(form));
    store.SetIsOnboarded(true);
  }

  /** The form has no email or phone field, so no onboarding merge alters them. */
  lemma OnboardingKeepsContact(profile: Option<Profile>, form: Form)
    requires profile.Some?
    ensures UpdateProfile(profile, FormPatch(form)).value.email == profile.value.email
    ensures UpdateProfile(profile, FormPatch(form)).value.phone == profile.value.phone
  {
    MergeKeepsContact(profile.value, FormPatch(form));
  }
}
