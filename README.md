# College-Path student session and dashboard, modelled in Dafny

College-Path is a React application for students in Andhra Pradesh and
Telangana. A student registers with an email and a phone number, passes a
one-time-password step, fills in a three-step onboarding form (personal
details, intermediate details, optional exam ranks and family income), and
then uses a dashboard. The dashboard searches a college catalog, keeps
bookmarks, and lists the scholarships the profile qualifies for.

This project models the logic of that application:

- **The session store** (`StudentProvider`), as the class
  `StudentContext.StudentStore`. It has five slices: profile, bookmarks,
  `isRegistered`, `currentStep` and `isOnboarded`. A `map<string, string>`
  stands in for `localStorage`. Each slice is hydrated from storage.
  - Persistence effects run once at mount (`MountWrites`) and after every
    setter that changes a slice.
  - `Synced()` states that the storage mirrors the slices. Every setter
    preserves it.
  - `ReloadMirrored` proves that reloading a mirrored store gives the same
    session back.
- **The dashboard's derived lists**: the five-way college filter, the
  bookmarked colleges, the scholarship rule, and the district choices. Also
  saving the profile-edit form.
- **Onboarding**: per-step validation, plus the Next, Back and Skip
  transitions on the store.
- **Registration**:
  - the phone sanitiser;
  - the ordered submit checks, with the email regular expression
    `^[^\s@]+@[^\s@]+\.[^\s@]+$` proved equal to a computed check;
  - the OTP completion.
- **The entry route, the step indicator and the college card helpers.**

JavaScript built-ins the logic depends on are modelled concretely:

- `JsArray`: `Array.prototype.filter`, with order expressed as a subsequence.
- `JsString`: `indexOf`, `includes`, `replace` with a string pattern,
  ASCII-only `toLowerCase`, and the white-space trim.
- `JsNumber`:
  - a number is an integer or NaN;
  - `parseInt` with sign, `0x` prefix and digit prefix;
  - `String(n)`; `parseInt(String(n))` is proved to give back n for every
    integer, and NaN for NaN.

`JSON.stringify` and `JSON.parse` are a `Codec` value: two functions per
stored type. Properties that need the round trip require `Lawful(codec)`,
meaning every encoding is non-empty text that decodes back to its value.

Malformed stored JSON makes `JSON.parse` throw inside a `useState`
initialiser, so the provider never comes into being. The model says which
slice failed: `Hydrate` returns `LoadFailed` and names the profile first,
in initialiser order. The store's constructor requires a successful load.

A rank or income that fails to parse is not treated as absent. `parseInt`
gives NaN, which fails `rank <= maxRank` and passes when the scholarship has
no truthy bound (`Dashboard.UnparsableFieldPassesOnlyUnbounded`).

## Model

| member | source | states |
|---|---|---|
| StudentContext.Marked | src/context/StudentContext.tsx:95 | `prev.find(m => m.id === id)` succeeds iff some entry has the id; ToggleFlips and IsCollegeMarked state what it means for the toggle and the icon |
| StudentContext.Unmark | src/context/StudentContext.tsx:97 | the filter keeps exactly the entries with another id and never grows the list; ToggleRemoves adds counts and order |
| StudentContext.Toggle | src/context/StudentContext.tsx:93-101 | an entry is in the result iff it is one of the other-id entries (id present) or an old entry or the new `{id, now}` (id absent); ToggleRemoves, ToggleAppends and ToggleFlips pin the list down |
| StudentContext.ToggleRemoves | src/context/StudentContext.tsx:95-97 | toggling a present id leaves no entry with that id; the entries kept are exactly the other-id entries, each as many times as before, in their original order |
| StudentContext.ToggleAppends | src/context/StudentContext.tsx:99 | toggling an absent id gives the old list plus one entry `{id, now}` at the end, and the id is then marked |
| StudentContext.ToggleFlips | src/context/StudentContext.tsx:93-101 | after a toggle the id is marked iff it was not; every other id keeps its marked status |
| StudentContext.RemovalKeepsOther | src/context/StudentContext.tsx:97 | a list with exactly the other-id entries of a list marks every other id exactly when the original does |
| StudentContext.AppendKeepsOther | src/context/StudentContext.tsx:99 | appending an entry leaves every other id's marked status unchanged |
| StudentContext.UnmarkKeepsUnique | src/context/StudentContext.tsx:97 | filtering out an id keeps the bookmark ids pairwise distinct |
| StudentContext.ToggleKeepsUnique | src/context/StudentContext.tsx:94-100 | a bookmark list with unique ids keeps unique ids after a toggle |
| StudentContext.ToggleTwiceRestores | src/context/StudentContext.tsx:94-100 | toggling an absent id twice restores exactly the original list |
| StudentContext.ToggleTwiceSameIds | src/context/StudentContext.tsx:94-100 | toggling any id twice leaves every id's marked status as it was |
| StudentContext.UpdateProfile | src/context/StudentContext.tsx:72-74 | a null profile stays null; a present one becomes the spread `{...prev, ...patch}` |
| StudentContext.Hydrate | src/context/StudentContext.tsx:23-44 | the load fails iff a truthy stored profile or bookmark text does not decode, and the profile is reported first; otherwise each flag is true iff its text is exactly "true", the step is 1 without truthy text and `parseInt` of the text otherwise, bookmarks default to [] and the profile is null iff its text is not truthy; a truthy profile or bookmark text loads as its decoded value; a failure with a decodable profile is reported as malformed bookmarks |
| StudentContext.StoredStep | src/context/StudentContext.tsx:37-40 | the step is 1 without truthy stored text, and text written as `String(x)` reads back as x |
| StudentContext.ReloadMirrored | src/context/StudentContext.tsx:23-66 | for a lawful codec, hydrating storage that mirrors a session gives back that session |
| StudentContext.ReloadWithoutKeys | src/context/StudentContext.tsx:23-44 | hydrating storage without any of the five keys gives the default session (no profile, no bookmarks, false flags, step 1) |
| StudentContext.MountWrites | src/context/StudentContext.tsx:46-66 | after the first run of the effects storage holds all five keys, except studentData when there is no profile and none was stored before |
| StudentContext.MountWritesMirror | src/context/StudentContext.tsx:46-66 | the effects' writes make storage mirror any session whose missing profile has no truthy stored text |
| StudentContext.MountMirrors | src/context/StudentContext.tsx:23-66 | after hydration and the first effects run, storage mirrors the hydrated session |
| StudentContext.MirrorsWriteProfile | src/context/StudentContext.tsx:46-50 | writing the encoded new profile keeps storage mirroring the session with that profile |
| StudentContext.MirrorsWriteBookmarks | src/context/StudentContext.tsx:52-54 | writing the encoded new list keeps storage mirroring the session with that list |
| StudentContext.MirrorsWriteRegistered | src/context/StudentContext.tsx:56-58 | writing `String(flag)` keeps storage mirroring the session with that flag |
| StudentContext.MirrorsWriteStep | src/context/StudentContext.tsx:60-62 | writing `String(step)` keeps storage mirroring the session with that step |
| StudentContext.MirrorsWriteOnboarded | src/context/StudentContext.tsx:64-66 | writing `String(flag)` keeps storage mirroring the session with that flag |
| StudentContext.ProfileWrite | src/context/StudentContext.tsx:46-50 | the studentData effect: the profile's encoding is stored under studentData, no other key changes, and nothing is written while the profile is null |
| StudentContext.OnboardedWrite | src/context/StudentContext.tsx:64-66 | the isOnboarded effect after `setIsOnboarded(true)`: "true" is stored unless the flag was already set, and no other key changes |
| StudentContext.StudentStore.constructor | src/context/StudentContext.tsx:22-66 | the slices are the hydrated session, storage is the saved map after the mount writes, and the store is synced |
| StudentContext.StudentStore.SetStudentData | src/context/StudentContext.tsx:68-70 | the profile is replaced wholesale and its encoding written; no other slice changes; sync is preserved |
| StudentContext.StudentStore.UpdateStudentData | src/context/StudentContext.tsx:72-74 | the profile becomes `UpdateProfile(old, patch)`; storage is written only when a profile existed; no other slice changes; sync is preserved |
| StudentContext.StudentStore.ToggleMarkedCollege | src/context/StudentContext.tsx:93-101 | the bookmarks become `Toggle(old, id, now)` and are written; the id's marked status flips; unique ids stay unique; no other slice changes; sync is preserved |
| StudentContext.StudentStore.IsCollegeMarked | src/context/StudentContext.tsx:103-105 | true iff some bookmark has the id; it reads the store and changes nothing |
| StudentContext.StudentStore.SetIsRegistered | src/context/StudentContext.tsx:56-58 | the flag takes the value; its key is written only when the value changes; sync is preserved |
| StudentContext.StudentStore.SetCurrentStep | src/context/StudentContext.tsx:60-62 | the step takes the value; its key is written only when the value changes; sync is preserved |
| StudentContext.StudentStore.SetIsOnboarded | src/context/StudentContext.tsx:64-66 | the flag takes the value; its key is written only when the value changes; sync is preserved |
| StudentContext.StudentStore.Logout | src/context/StudentContext.tsx:76-87 | every slice is back to its default (null, [], false, false, 1); exactly the five keys are removed from storage; a reload then finds the default session |
| Student.Merge | src/context/StudentContext.tsx:73 | the object spread `{...prev, ...patch}`; MergeOverwritesPresent states it field by field, MergeThen, MergeIdempotent and MergeEmpty its algebra |
| Student.MergeOverwritesPresent | src/context/StudentContext.tsx:73 | each field present in the patch takes the patch's value and each missing field keeps the old one |
| Student.MergeKeepsContact | src/context/StudentContext.tsx:73 | a patch without email and phone keeps both |
| Student.MergeThen | src/context/StudentContext.tsx:73 | two successive merges equal one merge with the combined patch |
| Student.MergeIdempotent | src/context/StudentContext.tsx:73 | merging the same patch twice equals merging it once |
| Student.MergeEmpty | src/context/StudentContext.tsx:73 | the empty patch leaves the profile unchanged |
| Student.InitialForm | src/pages/Dashboard.tsx:26-36 | each form field is the profile's field, or "" when the profile or the optional field is missing; the onboarding form starts from the same initialiser (Onboarding.tsx lines 17-27, row `Onboarding.ResumedFormChecksStoredAnswers`) |
| Student.FormPatch | src/pages/Dashboard.tsx:39 | the submitted form never carries email or phone |
| Student.MergeForm | src/pages/Dashboard.tsx:39 | submitting a form sets all nine fields from the form, makes the four optional fields present and keeps email and phone |
| Student.MergeInitialForm | src/pages/Dashboard.tsx:26-39 | submitting the untouched form changes only missing optional fields (to "") and keeps every field's truthiness |
| JsArray.Filter | src/context/StudentContext.tsx:97 | `filter` keeps an element iff it is in the input and satisfies the predicate, and is never longer than the input |
| JsArray.FilterCounts | src/context/StudentContext.tsx:97 | a satisfying element keeps all its occurrences; any other element has none |
| JsArray.FilterIsSubsequence | src/pages/Dashboard.tsx:44 | the filtered list is a subsequence of the input, so catalog order is kept |
| JsArray.FilterConcat | src/context/StudentContext.tsx:97-99 | filtering a concatenation is concatenating the filtered parts |
| JsArray.FilterAll | src/context/StudentContext.tsx:97 | a predicate every element meets leaves the list unchanged |
| JsArray.FilterNone | src/context/StudentContext.tsx:97 | a predicate no element meets gives [] |
| JsArray.FilterThenFilter | src/pages/Dashboard.tsx:44-52 | filtering by a conjunction equals filtering by one conjunct and then by the other |
| JsArray.FilterCommutes | src/pages/Dashboard.tsx:44-52 | the order of two filters does not matter |
| JsArray.FilterWeaker | src/pages/Dashboard.tsx:44-52 | a stronger predicate keeps a subsequence of what a weaker one keeps |
| JsArray.FilterCongruent | src/pages/Dashboard.tsx:44-52 | predicates that agree on the list's elements filter it the same way |
| JsString.LowerChar | src/pages/Dashboard.tsx:45-46 | an ASCII capital becomes the same letter in small; every other character is unchanged |
| JsString.LowerIgnoresCase | src/pages/Dashboard.tsx:45-46 | a string and its ASCII-capitalised form lower-case to the same text |
| JsString.Lower | src/pages/Dashboard.tsx:45-46 | lower-casing keeps the length and lower-cases each character |
| JsString.IndexOf | src/components/CollegeCard.tsx:58 | the result is the first index where the pattern occurs, and None iff it occurs nowhere |
| JsString.Includes | src/pages/Dashboard.tsx:45-46 | true iff the needle occurs at some index |
| JsString.IncludesEmpty | src/pages/Dashboard.tsx:45-46 | the empty string is included in every string |
| JsString.ReplaceFirst | src/components/CollegeCard.tsx:58 | only the first occurrence is replaced; without any occurrence the string is unchanged |
| JsString.ReplaceFirstKeepsRest | src/components/CollegeCard.tsx:58 | when the pattern does not occur before its first occurrence, replacing it keeps everything before and after, later occurrences included |
| JsString.TrimStart | src/context/StudentContext.tsx:39 | the result is a suffix that does not start with white space, and everything dropped is white space |
| JsNumber.DigitPrefix | src/context/StudentContext.tsx:39 | the longest prefix of digits in the radix: a prefix, all digits, followed by a non-digit or the end |
| JsNumber.ParseInt | src/context/StudentContext.tsx:39 | `parseInt` without a radix; ParseNumeral, ParseNegativeNumeral, ParseNaNText and ParseShowRoundTrip state its values |
| JsNumber.ShowNumber | src/context/StudentContext.tsx:61 | `String(n)` is non-empty, starts with "-" iff n is negative, and is digits after the sign for every integer |
| JsNumber.NatString | src/context/StudentContext.tsx:61 | `String(n)` of a natural number is non-empty, all digits, with a leading "0" only for 0 |
| JsNumber.NatStringValue | src/context/StudentContext.tsx:61 | the decimal numeral of n has value n |
| JsNumber.ParseNaNText | src/context/StudentContext.tsx:39 | `parseInt("NaN")` is NaN |
| JsNumber.ParseNumeral | src/context/StudentContext.tsx:39 | a decimal numeral, leading zeros included, parses to its value |
| JsNumber.ParseNegativeNumeral | src/context/StudentContext.tsx:39 | "-" before a decimal numeral parses to the negated value |
| JsNumber.ParseShowRoundTrip | src/context/StudentContext.tsx:37-62 | `parseInt(String(n))` gives back n for every integer and for NaN, so a stored step reloads unchanged |
| Dashboard.MatchesSearch | src/pages/Dashboard.tsx:45-46 | the case-insensitive substring test on the name or the district; SearchIgnoresCase and EmptySearchMatches state its meaning |
| Dashboard.MatchesState | src/pages/Dashboard.tsx:47 | "all" or the college's own state; FilteredColleges states the list it selects |
| Dashboard.MatchesDistrict | src/pages/Dashboard.tsx:48 | "All Districts" or the college's own district; FilteredColleges states the list it selects |
| Dashboard.MatchesType | src/pages/Dashboard.tsx:49 | "all" or the college's own type name; FilteredColleges states the list it selects |
| Dashboard.MatchesStream | src/pages/Dashboard.tsx:50 | no profile, no stream chosen, or the stream offered; FilteredColleges states the list it selects |
| Dashboard.Matches | src/pages/Dashboard.tsx:51 | the conjunction of the five tests; FilteredCollegesInStages shows it equals the tests applied one after another |
| Dashboard.FilteredColleges | src/pages/Dashboard.tsx:44-52 | a college is listed iff it is in the catalog and the search, state, district, type and stream tests all hold; the list keeps catalog order |
| Dashboard.FilteredCollegesInStages | src/pages/Dashboard.tsx:44-52 | the combined filter equals the five single filters applied one after another |
| Dashboard.NoFiltersListEverything | src/pages/Dashboard.tsx:44-52 | with an empty query, the three wildcards and no stream chosen, the whole catalog is listed in order |
| Dashboard.SearchIgnoresCase | src/pages/Dashboard.tsx:45-46 | a query typed in capitals matches exactly the colleges the query matches, and a name stored in capitals is matched as if it were not |
| Dashboard.EmptySearchMatches | src/pages/Dashboard.tsx:45-46 | an empty query matches every college |
| Dashboard.CollegeFilterExample | src/pages/Dashboard.tsx:44-52 | with an MPC student and no filters, an AP engineering MPC college is listed and a TG medical BiPC-only college is not |
| Dashboard.MarkedCollegesList | src/pages/Dashboard.tsx:54 | a catalog college is listed iff its id is bookmarked, in catalog order, so bookmarks outside the catalog contribute nothing; a bookmarked college appears exactly as often as in the catalog |
| Dashboard.ToggleUnknownIdKeepsList | src/pages/Dashboard.tsx:54 | toggling an id that no catalog college has leaves the bookmarked list unchanged |
| Dashboard.Eligible | src/pages/Dashboard.tsx:56-73 | the four category branches and the final `return false`; EligibleIff states the condition outright |
| Dashboard.WithinBound | src/pages/Dashboard.tsx:59 | a falsy bound (absent or 0) accepts anything; a truthy bound accepts a parsed number iff it is at most the bound, and always refuses NaN |
| Dashboard.EligibleIff | src/pages/Dashboard.tsx:56-73 | eligible iff a profile exists, its field for the category is present and non-empty, and the parsed value is at most the bound whenever the bound is truthy |
| Dashboard.UnfilledNeverEligible | src/pages/Dashboard.tsx:73 | without a profile, or with the category's field missing or "", the scholarship is never eligible |
| Dashboard.RaisingMaxRankKeepsEligible | src/pages/Dashboard.tsx:57-68 | raising a truthy maxRank never makes an eligible scholarship ineligible |
| Dashboard.RaisingMaxIncomeKeepsEligible | src/pages/Dashboard.tsx:69-72 | raising a truthy maxIncome never makes an eligible scholarship ineligible |
| Dashboard.UnparsableFieldPassesOnlyUnbounded | src/pages/Dashboard.tsx:56-73 | a filled field that parses to NaN is eligible exactly when the scholarship has no truthy bound |
| Dashboard.RankText5000 | src/pages/Dashboard.tsx:58 | `parseInt("5000")` is 5000 |
| Dashboard.RankText15000 | src/pages/Dashboard.tsx:58 | `parseInt("15000")` is 15000 |
| Dashboard.JeeScholarshipExample | src/pages/Dashboard.tsx:57-60 | a JEE scholarship with maxRank 10000 is open to rank "5000", closed to "15000", and closed without a JEE rank |
| Dashboard.EligibleScholarships | src/pages/Dashboard.tsx:56-74 | a scholarship is listed iff it is in the catalog and eligible; the list keeps catalog order, and an eligible entry appears exactly as often as in the catalog |
| Dashboard.SaveUntouchedKeepsEligibility | src/pages/Dashboard.tsx:26-39 | saving the untouched edit form changes no scholarship's eligibility |
| Dashboard.Districts | src/pages/Dashboard.tsx:76 | the AP districts for AP, the TG districts for TG, none for "all" |
| Dashboard.SaveEdit | src/pages/Dashboard.tsx:38-42 | the profile is merged with the nine form fields; email, phone and the other slices are unchanged; storage changes only by the studentData write of the merged profile, none without a profile; sync is preserved |
| Onboarding.ValidateStep | src/pages/Onboarding.tsx:37-59 | only steps 1 and 2 can fail, step 1 only on names or 10th marks and step 2 only on inter marks or stream; StepOneRules and StepTwoRules give each step's condition and which error each failing form reports |
| Onboarding.MarksAccepted | src/pages/Onboarding.tsx:43 | empty text is refused; text that parses to NaN is accepted; a parsed number is accepted iff it lies in [0, 100] |
| Onboarding.StepOneRules | src/pages/Onboarding.tsx:38-47 | step 1 passes iff both names are non-empty and the 10th marks are accepted; a missing name is reported first, and with both names present refused marks are reported |
| Onboarding.StepTwoRules | src/pages/Onboarding.tsx:48-57 | step 2 passes iff the inter marks are accepted and a stream is chosen; bad marks are reported first, and with accepted marks a missing stream is reported |
| Onboarding.ResumedFormChecksStoredAnswers | src/pages/Onboarding.tsx:17-27 | the form resumes from the stored profile, so steps 1 and 2 pass exactly when the stored names, marks and stream would; without a profile step 1 reports the missing names |
| Onboarding.OtherStepsUnchecked | src/pages/Onboarding.tsx:37-59 | every step other than 1 and 2 (step 3 included) passes |
| Onboarding.HandleNext | src/pages/Onboarding.tsx:61-71 | on a failed check it reports that check's error and changes neither state nor storage; otherwise it merges the form, then advances a step below 3 (writing the new step) or completes onboarding (writing isOnboarded unless already set); storage gains exactly those writes after the studentData write; it keeps the step within 1..3 and preserves sync |
| Onboarding.HandleBack | src/pages/Onboarding.tsx:73-77 | the step goes down by one only when above 1, and only then is the new step written; the profile and flags are untouched; it keeps the step within 1..3 and preserves sync |
| Onboarding.HandleSkip | src/pages/Onboarding.tsx:79-83 | it merges the form unchecked and sets `isOnboarded`, leaving the step unchanged; storage gains exactly the studentData write and the isOnboarded write (the latter unless already set); sync is preserved |
| Onboarding.OnboardingKeepsContact | src/pages/Onboarding.tsx:17-27 | no onboarding merge alters email or phone |
| Registration.SanitizePhone | src/pages/Registration.tsx:112 | the sanitised phone is at most 10 characters long |
| Registration.SanitizeKeepsDigitsInOrder | src/pages/Registration.tsx:112 | the sanitised text is exactly the first ten digits of the input in their order (all of them when fewer), so it holds only digits and is a subsequence of the input |
| Registration.SanitizeIdempotent | src/pages/Registration.tsx:112 | sanitising twice gives the same as sanitising once |
| Registration.SanitizeKeepsValidPhone | src/pages/Registration.tsx:112 | a valid phone number passes through the sanitiser unchanged |
| Registration.ValidPhone | src/pages/Registration.tsx:30 | `^[6-9]\d{9}$`: ten digits, the first 6 to 9 |
| Registration.ValidEmail | src/pages/Registration.tsx:26 | the email check computed from the first "@"; ValidEmailMatchesPattern shows it accepts exactly what the regular expression matches |
| Registration.ValidEmailMatchesPattern | src/pages/Registration.tsx:26-29 | the computed email check accepts exactly the strings `^[^\s@]+@[^\s@]+\.[^\s@]+$` matches |
| Registration.ValidEmailIsPattern | src/pages/Registration.tsx:26 | an email the computed check accepts matches the regular expression |
| Registration.PatternIsValidEmail | src/pages/Registration.tsx:26 | an email matching the regular expression passes the computed check |
| Registration.CheckSubmit | src/pages/Registration.tsx:20-33 | each error is reported exactly when it is the first failed check: missing field iff a field is empty, invalid email iff both are filled and the email fails, invalid phone iff both are filled, the email passes and the phone fails; a submit passes only when both format checks hold, and SubmitAcceptsExactly gives the converse |
| Registration.EmptyFieldReportedFirst | src/pages/Registration.tsx:22-25 | an empty email or phone is reported as missing, before any format check |
| Registration.SubmitAcceptsExactly | src/pages/Registration.tsx:20-33 | a submit passes iff the email matches its pattern and the phone is ten digits starting with 6-9 |
| Registration.PhoneCheckedAfterEmail | src/pages/Registration.tsx:26-33 | an invalid phone is reported only when both fields are filled and the email is valid |
| Registration.NewProfile | src/pages/Registration.tsx:48-56 | the new profile has the entered email and phone, empty names, marks and stream, and no optional field |
| Registration.RegistrationPage.constructor | src/pages/Registration.tsx:15-17 | the page starts on the form with empty inputs |
| Registration.RegistrationPage.EnterEmail | src/pages/Registration.tsx:95 | the email input stores the typed text |
| Registration.RegistrationPage.EnterPhone | src/pages/Registration.tsx:112 | the phone input stores the sanitised text |
| Registration.RegistrationPage.HandleSubmit | src/pages/Registration.tsx:20-41 | it reports CheckSubmit's result, so invalid email exactly when both fields are filled and the email fails, and invalid phone exactly when the email passes and the phone fails; on an error it stays on the form, otherwise it moves to the OTP stage; the inputs are unchanged |
| Registration.RegistrationPage.HandleOtpComplete | src/pages/Registration.tsx:43-61 | for any code, the store's profile becomes the new profile and `isRegistered` becomes true; bookmarks, step and `isOnboarded` are unchanged; storage gains exactly the new profile's encoding and, unless already registered, "true" under isRegistered; sync is preserved |
| Index.EntryRoute | src/pages/Index.tsx:9-17 | /dashboard iff onboarded; /onboarding iff registered and not onboarded; /register iff neither; so exactly one route for each pair of flags |
| StepIndicator.Steps | src/components/StepIndicator.tsx:16 | the steps are the numbers 1..totalSteps, none for a length below 1 |
| StepIndicator.StepsIncreasing | src/components/StepIndicator.tsx:16 | the steps increase, and each of 1..totalSteps is among them |
| StepIndicator.StepStatus | src/components/StepIndicator.tsx:21-25 | completed iff the step is below the current one, active iff equal, pending iff above, and pending whenever the current step is NaN |
| StepIndicator.Statuses | src/components/StepIndicator.tsx:16-25 | one status per step, in step order |
| StepIndicator.StatusMeaning | src/components/StepIndicator.tsx:21-25 | a step is completed iff it is below the current step, active iff equal, pending iff above |
| StepIndicator.NaNStepAllPending | src/components/StepIndicator.tsx:21-25 | with a NaN current step every step is pending |
| StepIndicator.CountUpTo | src/components/StepIndicator.tsx:21-25 | among steps 1..n, min(n, current-1) are completed, floored at 0, and one is active iff 1 <= current <= n |
| StepIndicator.OneActiveStep | src/components/StepIndicator.tsx:21-25 | when 1 <= current <= total, exactly one step is active and current-1 are completed |
| StepIndicator.LabelHighlighted | src/components/StepIndicator.tsx:36 | a label is highlighted iff its step is not pending (step <= current) |
| StepIndicator.Connectors | src/components/StepIndicator.tsx:42-46 | there are totalSteps-1 connectors, and the one after step i is "success" iff step i is completed |
| StepIndicator.StepLabel | src/components/StepIndicator.tsx:10-39 | given labels (even an empty array) are used by index, else the three defaults; an index past the end has no label |
| StepIndicator.OnboardingLabels | src/components/StepIndicator.tsx:10-11 | without labels the steps read "Personal Details", "Inter Details", "Scholarship Info" |
| CollegeCard.DisplayWebsite | src/components/CollegeCard.tsx:58 | the link text is never longer than the address; the three lemmas below state which parts go |
| CollegeCard.DisplayDropsSchemeAndWww | src/components/CollegeCard.tsx:58 | "https://www." followed by any text is shown as that text |
| CollegeCard.DisplayKeepsLaterOccurrences | src/components/CollegeCard.tsx:58 | only the first "www." is removed; a later one stays |
| CollegeCard.DisplayUnchangedWithoutPrefixes | src/components/CollegeCard.tsx:58 | an address containing neither "https://" nor "www." is shown as it is |
| CollegeCard.ShownStreams | src/components/CollegeCard.tsx:70 | at most the first three streams are shown, in their original order |
| CollegeCard.StateLabel | src/components/CollegeCard.tsx:27 | "Andhra Pradesh" iff the state is AP, "Telangana" iff TG |
| CollegeCard.RequirementBadges | src/components/CollegeCard.tsx:80-93 | at most four badges; the percentage badge shows iff minPercentage is truthy, each exam badge iff that exam is accepted |
| CollegeCard.ShowsRequirements | src/components/CollegeCard.tsx:78 | the requirements row shows iff minPercentage is truthy or any exam is accepted, which is iff at least one badge appears |
| CollegeCard.ShowsMarked | src/components/CollegeCard.tsx:12-13 | the bookmark icon is filled iff the college's id is bookmarked |
| CollegeCard.ClickBookmark | src/components/CollegeCard.tsx:34 | the button toggles exactly this college's id; its icon flips; every other id keeps its status; storage changes only by the new list written under markedColleges; sync is preserved |

## Left out

- JSX rendering: Tailwind classes, icons, dialogs, tabs, toasts and the loading flags. `isLoading` only disables the button.
- ScholarshipCard.tsx and Logo.tsx are presentation only and are not part of this model.
- Navigation (`navigate(...)`, `window.location.href`) is left out. The entry page's choice is returned as a `Route` value.
- The `setTimeout` delays at src/pages/Registration.tsx:36-40 and 46-60 carry no logic. Their callbacks are modelled as plain steps.
- The static catalog (`@/data/colleges`) and `OTPInput` are not part of this model. The catalog, the scholarships and the district lists are inputs. OTP completion ignores the code its callback is given, as the source does.
- JSON text is not modelled: `JSON.stringify`/`JSON.parse` are the abstract `Codec`. A stored "null" (which parses to null) and a bookmark's `Date` reloading as a string are therefore not captured.
- `new Date()` is a natural-number timestamp parameter.
- `parseFloat` in the marks checks is a function parameter returning an optional real, with `None` standing for NaN. So a non-numeric, non-empty mark passes, as in the code.
- StudentContext.StudentStore.Logout: models only the synchronous body. Before the redirect, React may re-run the effects at src/context/StudentContext.tsx:52-66 and rewrite "[]", "false" and "1"; that depends on the framework.
- StudentContext.StudentStore: the setters persist their slice directly, standing in for the effect that follows the re-render. There is no cross-slice atomicity, and nothing models a crash between two writes.
- JsString.Lower: only ASCII letters are lower-cased; the rest of Unicode case mapping is left out.
- JsNumber.ParseInt: values are unbounded integers. Precision loss beyond 2^53 is not modelled.
- JsNumber.ShowNumber: the exponent notation `String(n)` uses from 1e21 upwards is not modelled. Only integral numbers and NaN occur in the modelled slices.
- Strings are sequences of Unicode scalar values rather than UTF-16 code units. Only the sanitiser's `slice(0, 10)` would differ, and it applies to digits only.
- CollegeCard.RequirementBadges: when minPercentage is 0 and an exam is accepted, React would render the literal "0" in place of the percentage badge; that text is not modelled.
