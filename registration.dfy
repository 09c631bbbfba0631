/**
 * The registration page: the phone-input sanitiser, the ordered submit
 * checks (empty fields, email pattern, phone pattern), and the OTP
 * completion that creates the profile and marks the student registered.
 */
module Registration {
  import opened Options
  import opened JsMath
  import opened JsArray
  import opened JsString
  import opened Student
  import opened StudentContext

  /** The phone input's change handler: drop every non-digit (`\D`), keep the first 10. */
  function SanitizePhone(raw: string): (r: string)
    ensures |r| <= 10
  {
    var digits := Filter(raw, IsDigit);
    digits[..Min(10, |digits|)]
  }

  /**
   * The sanitised text is made of digits only, taken in order from the raw
   * input: exactly the first ten of its digits, or all of them when fewer.
   */
  lemma SanitizeKeepsDigitsInOrder(raw: string)
    ensures forall i :: 0 <= i < |SanitizePhone(raw)| ==> IsDigit(SanitizePhone(raw)[i])
    ensures IsSubsequence(SanitizePhone(raw), raw)
    ensures SanitizePhone(raw) <= Filter(raw, IsDigit)
    ensures |SanitizePhone(raw)| == Min(10, |Filter(raw, IsDigit)|)
  {
    var digits := Filter(raw, IsDigit);
    var r := SanitizePhone(raw);
    forall i | 0 <= i < |r| ensures IsDigit(r[i]) {
      assert r[i] == digits[i];
      assert digits[i] in digits;
    }
    FilterIsSubsequence(raw, IsDigit);
    PrefixIsSubsequence(r, digits);
    SubsequenceTransitive(r, digits, raw);
  }

  lemma {:induction false} PrefixIsSubsequence<T>(r: seq<T>, s: seq<T>)
    requires r <= s
    ensures IsSubsequence(r, s)
    decreases |s|
  {
    if r != [] {
      assert r[0] == s[0];
      PrefixIsSubsequence(r[1..], s[1..]);
    }
  }

  lemma {:induction false} SubsequenceTransitive<T>(a: seq<T>, b: seq<T>, c: seq<T>)
    requires IsSubsequence(a, b) && IsSubsequence(b, c)
    ensures IsSubsequence(a, c)
    decreases |c|
  {
    if a != [] {
      assert c != [];
      if b[0] == c[0] && IsSubsequence(b[1..], c[1..]) {
        if a[0] == b[0] && IsSubsequence(a[1..], b[1..]) {
          SubsequenceTransitive(a[1..], b[1..], c[1..]);
        } else {
          SubsequenceTransitive(a, b[1..], c[1..]);
        }
      } else {
        SubsequenceTransitive(a, b, c[1..]);
      }
    }
  }

  /** Sanitising twice gives what sanitising once gave. */
  lemma SanitizeIdempotent(raw: string)
    ensures SanitizePhone(SanitizePhone(raw)) == SanitizePhone(raw)
  {
    var r := SanitizePhone(raw);
    SanitizeKeepsDigitsInOrder(raw);
    FilterAll(r, IsDigit);
  }

  /** The phone pattern `^[6-9]\d{9}$`: ten digits, the first one 6 to 9. */
  predicate ValidPhone(phone: string) {
    |phone| == 10 && '6' <= phone[0] <= '9' && forall i :: 0 <= i < |phone| ==> IsDigit(phone[i])
  }

  /** A valid phone number passes through the sanitiser untouched. */
  lemma SanitizeKeepsValidPhone(phone: string)
    requires ValidPhone(phone)
    ensures SanitizePhone(phone) == phone
  {
    FilterAll(phone, IsDigit);
  }

  /** `[^\s@]`: neither whitespace nor "@". */
  predicate EmailChar(c: char) {
    !IsWhitespace(c) && c != '@'
  }

  predicate AllEmailChars(s: string) {
    forall i :: 0 <= i < |s| ==> EmailChar(s[i])
  }

  /**
   * The email check as computed: split at the first "@"; the part before
   * is non-empty, and the part after has a "." with text on both sides;
   * neither part holds whitespace or another "@".
   */
  predicate ValidEmail(email: string) {
    match IndexOf(email, "@")
    case None => false
    case Some(at) =>
      var domain := email[at + 1..];
      0 < at && AllEmailChars(email[..at]) && AllEmailChars(domain) &&
      exists k :: 1 <= k < |domain| - 1 && domain[k] == '.'
  }

  /** The regular expression `^[^\s@]+@[^\s@]+\.[^\s@]+$` read as the concatenation it denotes. */
  ghost predicate EmailPattern(email: string) {
    exists local: string, host: string, top: string ::
      email == local + "@" + host + "." + top &&
      local != [] && host != [] && top != [] &&
      AllEmailChars(local) && AllEmailChars(host) && AllEmailChars(top)
  }

  /** The computed email check accepts exactly the strings the pattern matches. */
  lemma ValidEmailMatchesPattern(email: string)
    ensures ValidEmail(email) <==> EmailPattern(email)
  {
    if ValidEmail(email) {
      ValidEmailIsPattern(email);
    }
    if EmailPattern(email) {
      var local: string, host: string, top: string :|
        email == local + "@" + host + "." + top &&
        local != [] && host != [] && top != [] &&
        AllEmailChars(local) && AllEmailChars(host) && AllEmailChars(top);
      PatternIsValidEmail(email, local, host, top);
    }
  }

  lemma ValidEmailIsPattern(email: string)
    requires ValidEmail(email)
    ensures EmailPattern(email)
  {
    var at := IndexOf(email, "@").value;
    var local, domain := email[..at], email[at + 1..];
    assert email == local + "@" + domain by {
      assert OccursAt(email, "@", at);
    }
    var k :| 1 <= k < |domain| - 1 && domain[k] == '.';
    var host, top := SplitAtDot(domain, k);
    PatternWitness(email, local, domain, host, top);
  }

  /** The domain splits at one of its dots into the host and top-level parts. */
  lemma SplitAtDot(domain: string, k: int) returns (host: string, top: string)
    requires 1 <= k < |domain| - 1 && domain[k] == '.'
    requires AllEmailChars(domain)
    ensures domain == host + "." + top
    ensures host != [] && top != [] && AllEmailChars(host) && AllEmailChars(top)
  {
    host, top := domain[..k], domain[k + 1..];
    assert [domain[k]] == ".";
    assert domain == host + [domain[k]] + top;
    forall i | 0 <= i < |host| ensures EmailChar(host[i]) { assert host[i] == domain[i]; }
    forall i | 0 <= i < |top| ensures EmailChar(top[i]) { assert top[i] == domain[k + 1 + i]; }
  }

  lemma PatternWitness(email: string, local: string, domain: string, host: string, top: string)
    requires email == local + "@" + domain && domain == host + "." + top
    requires local != [] && host != [] && top != []
    requires AllEmailChars(local) && AllEmailChars(host) && AllEmailChars(top)
    ensures EmailPattern(email)
  {
    assert email == local + "@" + host + "." + top;
  }

  lemma PatternIsValidEmail(email: string, local: string, host: string, top: string)
    requires email == local + "@" + host + "." + top
    requires local != [] && host != [] && top != []
    requires AllEmailChars(local) && AllEmailChars(host) && AllEmailChars(top)
    ensures ValidEmail(email)
  {
    var domain := host + "." + top;
    assert email == local + "@" + domain;
    FirstAt(email, local, domain);
    assert email[|local| + 1..] == domain;
    assert email[..|local|] == local;
    assert AllEmailChars(domain) by {
      forall i | 0 <= i < |domain| ensures EmailChar(domain[i]) {
        if i < |host| {
          assert domain[i] == host[i];
        } else if i > |host| {
          assert domain[i] == top[i - |host| - 1];
        }
      }
    }
    assert 1 <= |host| < |domain| - 1 && domain[|host|] == '.';
  }

  /** An "@" after an "@"-free part is the first one. */
  lemma FirstAt(email: string, local: string, rest: string)
    requires email == local + "@" + rest
    requires AllEmailChars(local)
    ensures IndexOf(email, "@") == Some(|local|)
  {
    assert OccursAt(email, "@", |local|);
    forall j | 0 <= j < |local| ensures !OccursAt(email, "@", j) {
      assert email[j] == local[j];
    }
  }

  /** The reason a submit is refused. */
  datatype SubmitError = MissingField | InvalidEmail | InvalidPhone

  /** `handleSubmit`'s checks, in order; the first failure is the one reported. */
  function CheckSubmit(email: string, phone: string): (r: Option<SubmitError>)
    ensures r == Some(MissingField) <==> email == "" || phone == ""
    ensures r == Some(InvalidEmail) <==> email != "" && phone != "" && !ValidEmail(email)
    ensures r == Some(InvalidPhone) <==> email != "" && phone != "" && ValidEmail(email) && !ValidPhone(phone)
    ensures r.None? ==> ValidEmail(email) && ValidPhone(phone)
  {
    if email == "" || phone == "" then Some(MissingField)
    else if !ValidEmail(email) then Some(InvalidEmail)
    else if !ValidPhone(phone) then Some(InvalidPhone)
    else None
  }

  /** An empty field is reported as missing, whatever the other field holds. */
  lemma EmptyFieldReportedFirst(email: string, phone: string)
    requires email == "" || phone == ""
    ensures CheckSubmit(email, phone) == Some(MissingField)
  {
  }

  /**
   * A submit passes iff the email matches its pattern and the phone its
   * pattern; the emptiness check rejects nothing the patterns accept.
   */
  lemma SubmitAcceptsExactly(email: string, phone: string)
    ensures CheckSubmit(email, phone).None? <==> EmailPattern(email) && ValidPhone(phone)
  {
    ValidEmailMatchesPattern(email);
    if ValidEmail(email) {
      assert IndexOf(email, "@").Some?;
    }
  }

  /** An invalid phone is reported only once the email has passed. */
  lemma PhoneCheckedAfterEmail(email: string, phone: string)
    requires CheckSubmit(email, phone) == Some(InvalidPhone)
    ensures email != "" && phone != "" && EmailPattern(email) && !ValidPhone(phone)
  {
    ValidEmailMatchesPattern(email);
  }

  /** The page shows the contact form first, then the OTP entry. */
  datatype Stage = FormStage | OtpStage

  /** The profile that OTP completion stores: the entered contact details, everything else empty. */
  function NewProfile(email: string, phone: string): (p: Profile)
    ensures p.email == email && p.phone == phone
    ensures p.firstName == "" && p.lastName == "" && p.tenthMarks == "" && p.interMarks == ""
    ensures p.stream == NoStream
    ensures p.jeeRank.None? && p.eapcetRank.None? && p.emcetRank.None? && p.fatherIncome.None?
  {
    Profile(email, phone, "", "", "", "", NoStream, None, None, None, None)
  }

  /** The page's own state: its stage and the two inputs. */
  class RegistrationPage {
    var stage: Stage
    var email: string
    var phone: string

    constructor ()
      ensures stage == FormStage && email == "" && phone == ""
    {
      stage := FormStage;
      email := "";
      phone := "";
    }

    /** The email input stores what was typed. */
    method EnterEmail(typed: string)
      modifies this
      ensures email == typed && phone == old(phone) && stage == old(stage)
    {
      email := typed;
    }

    /** The phone input stores the sanitised text: digits only, at most ten. */
    method EnterPhone(typed: string)
      modifies this
      ensures phone == SanitizePhone(typed) && email == old(email) && stage == old(stage)
      ensures |phone| <= 10
    {
      phone := SanitizePhone(typed);
    }

    /** `handleSubmit`: on the first failed check stay on the form; otherwise move to the OTP stage. */
    method HandleSubmit() returns (error: Option<SubmitError>)
      modifies this
      ensures error == CheckSubmit(email, phone)
      ensures error == Some(InvalidEmail) <==> email != "" && phone != "" && !ValidEmail(email)
      ensures error == Some(InvalidPhone) <==> email != "" && phone != "" && ValidEmail(email) && !ValidPhone(phone)
      ensures stage == if error.None? then OtpStage else old(stage)
      ensures email == old(email) && phone == old(phone)
    {
      error := CheckSubmit(email, phone);
      if error.None? {
        stage := OtpStage;
      }
    }

    /**
     * `handleOTPComplete`: any code is accepted; the store's profile is
     * replaced by the new one, then the student is registered.
     */
    method HandleOtpComplete(store: StudentStore, otp: string)
      modifies store
      ensures store.profile == Some(NewProfile(email, phone))
      ensures store.isRegistered
      ensures store.bookmarks == old(store.bookmarks)
      ensures store.currentStep == old(store.currentStep) && store.isOnboarded == old(store.isOnboarded)
      ensures var written := old(store.storage)[StudentDataKey := store.codec.encodeProfile(NewProfile(email, phone))];
        store.storage == if old(store.isRegistered) then written else written[IsRegisteredKey := BoolString(true)]
      ensures old(store.Synced()) ==> store.Synced()
    {
      store.SetStudentData(NewProfile(email, phone));
      store.SetIsRegistered(true);
    }
  }
}
