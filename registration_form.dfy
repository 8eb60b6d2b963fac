/**
 * The logic of `src/components/RegistrationForm.jsx`: the per-field
 * validation rules, the normalisation of the record handed to the store,
 * the classification of the insert outcome, and the six pieces of
 * component state that the change, reset and submit handlers update.
 */
module Registration {
  import opened Results
  import opened JsText
  import RC = ReferralCode

  /** The branches the select offers. `validate` never consults this list. */
  const Branches: seq<string> := [
    "Computer Science", "Information Technology", "Electronics & Communication",
    "Electrical Engineering", "Mechanical Engineering", "Civil Engineering",
    "Chemical Engineering", "Biotechnology"
  ]

  /** The inputs of the form, by their `name` attribute. */
  datatype Field = FullName | Email | Phone | Branch | City | Country | ReferralCodeUsed

  /** The fields `validate` can report on. */
  const RequiredFields: set<Field> := {FullName, Email, Phone, Branch, City, Country}

  /** The `form` state: the raw text of every input. */
  datatype Form = Form(
    fullName: string, email: string, phone: string, branch: string,
    city: string, country: string, referralCodeUsed: string)
  {
    /** `form[name]` */
    function Get(f: Field): string {
      match f
      case FullName => fullName
      case Email => email
      case Phone => phone
      case Branch => branch
      case City => city
      case Country => country
      case ReferralCodeUsed => referralCodeUsed
    }

    /** `{ ...form, [name]: value }` */
    function With(f: Field, v: string): (r: Form)
      ensures r.Get(f) == v
      ensures forall g | g != f :: r.Get(g) == Get(g)
    {
      match f
      case FullName => this.(fullName := v)
      case Email => this.(email := v)
      case Phone => this.(phone := v)
      case Branch => this.(branch := v)
      case City => this.(city := v)
      case Country => this.(country := v)
      case ReferralCodeUsed => this.(referralCodeUsed := v)
    }
  }

  /** `INITIAL_FORM`: every input empty. */
  const InitialForm: Form := Form("", "", "", "", "", "", "")

  const FullNameRequired: string := "Full name is required."
  const FullNameTooShort: string := "Name must be at least 2 characters."
  const EmailRequired: string := "Email is required."
  const EmailInvalid: string := "Enter a valid email address."
  const PhoneRequired: string := "Phone number is required."
  const PhoneInvalid: string := "Enter a valid phone number."
  const BranchRequired: string := "Please select a branch."
  const CityRequired: string := "City is required."
  const CountryRequired: string := "Country is required."

  /* ── The two regular expressions ───────────────────────── */

  /** `[^\s@]` */
  predicate IsEmailChar(c: char) {
    !IsSpace(c) && c != '@'
  }

  /** `[^\s@]+` */
  predicate EmailRun(t: string) {
    |t| > 0 && forall k | 0 <= k < |t| :: IsEmailChar(t[k])
  }

  /** `/^[^\s@]+@[^\s@]+\.[^\s@]+$/.test(s)`: `s` splits at an `@` and a
      later `.` into three non-empty runs of `[^\s@]`. */
  predicate MatchesEmailPattern(s: string) {
    exists at, dot | 0 < at < |s| && 0 < dot < |s| :: EmailSplit(s, at, dot)
  }

  /** `[\d\s\-()]` */
  predicate IsPhoneChar(c: char) {
    IsDigit(c) || IsSpace(c) || c == '-' || c == '(' || c == ')'
  }

  /** `/^[+\d][\d\s\-()]{6,18}$/.test(t)` */
  predicate MatchesPhonePattern(t: string) {
    && 7 <= |t| <= 19
    && (t[0] == '+' || IsDigit(t[0]))
    && forall k | 1 <= k < |t| :: IsPhoneChar(t[k])
  }

  /* ── validate ──────────────────────────────────────────── */

  /** The `full_name` rule. */
  function FullNameError(v: string): Option<string> {
    if Trim(v) == "" then Some(FullNameRequired)
    else if Utf16Length(Trim(v)) < 2 then Some(FullNameTooShort)
    else None
  }

  /** The `email` rule: emptiness is judged on the trimmed value, the
      pattern on the value as typed. */
  function EmailError(v: string): Option<string> {
    if Trim(v) == "" then Some(EmailRequired)
    else if !MatchesEmailPattern(v) then Some(EmailInvalid)
    else None
  }

  /** The `phone` rule: both tests on the trimmed value. */
  function PhoneError(v: string): Option<string> {
    if Trim(v) == "" then Some(PhoneRequired)
    else if !MatchesPhonePattern(Trim(v)) then Some(PhoneInvalid)
    else None
  }

  /** The `branch` rule: only emptiness, no membership in `Branches`. */
  function BranchError(v: string): Option<string> {
    if v == "" then Some(BranchRequired) else None
  }

  /** The `city` and `country` rules. */
  function RequiredError(v: string, message: string): Option<string> {
    if Trim(v) == "" then Some(message) else None
  }

  /** The outcome of the rule for field `f` of `form`. */
  function FieldError(form: Form, f: Field): Option<string> {
    match f
    case FullName => FullNameError(form.fullName)
    case Email => EmailError(form.email)
    case Phone => PhoneError(form.phone)
    case Branch => BranchError(form.branch)
    case City => RequiredError(form.city, CityRequired)
    case Country => RequiredError(form.country, CountryRequired)
    case ReferralCodeUsed => None
  }

  /** `validate(form)`: every rule that fails contributes one entry, for
      its own field, holding its message. */
  function Validate(form: Form): (errors: map<Field, string>)
    ensures errors.Keys <= RequiredFields
  {
    map f | f in RequiredFields && FieldError(form, f).Some? :: FieldError(form, f).value
  }

  /** Every rule decides its own entry and nothing else: a field has an
      entry exactly when its rule fails, holding that rule's message; the
      optional referral field never has one. */
  lemma ValidateEntries(form: Form)
    ensures forall f :: f in Validate(form) <==> FieldError(form, f).Some?
    ensures forall f | f in Validate(form) :: Validate(form)[f] == FieldError(form, f).value
  {
  }

  /** The empty form fails every required field with its "required"
      message, and the optional referral field never gets an entry. */
  lemma ValidateInitialForm()
    ensures Validate(InitialForm) == map[
      FullName := FullNameRequired, Email := EmailRequired, Phone := PhoneRequired,
      Branch := BranchRequired, City := CityRequired, Country := CountryRequired]
    ensures Validate(InitialForm).Keys == RequiredFields
  {
  }

  /** The full-name rule: required when it trims to nothing, too short
      when the trimmed name is one UTF-16 code unit long, accepted otherwise. */
  lemma FullNameRule(form: Form)
    ensures var errors, t := Validate(form), Trim(form.fullName);
      && (FullName in errors && errors[FullName] == FullNameRequired <==> t == "")
      && (FullName in errors && errors[FullName] == FullNameTooShort <==> Utf16Length(t) == 1)
      && (FullName !in errors <==> Utf16Length(t) >= 2)
  {
  }

  /** The email rule: required when it trims to nothing; otherwise accepted
      exactly when the untrimmed value matches the pattern. */
  lemma EmailRule(form: Form)
    ensures var errors := Validate(form);
      && (Email in errors && errors[Email] == EmailRequired <==> Trim(form.email) == "")
      && (Email in errors && errors[Email] == EmailInvalid <==> Trim(form.email) != "" && !MatchesEmailPattern(form.email))
      && (Email !in errors <==> MatchesEmailPattern(form.email))
  {
    ValidateEntries(form);
    if MatchesEmailPattern(form.email) {
      var at, dot :| 0 < at < |form.email| && 0 < dot < |form.email| && EmailSplit(form.email, at, dot);
      TrimRemovesSpace(form.email);
      assert !IsSpace(form.email[at]);
    }
  }

  /** The phone rule: required when it trims to nothing; otherwise accepted
      exactly when the trimmed value matches the pattern. */
  lemma PhoneRule(form: Form)
    ensures var errors, t := Validate(form), Trim(form.phone);
      && (Phone in errors && errors[Phone] == PhoneRequired <==> t == "")
      && (Phone in errors && errors[Phone] == PhoneInvalid <==> t != "" && !MatchesPhonePattern(t))
      && (Phone !in errors <==> MatchesPhonePattern(t))
  {
  }

  /** The branch fails only when empty: any other text, listed in
      `Branches` or not, passes; city and country fail exactly when they
      trim to nothing. */
  lemma BranchCityCountryRules(form: Form)
    ensures var errors := Validate(form);
      && (Branch in errors <==> form.branch == "")
      && (Branch in errors ==> errors[Branch] == BranchRequired)
      && (City in errors <==> Trim(form.city) == "")
      && (City in errors ==> errors[City] == CityRequired)
      && (Country in errors <==> Trim(form.country) == "")
      && (Country in errors ==> errors[Country] == CountryRequired)
      && ReferralCodeUsed !in errors
      && (form.branch != "" && form.branch !in Branches ==> Branch !in errors)
  {
  }

  /* ── The email pattern in plain words ──────────────────── */

  /** Number of occurrences of `c` in `s`. */
  function CountOf(c: char, s: string): nat {
    if s == [] then 0 else (if s[0] == c then 1 else 0) + CountOf(c, s[1..])
  }

  lemma {:induction false} CountOfNone(c: char, s: string)
    ensures CountOf(c, s) == 0 <==> forall k | 0 <= k < |s| :: s[k] != c
  {
    if s != [] {
      CountOfNone(c, s[1..]);
      assert forall k | 1 <= k < |s| :: s[k] == s[1..][k - 1];
    }
  }

  /** Where `s[i]` is `c`, `c` occurs once exactly when it occurs nowhere else. */
  lemma {:induction false} CountOfSingle(c: char, s: string, i: nat)
    requires i < |s| && s[i] == c
    ensures CountOf(c, s) == 1 <==> forall k | 0 <= k < |s| && k != i :: s[k] != c
  {
    assert forall k | 1 <= k < |s| :: s[k] == s[1..][k - 1];
    if i == 0 {
      CountOfNone(c, s[1..]);
    } else {
      CountOfSingle(c, s[1..], i - 1);
      if s[0] == c {
        CountOfNone(c, s[1..]);
        assert s[1..][i - 1] == c;
      }
    }
  }

  /** The email pattern with the positions of its `@` and its `.`. */
  predicate EmailSplit(s: string, at: int, dot: int) {
    && 0 < at && at + 1 < dot && dot + 1 < |s|
    && s[at] == '@' && s[dot] == '.'
    && EmailRun(s[..at]) && EmailRun(s[at + 1..dot]) && EmailRun(s[dot + 1..])
  }

  /** Apart from the `@` of a split, every character is `[^\s@]`. */
  lemma EmailSplitChars(s: string, at: int, dot: int)
    requires EmailSplit(s, at, dot)
    ensures forall k | 0 <= k < |s| && k != at :: IsEmailChar(s[k])
  {
    forall k | 0 <= k < |s| && k != at ensures IsEmailChar(s[k]) {
      if k < at { assert s[k] == s[..at][k]; }
      else if k < dot { assert s[k] == s[at + 1..dot][k - at - 1]; }
      else if k > dot { assert s[k] == s[dot + 1..][k - dot - 1]; }
    }
  }

  /** Conversely, positions of an `@` and a later `.` split the value
      whenever no other character is white space or `@`. */
  lemma EmailSplitFromChars(s: string, at: int, dot: int)
    requires 0 < at && at + 1 < dot && dot + 1 < |s| && s[at] == '@' && s[dot] == '.'
    requires forall k | 0 <= k < |s| && k != at :: IsEmailChar(s[k])
    ensures EmailSplit(s, at, dot)
  {
    var local, domain, tld := s[..at], s[at + 1..dot], s[dot + 1..];
    forall k | 0 <= k < |local| ensures IsEmailChar(local[k]) { assert local[k] == s[k]; }
    forall k | 0 <= k < |domain| ensures IsEmailChar(domain[k]) { assert domain[k] == s[at + 1 + k]; }
    forall k | 0 <= k < |tld| ensures IsEmailChar(tld[k]) { assert tld[k] == s[dot + 1 + k]; }
  }

  /** The email pattern holds exactly when the value has no white space,
      exactly one `@` with text before it, and a `.` after the `@` with at
      least one character on each side of that `.`. */
  lemma EmailPatternShape(s: string)
    ensures MatchesEmailPattern(s) <==>
      && NoSpace(s)
      && CountOf('@', s) == 1
      && exists at, dot | 0 < at && at + 1 < dot && dot + 1 < |s| :: s[at] == '@' && s[dot] == '.'
  {
    if MatchesEmailPattern(s) {
      var at, dot :| 0 < at < |s| && 0 < dot < |s| && EmailSplit(s, at, dot);
      EmailSplitChars(s, at, dot);
      CountOfSingle('@', s, at);
    }
    if && NoSpace(s) && CountOf('@', s) == 1
       && exists at, dot | 0 < at && at + 1 < dot && dot + 1 < |s| :: s[at] == '@' && s[dot] == '.'
    {
      var at, dot :| 0 < at && at + 1 < dot && dot + 1 < |s| && s[at] == '@' && s[dot] == '.';
      CountOfSingle('@', s, at);
      EmailSplitFromChars(s, at, dot);
    }
  }

  /* ── Normalisation of the inserted record ──────────────── */

  /** The object passed to `insert`. */
  datatype NewRegistration = NewRegistration(
    fullName: string, email: string, phone: string, branch: string,
    city: string, country: string, referralCode: string, referralCodeUsed: Option<string>)

  /** The record `handleSubmit` builds from the form and the issued code. */
  function Normalize(form: Form, code: string): NewRegistration {
    var used := Trim(form.referralCodeUsed);
    NewRegistration(
      Trim(form.fullName), ToLower(Trim(form.email)), Trim(form.phone), form.branch,
      Trim(form.city), Trim(form.country), code, if used == "" then None else Some(used))
  }

  /** No outer white space. */
  predicate IsTrimmed(s: string) {
    s == [] || (!IsSpace(s[0]) && !IsSpace(s[|s| - 1]))
  }

  /** The normalised record: text fields carry no outer white space, the
      email has no upper-case ASCII letter, the branch and code pass
      through, and an absent referral is what trims to nothing. */
  lemma NormalizeShape(form: Form, code: string)
    ensures var r := Normalize(form, code);
      && IsTrimmed(r.fullName) && IsTrimmed(r.email) && IsTrimmed(r.phone)
      && IsTrimmed(r.city) && IsTrimmed(r.country)
      && (forall k | 0 <= k < |r.email| :: !('A' <= r.email[k] <= 'Z'))
      && r.branch == form.branch && r.referralCode == code
      && (r.referralCodeUsed.None? <==> AllSpace(form.referralCodeUsed))
      && (r.referralCodeUsed.Some? ==> r.referralCodeUsed.value != "" && IsTrimmed(r.referralCodeUsed.value))
  {
    TrimRemovesSpace(form.referralCodeUsed);
  }

  /** The form a stored record would fill in again. */
  function Refill(r: NewRegistration): Form {
    Form(r.fullName, r.email, r.phone, r.branch, r.city, r.country,
      match r.referralCodeUsed case None => "" case Some(v) => v)
  }

  /** Normalising an already normalised record changes nothing. */
  lemma NormalizeIdempotent(form: Form, code: string)
    ensures Normalize(Refill(Normalize(form, code)), code) == Normalize(form, code)
  {
    TrimIdempotent(form.fullName);
    TrimIdempotent(form.phone);
    TrimIdempotent(form.city);
    TrimIdempotent(form.country);
    TrimIdempotent(form.referralCodeUsed);
    TrimIdempotent(form.email);
    ToLowerTrim(Trim(form.email));
  }

  /** Two emails that differ only in ASCII letter case and outer white space are
      stored as the same value, so the store's uniqueness check treats
      them as one. */
  lemma SameStoredEmail(a: string, b: string)
    requires Trim(ToLower(a)) == Trim(ToLower(b))
    ensures ToLower(Trim(a)) == ToLower(Trim(b))
  {
    ToLowerTrim(a);
    ToLowerTrim(b);
  }

  /** Trimming and lower-casing keep an email that matches the pattern
      matching it, with its `@` and `.` where they were. */
  lemma NormalizedEmailMatches(s: string)
    requires MatchesEmailPattern(s)
    ensures ToLower(Trim(s)) == ToLower(s)
    ensures MatchesEmailPattern(ToLower(Trim(s)))
  {
    var at, dot :| 0 < at < |s| && 0 < dot < |s| && EmailSplit(s, at, dot);
    EmailSplitChars(s, at, dot);
    TrimOfTrimmed(s);
    EmailSplitFromChars(ToLower(s), at, dot);
  }

  /** A form that passes validation yields a record whose fields are
      non-empty and whose email and phone still match their patterns after
      trimming and lower-casing. */
  lemma ValidFormGivesWellFormedRecord(form: Form, code: string)
    requires Validate(form) == map[]
    ensures var r := Normalize(form, code);
      && Utf16Length(r.fullName) >= 2
      && MatchesEmailPattern(r.email)
      && MatchesPhonePattern(r.phone)
      && r.branch != "" && r.city != "" && r.country != ""
  {
    var r := Normalize(form, code);
    assert Utf16Length(r.fullName) >= 2 by {
      assert FullName !in Validate(form);
      assert FieldError(form, FullName).None?;
    }
    assert MatchesEmailPattern(r.email) by {
      assert Email !in Validate(form);
      assert FieldError(form, Email).None?;
      NormalizedEmailMatches(form.email);
    }
    assert MatchesPhonePattern(r.phone) by {
      assert Phone !in Validate(form);
      assert FieldError(form, Phone).None?;
    }
    assert r.branch != "" && r.city != "" && r.country != "" by {
      assert Branch !in Validate(form) && City !in Validate(form) && Country !in Validate(form);
      assert FieldError(form, Branch).None? && FieldError(form, City).None? && FieldError(form, Country).None?;
    }
  }

  /* ── Outcome of a submission ───────────────────────────── */

  /** What `supabase.from('registrations').insert([...])` reports. */
  datatype InsertReply =
    | Inserted
    | InsertFailed(code: string, message: string)   // `{ error }` returned
    | InsertThrew(message: string)                  // the call threw

  /** Postgres' unique-violation error code. */
  const UniqueViolation: string := "23505"
  const DuplicateEmailMessage: string := "This email is already registered."
  const GenericFailureMessage: string := "Something went wrong. Please try again."
  const NetworkErrorMessage: string := "Network error. Please try again."

  /** What the user sees after the validation gate has passed. */
  datatype SubmitOutcome = Registered(code: string) | Failed(message: string)

  /** `err?.message || 'Network error. Please try again.'` */
  function ThrownMessage(message: string): (r: string)
    ensures r != ""
    ensures message != "" ==> r == message
    ensures message == "" ==> r == NetworkErrorMessage
  {
    if message != "" then message else NetworkErrorMessage
  }

  /** The classification of the insert reply for a record carrying `code`. */
  function Classify(reply: InsertReply, code: string): (o: SubmitOutcome)
    ensures o.Registered? <==> reply.Inserted?
    ensures o.Registered? ==> o.code == code
    ensures o.Failed? ==> o.message != ""
    ensures reply.InsertThrew? ==> o == Failed(ThrownMessage(reply.message))
  {
    match reply
    case Inserted => Registered(code)
    case InsertFailed(errCode, message) =>
      if errCode == UniqueViolation then Failed(DuplicateEmailMessage)
      else Failed(if message != "" then message else GenericFailureMessage)
    case InsertThrew(message) => Failed(ThrownMessage(message))
  }

  /** Every unique violation reads as a duplicate email, whichever column
      it was on, and every other store error shows the store's own message
      when it has one. */
  lemma ClassifyStoreErrors(errCode: string, message: string, code: string)
    ensures errCode == UniqueViolation ==> Classify(InsertFailed(errCode, message), code) == Failed(DuplicateEmailMessage)
    ensures errCode != UniqueViolation && message != "" ==> Classify(InsertFailed(errCode, message), code) == Failed(message)
    ensures errCode != UniqueViolation && message == "" ==> Classify(InsertFailed(errCode, message), code) == Failed(GenericFailureMessage)
  {
  }

  /* ── The component ─────────────────────────────────────── */

  /** The six state cells of `RegistrationForm` and its three handlers. */
  class RegistrationForm {
    var form: Form
    var errors: map<Field, string>
    var submitting: bool
    var submitError: string
    var success: bool
    var referralCode: string

    /** The initial `useState` values. */
    constructor ()
      ensures form == InitialForm && errors == map[]
      ensures !submitting && submitError == "" && !success && referralCode == ""
    {
      form := InitialForm;
      errors := map[];
      submitting := false;
      submitError := "";
      success := false;
      referralCode := "";
    }

    /** `handleChange`: stores the new value of one input, drops that
        input's error (when it has a non-empty one) and clears the
        submission error. */
    method HandleChange(name: Field, value: string)
      modifies this
      ensures form.Get(name) == value
      ensures forall g | g != name :: form.Get(g) == old(form).Get(g)
      ensures name !in errors || errors[name] == ""
      ensures forall g | g != name :: (g in errors <==> g in old(errors))
      ensures forall g | g != name && g in errors :: errors[g] == old(errors)[g]
      ensures name in errors ==> name in old(errors) && errors[name] == old(errors)[name]
      ensures submitError == ""
      ensures submitting == old(submitting) && success == old(success) && referralCode == old(referralCode)
    {
      form := form.With(name, value);
      if name in errors && errors[name] != "" {
        errors := errors - {name};
      }
      submitError := "";
    }

    /** `handleReset`: back to the empty form with no messages. */
    method HandleReset()
      modifies this
      ensures form == InitialForm && errors == map[]
      ensures submitError == "" && !success && referralCode == ""
      ensures submitting == old(submitting)
    {
      form := InitialForm;
      errors := map[];
      submitError := "";
      success := false;
      referralCode := "";
    }

    /** `handleSubmit`: validation gate, code issuance with the default
        budget, one insert of the normalised record, classification.
        `sent` is the record handed to `insert`, if any. */
    method HandleSubmit(random: RC.RandomSource, lookup: RC.Lookup, insert: NewRegistration -> InsertReply)
      returns (sent: Option<NewRegistration>)
      modifies this
      ensures form == old(form)
      ensures Validate(old(form)) != map[] ==>
        && errors == Validate(old(form)) && sent == None
        && submitting == old(submitting) && submitError == old(submitError)
        && success == old(success) && referralCode == old(referralCode)
      ensures Validate(old(form)) == map[] ==>
        var issued := RC.Issue(RC.DefaultMaxAttempts, random, lookup).outcome;
        && errors == old(errors) && !submitting
        && (issued.Err? ==>
              && sent == None && submitError == ThrownMessage(issued.message)
              && success == old(success) && referralCode == old(referralCode))
        && (issued.Ok? ==>
              && sent == Some(Normalize(old(form), issued.value))
              && match Classify(insert(sent.value), issued.value)
                 case Registered(c) => success && referralCode == c && submitError == ""
                 case Failed(m) => submitError == m && success == old(success) && referralCode == old(referralCode))
    {
      sent := None;
      var validationErrors := Validate(form);
      if validationErrors != map[] {
        errors := validationErrors;
        return;
      }
      submitting := true;
      submitError := "";
      var issued, _ := RC.GenerateReferralCode(RC.DefaultMaxAttempts, random, lookup);
      match issued {
        case Err(m) =>
          submitError := ThrownMessage(m);
        case Ok(code) =>
          var record := Normalize(form, code);
          sent := Some(record);
          match Classify(insert(record), code) {
            case Failed(m) =>
              submitError := m;
            case Registered(c) =>
              referralCode := c;
              success := true;
          }
      }
      submitting := false;
    }
  }
}
