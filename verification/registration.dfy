/** The four-step registration wizard (src/screens/RegistrationForm.js): the
    per-step field validators, the step counter and the registration request body. */
module Registration {
  import opened Wrappers
  import opened Text

  /** The form's text fields, as typed. */
  datatype Form = Form(
    email: string,
    firstName: string,
    lastName: string,
    phoneNumber: string,
    password: string,
    confirmPassword: string,
    streetAddress1: string,
    streetAddress2: string,
    city: string,
    state: string,
    zip: string,
    promoCode: string)

  const EmptyForm := Form("", "", "", "", "", "", "", "", "", "", "", "")

  /** The fields that can carry a validation message. */
  datatype Field = FirstName | LastName | Email | PhoneNumber | Password | ConfirmPassword | StreetAddress1

  /** Every character of `s[i..j]` is matched by `\S`. */
  predicate NonSpaceRun(s: string, i: int, j: int)
    requires 0 <= i <= j <= |s|
  {
    forall k | i <= k < j :: !IsSpace(s[k])
  }

  /** `s[a..e]` is a match of `\S+@\S+\.\S+` with its `@` at `p` and its `.` at `q`. */
  ghost predicate PatternMatchAt(s: string, a: int, p: int, q: int, e: int) {
    && 0 <= a < p && p + 1 < q && q + 1 < e <= |s|
    && NonSpaceRun(s, a, p) && s[p] == '@'
    && NonSpaceRun(s, p + 1, q) && s[q] == '.'
    && NonSpaceRun(s, q + 1, e)
  }

  /** `/\S+@\S+\.\S+/.test(s)`: the pattern is not anchored, so it may match
      anywhere inside `s`. */
  ghost predicate MatchesEmailPattern(s: string) {
    exists a, p, q, e :: PatternMatchAt(s, a, p, q, e)
  }

  /** An `@` at `p` with a non-space character before it, a `.` at `q`
      separated from the `@` by one or more non-space characters, and a
      non-space character after the `.`. */
  predicate EmailShapeAt(s: string, p: int, q: int) {
    && 1 <= p && p + 1 < q && q + 1 < |s|
    && !IsSpace(s[p - 1]) && s[p] == '@'
    && NonSpaceRun(s, p + 1, q) && s[q] == '.'
    && !IsSpace(s[q + 1])
  }

  /** The email check the wizard applies. */
  predicate HasEmailShape(s: string) {
    exists p, q | 0 <= p < q < |s| :: EmailShapeAt(s, p, q)
  }

  /** The check is exactly the regular expression's: the first and last `\S+`
      of any match can be shrunk to a single character, and a single
      character is a match of `\S+`. */
  lemma EmailShapeIsPattern(s: string)
    ensures HasEmailShape(s) <==> MatchesEmailPattern(s)
  {
    if HasEmailShape(s) {
      var p, q :| 0 <= p < q < |s| && EmailShapeAt(s, p, q);
      assert PatternMatchAt(s, p - 1, p, q, q + 2);
    }
    if MatchesEmailPattern(s) {
      var a, p, q, e :| PatternMatchAt(s, a, p, q, e);
      assert !IsSpace(s[p - 1]);
      assert !IsSpace(s[q + 1]);
      assert EmailShapeAt(s, p, q);
    }
  }

  predicate IsAsciiLetter(c: char) {
    'A' <= c <= 'Z' || 'a' <= c <= 'z'
  }

  predicate IsAsciiDigit(c: char) {
    '0' <= c <= '9'
  }

  /** Every character is an ASCII letter or digit: `[A-Za-z\d]*`. */
  predicate AllLettersOrDigits(p: string) {
    p == [] || ((IsAsciiLetter(p[0]) || IsAsciiDigit(p[0])) && AllLettersOrDigits(p[1..]))
  }

  /** Some character is an ASCII letter: the look-ahead `(?=.*[A-Za-z])`. */
  predicate HasLetter(p: string) {
    p != [] && (IsAsciiLetter(p[0]) || HasLetter(p[1..]))
  }

  /** Some character is a digit: the look-ahead `(?=.*\d)`. */
  predicate HasDigit(p: string) {
    p != [] && (IsAsciiDigit(p[0]) || HasDigit(p[1..]))
  }

  /** `/^(?=.*[A-Za-z])(?=.*\d)[A-Za-z\d]{8,}$/.test(p)`: at least eight
      characters, all ASCII letters or digits, with at least one of each. */
  predicate PasswordPatternHolds(p: string) {
    |p| >= 8 && AllLettersOrDigits(p) && HasLetter(p) && HasDigit(p)
  }

  /** The recursive character checks agree with their index-wise reading. */
  lemma {:induction false} PasswordChecksByIndex(p: string)
    ensures AllLettersOrDigits(p) <==> forall i | 0 <= i < |p| :: IsAsciiLetter(p[i]) || IsAsciiDigit(p[i])
    ensures HasLetter(p) <==> exists i | 0 <= i < |p| :: IsAsciiLetter(p[i])
    ensures HasDigit(p) <==> exists i | 0 <= i < |p| :: IsAsciiDigit(p[i])
  {
    if p != [] {
      PasswordChecksByIndex(p[1..]);
      assert forall i | 1 <= i < |p| :: p[1..][i - 1] == p[i];
      if HasLetter(p) && !IsAsciiLetter(p[0]) {
        var j :| 0 <= j < |p[1..]| && IsAsciiLetter(p[1..][j]);
        assert IsAsciiLetter(p[j + 1]);
      }
      if HasDigit(p) && !IsAsciiDigit(p[0]) {
        var j :| 0 <= j < |p[1..]| && IsAsciiDigit(p[1..][j]);
        assert IsAsciiDigit(p[j + 1]);
      }
    }
  }

  /** The validation messages `validateStep` can record. */
  datatype Message =
    | FirstNameRequired | LastNameRequired | EmailRequired | EmailInvalid
    | PhoneRequired | PasswordRequired | WeakPassword | ConfirmRequired
    | PasswordsDiffer | AddressRequired

  /** The text the screen shows for each message, word for word. */
  function MessageText(m: Message): string {
    match m
    case FirstNameRequired => "First name is required"
    case LastNameRequired => "Last name is required"
    case EmailRequired => "Email is required"
    case EmailInvalid => "Enter a valid email"
    case PhoneRequired => "Phone number is required"
    case PasswordRequired => "Password is required"
    case WeakPassword => "Password must be at least 8 characters with letters & numbers"
    case ConfirmRequired => "Confirm password is required"
    case PasswordsDiffer => "Passwords do not match"
    case AddressRequired => "Address is required"
  }

  /** The message `validateStep` records for one field, if any. Each field's
      checks form an if / else-if chain, so a field gets at most one message. */
  function FieldError(fld: Field, f: Form): Option<Message> {
    match fld
    case FirstName =>
      if IsBlank(f.firstName) then Some(FirstNameRequired) else None
    case LastName =>
      if IsBlank(f.lastName) then Some(LastNameRequired) else None
    case Email =>
      if IsBlank(f.email) then Some(EmailRequired)
      else if !HasEmailShape(f.email) then Some(EmailInvalid)
      else None
    case PhoneNumber =>
      if IsBlank(f.phoneNumber) then Some(PhoneRequired) else None
    case Password =>
      if IsBlank(f.password) then Some(PasswordRequired)
      else if !PasswordPatternHolds(Trim(f.password)) then
        Some(WeakPassword)
      else None
    case ConfirmPassword =>
      if IsBlank(f.confirmPassword) then Some(ConfirmRequired)
      else if f.password != f.confirmPassword then Some(PasswordsDiffer)
      else None
    case StreetAddress1 =>
      if IsBlank(f.streetAddress1) then Some(AddressRequired) else None
  }

  /** The fields step `step` checks; step 3 (promo code) and any other value check none. */
  function StepFields(step: int): set<Field> {
    if step == 0 then {FirstName, LastName, Email, PhoneNumber}
    else if step == 1 then {Password, ConfirmPassword}
    else if step == 2 then {StreetAddress1}
    else {}
  }

  /** `errs` with the message for `fld` added, when there is one. */
  function Record(errs: map<Field, Message>, fld: Field, f: Form): map<Field, Message> {
    match FieldError(fld, f)
    case Some(message) => errs[fld := message]
    case None => errs
  }

  /** The error map `validateStep` stores for step `step`, built field by
      field in the order the checks run. */
  function StepErrors(step: int, f: Form): map<Field, Message> {
    if step == 0 then
      Record(Record(Record(Record(map[], FirstName, f), LastName, f), Email, f), PhoneNumber, f)
    else if step == 1 then
      Record(Record(map[], Password, f), ConfirmPassword, f)
    else if step == 2 then
      Record(map[], StreetAddress1, f)
    else
      map[]
  }

  /** The stored map holds one entry for each checked field that fails,
      holding that field's message, and nothing else. */
  lemma StepErrorsAreFieldErrors(step: int, f: Form)
    ensures var errs := StepErrors(step, f);
      && errs.Keys <= StepFields(step)
      && (forall fld :: fld in StepFields(step) ==> (fld in errs <==> FieldError(fld, f).Some?))
      && (forall fld :: fld in errs ==> Some(errs[fld]) == FieldError(fld, f))
  {
  }

  /** What each step demands of the form, condition by condition. */
  predicate StepValid(step: int, f: Form) {
    if step == 0 then
      && !IsBlank(f.firstName) && !IsBlank(f.lastName)
      && !IsBlank(f.email) && HasEmailShape(f.email)
      && !IsBlank(f.phoneNumber)
    else if step == 1 then
      && !IsBlank(f.password) && PasswordPatternHolds(Trim(f.password))
      && !IsBlank(f.confirmPassword) && f.password == f.confirmPassword
    else if step == 2 then
      !IsBlank(f.streetAddress1)
    else
      true
  }

  /** A step is valid exactly when it records no error. */
  lemma ValidIffNoErrors(step: int, f: Form)
    ensures StepValid(step, f) <==> StepErrors(step, f) == map[]
  {
    var errs := StepErrors(step, f);
    StepErrorsAreFieldErrors(step, f);
    if step == 0 {
      if !StepValid(step, f) {
        if IsBlank(f.firstName) { assert FirstName in errs; }
        else if IsBlank(f.lastName) { assert LastName in errs; }
        else if IsBlank(f.email) || !HasEmailShape(f.email) { assert Email in errs; }
        else { assert PhoneNumber in errs; }
      }
    } else if step == 1 {
      if !StepValid(step, f) {
        if IsBlank(f.password) || !PasswordPatternHolds(Trim(f.password)) { assert Password in errs; }
        else { assert ConfirmPassword in errs; }
      }
    } else if step == 2 {
      if !StepValid(step, f) { assert StreetAddress1 in errs; }
    }
  }

  /** The body `handleRegistration` posts to `/api/v1/Auth/register`. */
  datatype RegisterBody = RegisterBody(
    subscriptionType: int,
    email: string,
    firstName: string,
    lastName: string,
    phoneNumber: string,
    password: string,
    confirmPassword: string,
    streetAddress1: string,
    streetAddress2: string,
    city: string,
    state: string,
    zipCode: string,
    promoCode: string)

  /** The request body: subscription type 0 and every field trimmed. */
  function RequestBody(f: Form): (b: RegisterBody)
    ensures b.subscriptionType == 0
    ensures IsTrimmed(b.email) && IsTrimmed(b.firstName) && IsTrimmed(b.lastName)
    ensures IsTrimmed(b.phoneNumber) && IsTrimmed(b.password) && IsTrimmed(b.confirmPassword)
    ensures IsTrimmed(b.streetAddress1) && IsTrimmed(b.streetAddress2) && IsTrimmed(b.city)
    ensures IsTrimmed(b.state) && IsTrimmed(b.zipCode) && IsTrimmed(b.promoCode)
    ensures b.email == Trim(f.email) && b.firstName == Trim(f.firstName) && b.lastName == Trim(f.lastName)
    ensures b.phoneNumber == Trim(f.phoneNumber) && b.password == Trim(f.password)
    ensures b.confirmPassword == Trim(f.confirmPassword) && b.streetAddress1 == Trim(f.streetAddress1)
    ensures b.streetAddress2 == Trim(f.streetAddress2) && b.city == Trim(f.city)
    ensures b.state == Trim(f.state) && b.zipCode == Trim(f.zip) && b.promoCode == Trim(f.promoCode)
  {
    RegisterBody(0, Trim(f.email), Trim(f.firstName), Trim(f.lastName), Trim(f.phoneNumber),
      Trim(f.password), Trim(f.confirmPassword), Trim(f.streetAddress1), Trim(f.streetAddress2),
      Trim(f.city), Trim(f.state), Trim(f.zip), Trim(f.promoCode))
  }

  /** After a valid password step the body carries a password that passes
      the password rule, and the same value as its confirmation. */
  lemma PasswordStepFixesSentPasswords(f: Form)
    requires StepValid(1, f)
    ensures PasswordPatternHolds(RequestBody(f).password)
    ensures RequestBody(f).confirmPassword == RequestBody(f).password
  {
  }

  /** The checks of step 0 (personal details), in the order the screen runs them. */
  method PersonalErrors(f: Form) returns (errs: map<Field, Message>)
    ensures errs == StepErrors(0, f)
  {
    errs := map[];
    if IsBlank(f.firstName) {
      errs := errs[FirstName := FirstNameRequired];
    }
    if IsBlank(f.lastName) {
      errs := errs[LastName := LastNameRequired];
    }
    if IsBlank(f.email) {
      errs := errs[Email := EmailRequired];
    } else if !HasEmailShape(f.email) {
      errs := errs[Email := EmailInvalid];
    }
    if IsBlank(f.phoneNumber) {
      errs := errs[PhoneNumber := PhoneRequired];
    }
  }

  /** The password check: required, then the password rule applied to the
      trimmed password. */
  method CheckPassword(errs: map<Field, Message>, f: Form) returns (r: map<Field, Message>)
    ensures r == Record(errs, Password, f)
  {
    r := errs;
    if IsBlank(f.password) {
      r := r[Password := PasswordRequired];
    } else if !PasswordPatternHolds(Trim(f.password)) {
      r := r[Password := WeakPassword];
    }
  }

  /** The confirmation check: required, then equal to the untrimmed password. */
  method CheckConfirmation(errs: map<Field, Message>, f: Form) returns (r: map<Field, Message>)
    ensures r == Record(errs, ConfirmPassword, f)
  {
    r := errs;
    if IsBlank(f.confirmPassword) {
      r := r[ConfirmPassword := ConfirmRequired];
    } else if f.password != f.confirmPassword {
      r := r[ConfirmPassword := PasswordsDiffer];
    }
  }

  /** The checks of step 1 (password). */
  method PasswordErrors(f: Form) returns (errs: map<Field, Message>)
    ensures errs == StepErrors(1, f)
  {
    errs := CheckPassword(map[], f);
    errs := CheckConfirmation(errs, f);
  }

  /** The check of step 2 (shipping address). */
  method AddressErrors(f: Form) returns (errs: map<Field, Message>)
    ensures errs == StepErrors(2, f)
  {
    errs := map[];
    if IsBlank(f.streetAddress1) {
      errs := errs[StreetAddress1 := AddressRequired];
    }
  }

  class Wizard {
    var form: Form
    var currentStep: int
    var errors: map<Field, Message>

    /** The wizard has four steps, numbered 0 to 3. */
    ghost predicate Valid()
      reads this
    {
      0 <= currentStep <= 3
    }

    constructor ()
      ensures Valid()
      ensures form == EmptyForm && currentStep == 0 && errors == map[]
    {
      form := EmptyForm;
      currentStep := 0;
      errors := map[];
    }

    /** The text inputs' setters. */
    method Edit(f: Form)
      modifies this`form
      ensures form == f
    {
      form := f;
    }

    /** `validateStep`: records one message per invalid field of the current
        step and reports whether there were none. */
    method ValidateStep() returns (valid: bool)
      modifies this`errors
      ensures errors == StepErrors(currentStep, form)
      ensures valid == StepValid(currentStep, form)
      ensures valid <==> errors == map[]
    {
      var newErrors: map<Field, Message>;
      if currentStep == 0 {
        newErrors := PersonalErrors(form);
      } else if currentStep == 1 {
        newErrors := PasswordErrors(form);
      } else if currentStep == 2 {
        newErrors := AddressErrors(form);
      } else {
        newErrors := map[];
      }
      errors := newErrors;
      valid := newErrors == map[];
      ValidIffNoErrors(currentStep, form);
    }

    /** `nextStep`: advances by one only when the current step validates and
        is not the last. */
    method NextStep()
      requires Valid()
      modifies this`errors, this`currentStep
      ensures Valid()
      ensures currentStep ==
        if StepValid(old(currentStep), form) && old(currentStep) < 3 then old(currentStep) + 1
        else old(currentStep)
      ensures errors == StepErrors(old(currentStep), form)
    {
      var valid := ValidateStep();
      if valid {
        if currentStep < 3 {
          currentStep := currentStep + 1;
        }
      }
    }

    /** `prevStep`: goes back by one unless already on the first step. */
    method PrevStep()
      requires Valid()
      modifies this`currentStep
      ensures Valid()
      ensures currentStep == if old(currentStep) > 0 then old(currentStep) - 1 else old(currentStep)
    {
      if currentStep > 0 {
        currentStep := currentStep - 1;
      }
    }

    /** `handleRegistration`: sends nothing when the current step does not
        validate, otherwise the trimmed request body. */
    method HandleRegistration() returns (sent: Option<RegisterBody>)
      modifies this`errors
      ensures errors == StepErrors(currentStep, form)
      ensures sent.Some? <==> StepValid(currentStep, form)
      ensures sent.Some? ==> sent.value == RequestBody(form)
    {
      var valid := ValidateStep();
      if !valid {
        return None;
      }
      sent := Some(RequestBody(form));
    }
  }
}
