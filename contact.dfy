/**
 * The contact page: per-field validation, the e-mail pattern, and the
 * submit / edit state machine over the form, its errors and two flags.
 */
module Contact {
  import opened Wrappers
  import opened Text
  import opened Types

  const NameRequired := "Name is required"
  const EmailRequired := "Email is required"
  const SubjectRequired := "Subject is required"
  const MessageRequired := "Message is required"
  const InvalidEmail := "Please enter a valid email address"

  function RequiredMessage(f: Field): string {
    match f
    case Name => NameRequired
    case Email => EmailRequired
    case Subject => SubjectRequired
    case Message => MessageRequired
  }

  /** `!value.trim()`: the value is missing. */
  predicate IsBlank(s: string) {
    Trim(s) == ""
  }

  /** A character of the class `[^\s@]`. */
  predicate IsAddressChar(c: char) {
    !IsWhitespace(c) && c != '@'
  }

  /** Every character of `s[lo..hi]` is in `[^\s@]`. */
  predicate AddressCharsIn(s: string, lo: nat, hi: nat)
    requires lo <= hi <= |s|
  {
    forall i :: lo <= i < hi ==> IsAddressChar(s[i])
  }

  /**
   * `s` splits as three non-empty runs of `[^\s@]` with the `@` at `at` and
   * the `.` at `dot`.
   */
  ghost predicate EmailSplit(s: string, at: int, dot: int) {
    && 0 < at && at + 1 < dot && dot + 1 < |s|
    && s[at] == '@' && s[dot] == '.'
    && AddressCharsIn(s, 0, at) && AddressCharsIn(s, at + 1, dot) && AddressCharsIn(s, dot + 1, |s|)
  }

  /** The language of `^[^\s@]+@[^\s@]+\.[^\s@]+$`. */
  ghost predicate MatchesEmailPattern(s: string) {
    exists at, dot :: EmailSplit(s, at, dot)
  }

  /** The position of the first `c` in `s`, if any. */
  function IndexOf(s: string, c: char): Option<nat> {
    if s == [] then None
    else if s[0] == c then Some(0)
    else match IndexOf(s[1..], c)
      case None => None
      case Some(k) => Some(k + 1)
  }

  /** `IndexOf` finds the first occurrence, or reports that there is none. */
  lemma {:induction false} IndexOfFirst(s: string, c: char)
    ensures IndexOf(s, c).None? ==> forall i :: 0 <= i < |s| ==> s[i] != c
    ensures IndexOf(s, c).Some? ==>
              && IndexOf(s, c).value < |s| && s[IndexOf(s, c).value] == c
              && forall i :: 0 <= i < IndexOf(s, c).value ==> s[i] != c
  {
    if s != [] && s[0] != c {
      IndexOfFirst(s[1..], c);
    }
  }

  /**
   * The e-mail check, computed by locating the first `@`: a non-empty run
   * before it, and after it no `@` or whitespace and a `.` that is neither
   * the first nor the last character.
   */
  predicate IsValidEmail(s: string) {
    match IndexOf(s, '@')
    case None => false
    case Some(at) =>
      && 0 < at && at + 3 < |s|
      && AddressCharsIn(s, 0, at) && AddressCharsIn(s, at + 1, |s|)
      && '.' in s[at + 2..|s| - 1]
  }

  /** The computed check accepts exactly the language of the regular expression. */
  lemma ValidEmailIffPattern(s: string)
    ensures IsValidEmail(s) <==> MatchesEmailPattern(s)
  {
    IndexOfFirst(s, '@');
    if IsValidEmail(s) {
      var at := IndexOf(s, '@').value;
      var i :| 0 <= i < |s| - at - 3 && s[at + 2..|s| - 1][i] == '.';
      assert EmailSplit(s, at, at + 2 + i);
    }
    if MatchesEmailPattern(s) {
      var at, dot :| EmailSplit(s, at, dot);
      assert IndexOf(s, '@') == Some(at);
      assert s[at + 2..|s| - 1][dot - at - 2] == '.';
    }
  }

  /**
   * The message left on field `f` by `validateForm`: the format message on a
   * non-empty e-mail that fails the pattern (it is written last, so it wins over
   * "required"), else the "required" message on a blank value, else none.
   */
  function FieldError(form: ContactForm, f: Field): Option<string> {
    if f == Email && form.email != "" && !IsValidEmail(form.email) then Some(InvalidEmail)
    else if IsBlank(form.Get(f)) then Some(RequiredMessage(f))
    else None
  }

  /** The error record `validateForm` builds for `form`. */
  function Validation(form: ContactForm): map<Field, string> {
    map f | f in AllFields && FieldError(form, f).Some? :: FieldError(form, f).value
  }

  /** Reads the error record back field by field. */
  lemma ValidationAt(form: ContactForm, f: Field)
    ensures f in Validation(form) <==> FieldError(form, f).Some?
    ensures f in Validation(form) ==> Validation(form)[f] == FieldError(form, f).value
  {
  }

  /** Two error records that agree field by field are equal. */
  lemma ErrorsExt(a: map<Field, string>, b: map<Field, string>)
    requires AgreeOn(a, b, Name) && AgreeOn(a, b, Email) && AgreeOn(a, b, Subject) && AgreeOn(a, b, Message)
    ensures a == b
  {
    forall f ensures (f in a <==> f in b) && (f in a ==> a[f] == b[f]) {
      assert AgreeOn(a, b, f) by {
        match f
        case Name =>
        case Email =>
        case Subject =>
        case Message =>
      }
    }
  }

  ghost predicate AgreeOn(a: map<Field, string>, b: map<Field, string>, f: Field) {
    (f in a <==> f in b) && (f in a ==> a[f] == b[f])
  }

  /** The initial (and post-submission) empty form yields exactly the four "required" errors. */
  lemma EmptyFormHasFourErrors()
    ensures Validation(EmptyForm).Keys == AllFields && |Validation(EmptyForm)| == 4
    ensures forall f :: f in Validation(EmptyForm) ==> Validation(EmptyForm)[f] == RequiredMessage(f)
  {
    forall f ensures f in Validation(EmptyForm) && Validation(EmptyForm)[f] == RequiredMessage(f) {
      assert EmptyForm.Get(f) == "" && IsBlank("");
      assert FieldError(EmptyForm, f) == Some(RequiredMessage(f));
      ValidationAt(EmptyForm, f);
    }
    forall f ensures f in AllFields {
      match f
      case Name =>
      case Email =>
      case Subject =>
      case Message =>
    }
    assert |AllFields| == 4;
  }

  /**
   * For the name, subject and message fields: the field has an error exactly
   * when its value is empty or whitespace only, and the error is "required".
   */
  lemma RequiredIffWhitespaceOnly(form: ContactForm, f: Field)
    requires f != Email
    ensures f in Validation(form) <==> AllWhitespace(form.Get(f))
    ensures f in Validation(form) ==> Validation(form)[f] == RequiredMessage(f)
  {
    TrimEmptyIffAllWhitespace(form.Get(f));
    assert FieldError(form, f) == if AllWhitespace(form.Get(f)) then Some(RequiredMessage(f)) else None;
    ValidationAt(form, f);
  }

  /**
   * The e-mail field, against the regular expression: the empty value is
   * "required", any other value outside the pattern gets the format message,
   * and a value in the pattern gets no error.
   */
  lemma EmailErrorCases(form: ContactForm)
    ensures form.email == "" ==>
              Email in Validation(form) && Validation(form)[Email] == EmailRequired
    ensures form.email != "" && !MatchesEmailPattern(form.email) ==>
              Email in Validation(form) && Validation(form)[Email] == InvalidEmail
    ensures MatchesEmailPattern(form.email) ==> Email !in Validation(form)
  {
    ValidationAt(form, Email);
    if MatchesEmailPattern(form.email) {
      ValidEmailIffPattern(form.email);
      PatternIsNotBlank(form.email);
      assert IsValidEmail(form.email) && !IsBlank(form.email);
    } else if form.email != "" {
      ValidEmailIffPattern(form.email);
      assert !IsValidEmail(form.email);
    }
  }

  /** A value in the e-mail pattern has a non-whitespace character, so it is never blank. */
  lemma PatternIsNotBlank(s: string)
    requires MatchesEmailPattern(s)
    ensures !IsBlank(s)
  {
    var at, dot :| EmailSplit(s, at, dot);
    assert IsAddressChar(s[0]);
    TrimEmptyIffAllWhitespace(s);
  }

  /** A non-empty, whitespace-only e-mail ends with the format message, not "required". */
  lemma BlankEmailGetsFormatMessage(form: ContactForm)
    requires form.email != "" && AllWhitespace(form.email)
    ensures Email in Validation(form) && Validation(form)[Email] == InvalidEmail
  {
    if MatchesEmailPattern(form.email) {
      PatternIsNotBlank(form.email);
      TrimEmptyIffAllWhitespace(form.email);
    }
    EmailErrorCases(form);
  }

  /** With the other three fields filled in, `abc` as the e-mail leaves exactly one error, on the e-mail. */
  lemma MalformedEmailIsTheOnlyError(form: ContactForm)
    requires form.email == "abc"
    requires !AllWhitespace(form.name) && !AllWhitespace(form.subject) && !AllWhitespace(form.message)
    ensures Validation(form).Keys == {Email} && Validation(form)[Email] == InvalidEmail
  {
    RequiredIffWhitespaceOnly(form, Name);
    RequiredIffWhitespaceOnly(form, Subject);
    RequiredIffWhitespaceOnly(form, Message);
    assert Email in Validation(form) && Validation(form)[Email] == InvalidEmail by {
      IndexOfFirst(form.email, '@');
      ValidationAt(form, Email);
    }
    OnlyKey(Validation(form), Email);
  }

  /** A record with an entry for `f` and for no other field has exactly the key `f`. */
  lemma OnlyKey(errs: map<Field, string>, f: Field)
    requires f in errs
    requires forall g :: g != f ==> g !in errs
    ensures errs.Keys == {f}
  {
  }

  /** The component's state: the form, the error record and the two submission flags. */
  class ContactPage {
    var form: ContactForm
    var errors: map<Field, string>
    var isSubmitting: bool
    var isSubmitted: bool

    constructor ()
      ensures form == EmptyForm && errors == map[]
      ensures !isSubmitting && !isSubmitted
    {
      form := EmptyForm;
      errors := map[];
      isSubmitting := false;
      isSubmitted := false;
    }

    /** The submit button is disabled exactly while a submission is in flight. */
    predicate SubmitDisabled()
      reads this
    {
      isSubmitting
    }

    /**
     * `validateForm`: builds the error record field by field, stores it, and
     * reports whether it is empty.
     */
    method ValidateForm() returns (ok: bool)
      modifies this`errors
      ensures errors == Validation(form)
      ensures ok <==> errors == map[]
    {
      var newErrors: map<Field, string> := map[];
      if IsBlank(form.name) { newErrors := newErrors[Name := NameRequired]; }
      if IsBlank(form.email) { newErrors := newErrors[Email := EmailRequired]; }
      if IsBlank(form.subject) { newErrors := newErrors[Subject := SubjectRequired]; }
      if IsBlank(form.message) { newErrors := newErrors[Message := MessageRequired]; }
      if form.email != "" && !IsValidEmail(form.email) {
        newErrors := newErrors[Email := InvalidEmail];
      }
      ValidationAt(form, Name);
      ValidationAt(form, Email);
      ValidationAt(form, Subject);
      ValidationAt(form, Message);
      ErrorsExt(newErrors, Validation(form));
      errors := newErrors;
      ok := |newErrors| == 0;
    }

    /**
     * `handleSubmit` up to the simulated delay: an invalid form leaves the
     * form and both flags as they were; a valid one starts the submission.
     */
    method BeginSubmit() returns (accepted: bool)
      modifies this
      ensures accepted <==> Validation(old(form)) == map[]
      ensures errors == Validation(old(form))
      ensures form == old(form) && isSubmitted == old(isSubmitted)
      ensures isSubmitting == (accepted || old(isSubmitting))
    {
      accepted := ValidateForm();
      if !accepted {
        return;
      }
      isSubmitting := true;
    }

    /**
     * `handleSubmit` after the delay: the submission is over, the success
     * notice shows, and all four fields are cleared.
     */
    method CompleteSubmit()
      modifies this
      ensures !isSubmitting && isSubmitted
      ensures form == EmptyForm && errors == old(errors)
    {
      isSubmitting := false;
      isSubmitted := true;
      form := EmptyForm;
    }

    /** The timer that hides the success notice. */
    method ResetSuccess()
      modifies this`isSubmitted
      ensures !isSubmitted
    {
      isSubmitted := false;
    }

    /**
     * A press of the submit button: while it is disabled nothing happens,
     * otherwise the form's submit handler starts.
     */
    method PressSubmit() returns (accepted: bool)
      modifies this
      ensures old(SubmitDisabled()) ==>
                && !accepted && form == old(form) && errors == old(errors)
                && isSubmitting == old(isSubmitting) && isSubmitted == old(isSubmitted)
      ensures !old(SubmitDisabled()) ==>
                && (accepted <==> Validation(old(form)) == map[])
                && errors == Validation(old(form))
                && form == old(form) && isSubmitted == old(isSubmitted)
                && isSubmitting == accepted
    {
      if SubmitDisabled() {
        return false;
      }
      accepted := BeginSubmit();
    }

    /** `handleInputChange`: the edited field takes the new value and only its error is cleared. */
    method HandleInputChange(f: Field, value: string)
      modifies this`form, this`errors
      ensures form == old(form).With(f, value)
      ensures errors == old(errors) - {f}
      ensures forall g :: g != f ==> form.Get(g) == old(form.Get(g))
      ensures forall g :: g != f && g in old(errors) ==> g in errors && errors[g] == old(errors)[g]
    {
      form := form.With(f, value);
      if f in errors {
        errors := errors - {f};
      }
    }
  }

  /**
   * A valid submission followed by its completion clears all four fields and
   * turns off the in-flight flag.
   */
  method SubmitAndComplete(page: ContactPage) returns (accepted: bool)
    modifies page
    ensures accepted <==> Validation(old(page.form)) == map[]
    ensures accepted ==> page.form == EmptyForm && !page.isSubmitting && page.isSubmitted
    ensures !accepted ==> page.form == old(page.form) && page.isSubmitting == old(page.isSubmitting)
                          && page.isSubmitted == old(page.isSubmitted)
  {
    accepted := page.BeginSubmit();
    if accepted {
      page.CompleteSubmit();
    }
  }
}
