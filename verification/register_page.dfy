/** The registration form's submit handler: six checks in a fixed order,
    the first failure reported, the provider's `register` called only when
    all pass. */
module RegisterPage {
  import opened Wrappers
  import Text

  datatype Form = Form(
    customerName: string,
    email: string,
    password: string,
    confirmPassword: string,
    contactNumber: string,
    address: string)

  /** The checks, in the order the handler runs them. */
  datatype FormError = NameMissing | EmailMissing | PasswordMissing | PasswordMismatch | PhoneMissing | AddressMissing

  /** The payload handed to `register`: untrimmed, without the confirmation. */
  datatype Request = Request(customerName: string, email: string, password: string, contactNumber: string, address: string)

  /** What the provider's `register` did: resolved with a boolean, or threw. */
  datatype RegisterCall = Returned(success: bool) | Threw

  datatype Outcome = Outcome(error: string, request: Option<Request>, navigateTo: Option<string>)

  const RegistrationFailed := "An error occurred during registration. Please try again."

  function Message(e: FormError): string
  {
    match e
    case NameMissing => "Please enter your name"
    case EmailMissing => "Please enter your email"
    case PasswordMissing => "Please enter a password"
    case PasswordMismatch => "Passwords do not match"
    case PhoneMissing => "Please enter your phone number"
    case AddressMissing => "Please enter your address"
  }

  /** Position of a check in the handler. */
  function Rank(e: FormError): nat
  {
    match e
    case NameMissing => 0
    case EmailMissing => 1
    case PasswordMissing => 2
    case PasswordMismatch => 3
    case PhoneMissing => 4
    case AddressMissing => 5
  }

  /** The condition under which check `e` rejects the form on its own. */
  predicate Fails(f: Form, e: FormError)
  {
    match e
    case NameMissing => Text.IsBlank(f.customerName)
    case EmailMissing => Text.IsBlank(f.email)
    case PasswordMissing => Text.IsBlank(f.password)
    case PasswordMismatch => f.password != f.confirmPassword
    case PhoneMissing => Text.IsBlank(f.contactNumber)
    case AddressMissing => Text.IsBlank(f.address)
  }

  /** The checks, taken together, pass exactly when no single check fails. */
  predicate AllPass(f: Form)
  {
    && !Text.IsBlank(f.customerName) && !Text.IsBlank(f.email) && !Text.IsBlank(f.password)
    && f.password == f.confirmPassword
    && !Text.IsBlank(f.contactNumber) && !Text.IsBlank(f.address)
  }

  lemma AllPassIffNoFailure(f: Form)
    ensures AllPass(f) <==> forall e :: !Fails(f, e)
  {
    if !AllPass(f) {
      if Text.IsBlank(f.customerName) { assert Fails(f, NameMissing); }
      else if Text.IsBlank(f.email) { assert Fails(f, EmailMissing); }
      else if Text.IsBlank(f.password) { assert Fails(f, PasswordMissing); }
      else if f.password != f.confirmPassword { assert Fails(f, PasswordMismatch); }
      else if Text.IsBlank(f.contactNumber) { assert Fails(f, PhoneMissing); }
      else { assert Fails(f, AddressMissing); }
    }
  }

  /** The validation chain: the first failing check, or none. */
  function Validate(f: Form): (r: Option<FormError>)
    ensures r.Some? ==> Fails(f, r.value)
    ensures r.None? <==> forall e :: !Fails(f, e)
  {
    AllPassIffNoFailure(f);
    if Text.IsBlank(f.customerName) then Some(NameMissing)
    else if Text.IsBlank(f.email) then Some(EmailMissing)
    else if Text.IsBlank(f.password) then Some(PasswordMissing)
    else if f.password != f.confirmPassword then Some(PasswordMismatch)
    else if Text.IsBlank(f.contactNumber) then Some(PhoneMissing)
    else if Text.IsBlank(f.address) then Some(AddressMissing)
    else None
  }

  /** Only the first failing check is reported: every earlier check passes. */
  lemma ValidateReportsFirstFailure(f: Form)
    requires Validate(f).Some?
    ensures forall e :: Rank(e) < Rank(Validate(f).value) ==> !Fails(f, e)
  {
    var r := Validate(f).value;
    forall e | Rank(e) < Rank(r) ensures !Fails(f, e) {
      match e
      case NameMissing =>
      case EmailMissing =>
      case PasswordMissing =>
      case PasswordMismatch =>
      case PhoneMissing =>
      case AddressMissing =>
    }
  }

  /** `handleSubmit`; navigation to "/" only when `register` reports success. */
  function HandleSubmit(f: Form, call: RegisterCall): (r: Outcome)
    ensures r.request.Some? <==> Validate(f).None?
    ensures r.request.Some? ==>
      r.request.value == Request(f.customerName, f.email, f.password, f.contactNumber, f.address)
    ensures Validate(f).Some? ==> r == Outcome(Message(Validate(f).value), None, None)
    ensures r.navigateTo.Some? <==> Validate(f).None? && call == Returned(true)
    ensures r.navigateTo.Some? ==> r.navigateTo.value == "/" && r.error == ""
    ensures Validate(f).None? && call.Threw? ==> r.error == RegistrationFailed
  {
    match Validate(f)
    case Some(e) => Outcome(Message(e), None, None)
    case None =>
      var req := Request(f.customerName, f.email, f.password, f.contactNumber, f.address);
      match call
      case Returned(ok) => Outcome("", Some(req), if ok then Some("/") else None)
      case Threw => Outcome(RegistrationFailed, Some(req), None)
  }

  /** Distinct checks report distinct messages. */
  lemma MessagesDistinct(a: FormError, b: FormError)
    requires a != b
    ensures Message(a) != Message(b)
  {
  }

  /** A whitespace-only name is reported first, whatever else the form holds. */
  lemma WhitespaceNameReportedFirst(f: Form)
    requires Text.AllWhitespace(f.customerName)
    ensures Validate(f) == Some(NameMissing)
  {
    Text.BlankIffAllWhitespace(f.customerName);
  }

  /** The confirmation is compared exactly, untrimmed: a trailing space is a mismatch. */
  lemma ConfirmationComparedExactly(f: Form)
    requires !Text.IsBlank(f.customerName) && !Text.IsBlank(f.email) && !Text.IsBlank(f.password)
    requires f.password == f.confirmPassword + " "
    ensures Validate(f) == Some(PasswordMismatch)
  {
    assert |f.password| != |f.confirmPassword|;
  }

  /** A mismatch is only reported once name, email and password are filled in. */
  lemma MismatchNeedsPassword(f: Form)
    requires Validate(f) == Some(PasswordMismatch)
    ensures !Text.IsBlank(f.customerName) && !Text.IsBlank(f.email) && !Text.IsBlank(f.password)
    ensures f.password != f.confirmPassword
  {
    ValidateReportsFirstFailure(f);
    assert Rank(NameMissing) < Rank(PasswordMismatch);
    assert Rank(EmailMissing) < Rank(PasswordMismatch);
    assert Rank(PasswordMissing) < Rank(PasswordMismatch);
  }
}
