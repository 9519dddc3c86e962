/**
 * The registration form: a four-field record updated one field at a time,
 * three flags, the password-confirmation check on submit and the rule that
 * disables the submit button.
 */
module RegisterPage {
  import opened Wrappers

  datatype Field = Name | Email | Password | ConfirmPassword

  datatype FormData = FormData(name: string, email: string, password: string, confirmPassword: string)

  function EmptyForm(): FormData {
    FormData("", "", "", "")
  }

  function Get(f: FormData, field: Field): string {
    match field
    case Name => f.name
    case Email => f.email
    case Password => f.password
    case ConfirmPassword => f.confirmPassword
  }

  /** The record with one field replaced: the named field holds the value, every other field is kept. */
  function WithField(f: FormData, field: Field, value: string): (r: FormData)
    ensures Get(r, field) == value
    ensures forall other :: other != field ==> Get(r, other) == Get(f, other)
  {
    match field
    case Name => f.(name := value)
    case Email => f.(email := value)
    case Password => f.(password := value)
    case ConfirmPassword => f.(confirmPassword := value)
  }

  /** Two records that agree on every field are the same record. */
  lemma FieldsDetermineForm(a: FormData, b: FormData)
    requires forall field :: Get(a, field) == Get(b, field)
    ensures a == b
  {
    assert Get(a, Name) == Get(b, Name) && Get(a, Email) == Get(b, Email);
    assert Get(a, Password) == Get(b, Password) && Get(a, ConfirmPassword) == Get(b, ConfirmPassword);
  }

  /** Edits of different fields commute, the later edit of one field wins, and rewriting a field's own value changes nothing. */
  lemma WithFieldLaws(f: FormData, x: Field, y: Field, u: string, v: string)
    ensures x != y ==> WithField(WithField(f, x, u), y, v) == WithField(WithField(f, y, v), x, u)
    ensures WithField(WithField(f, x, u), x, v) == WithField(f, x, v)
    ensures WithField(f, x, Get(f, x)) == f
  {
    if x != y {
      FieldsDetermineForm(WithField(WithField(f, x, u), y, v), WithField(WithField(f, y, v), x, u));
    }
    FieldsDetermineForm(WithField(WithField(f, x, u), x, v), WithField(f, x, v));
    FieldsDetermineForm(WithField(f, x, Get(f, x)), f);
  }

  /** What a submit leads to: the mismatch alert, or the registration of the record as it stands. */
  datatype Outcome = PasswordsDiffer | Registered(data: FormData)

  function MismatchMessage(): string {
    "Пароли не совпадают"
  }

  /** The alert a submit raises: the mismatch message exactly when the submit does not register. */
  function Alert(f: FormData): (message: Option<string>)
    ensures message.Some? <==> RegisterOutcome(f) == PasswordsDiffer
    ensures message.Some? ==> message.value == MismatchMessage()
  {
    if f.password != f.confirmPassword then Some(MismatchMessage()) else None
  }

  /** Only the confirmation is checked: neither the terms flag nor the length hint is enforced. */
  lemma SubmitChecksOnlyConfirmation()
    ensures RegisterOutcome(FormData("", "", "1", "1")) == Registered(FormData("", "", "1", "1"))
    ensures RegisterOutcome(FormData("a", "b", "12345678", "12345679")) == PasswordsDiffer
  {
  }

  /** The outcome the handler reaches, as a function of the record. */
  function RegisterOutcome(f: FormData): (o: Outcome)
    ensures o == PasswordsDiffer <==> f.password != f.confirmPassword
    ensures o.Registered? ==> o.data == f
  {
    if f.password != f.confirmPassword then PasswordsDiffer else Registered(f)
  }

  /** How a password box shows its text: in clear exactly while its eye button is on. */
  function InputType(shown: bool): (t: string)
    ensures t == "text" <==> shown
    ensures t == "password" <==> !shown
  {
    if shown then "text" else "password"
  }

  /** The page's state. */
  class RegisterForm {
    var formData: FormData
    var showPassword: bool
    var showConfirmPassword: bool
    var acceptTerms: bool

    constructor ()
      ensures formData == EmptyForm()
      ensures !showPassword && !showConfirmPassword && !acceptTerms
    {
      formData := EmptyForm();
      showPassword := false;
      showConfirmPassword := false;
      acceptTerms := false;
    }

    /** `handleInputChange`: only the named field changes, and none of the flags. */
    method HandleInputChange(field: Field, value: string)
      modifies this
      ensures formData == WithField(old(formData), field, value)
      ensures showPassword == old(showPassword) && showConfirmPassword == old(showConfirmPassword)
      ensures acceptTerms == old(acceptTerms)
    {
      match field
      case Name => formData := formData.(name := value);
      case Email => formData := formData.(email := value);
      case Password => formData := formData.(password := value);
      case ConfirmPassword => formData := formData.(confirmPassword := value);
    }

    /** `handleSubmit`: returns early with the alert on a mismatch, otherwise registers the record; nothing changes. */
    method HandleSubmit() returns (outcome: Outcome)
      ensures outcome == PasswordsDiffer <==> formData.password != formData.confirmPassword
      ensures outcome.Registered? ==> outcome.data == formData
      ensures outcome == RegisterOutcome(formData)
    {
      if formData.password != formData.confirmPassword {
        return PasswordsDiffer;
      }
      outcome := Registered(formData);
    }

    /** The eye button of the password box. */
    method ToggleShowPassword()
      modifies this
      ensures showPassword == !old(showPassword)
      ensures InputType(showPassword) != InputType(old(showPassword))
      ensures formData == old(formData) && showConfirmPassword == old(showConfirmPassword) && acceptTerms == old(acceptTerms)
    {
      showPassword := !showPassword;
    }

    /** The eye button of the confirmation box; independent of the other one. */
    method ToggleShowConfirmPassword()
      modifies this
      ensures showConfirmPassword == !old(showConfirmPassword)
      ensures InputType(showConfirmPassword) != InputType(old(showConfirmPassword))
      ensures formData == old(formData) && showPassword == old(showPassword) && acceptTerms == old(acceptTerms)
    {
      showConfirmPassword := !showConfirmPassword;
    }

    /** The terms checkbox stores its checked state. */
    method SetAcceptTerms(checked: bool)
      modifies this
      ensures acceptTerms == checked
      ensures formData == old(formData) && showPassword == old(showPassword) && showConfirmPassword == old(showConfirmPassword)
    {
      acceptTerms := checked;
    }

    /** The submit button is disabled exactly while the terms are not accepted. */
    predicate SubmitDisabled()
      reads this
    {
      !acceptTerms
    }
  }
}
