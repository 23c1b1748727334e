/** The registration form: the ordered checks before signing up, the sign-up call (always as a
    voter) and the per-field form update. The sign-up service's answer is an input. */
module Register {
  import opened JsPrims

  datatype Field = FirstName | LastName | Email | VoterId | Password | ConfirmPassword

  datatype RegisterForm = RegisterForm(
    first_name: string, last_name: string, email: string, voter_id: string,
    password: string, confirmPassword: string)

  function Get(f: RegisterForm, field: Field): string {
    match field
    case FirstName => f.first_name
    case LastName => f.last_name
    case Email => f.email
    case VoterId => f.voter_id
    case Password => f.password
    case ConfirmPassword => f.confirmPassword
  }

  /** `{ ...prev, [field]: value }`. */
  function WithField(f: RegisterForm, field: Field, value: string): (r: RegisterForm)
    ensures Get(r, field) == value
  {
    match field
    case FirstName => f.(first_name := value)
    case LastName => f.(last_name := value)
    case Email => f.(email := value)
    case VoterId => f.(voter_id := value)
    case Password => f.(password := value)
    case ConfirmPassword => f.(confirmPassword := value)
  }

  /** Setting a field changes that field and no other. */
  lemma {:induction false} WithFieldOnly(f: RegisterForm, field: Field, value: string, other: Field)
    ensures Get(WithField(f, field, value), other) == if other == field then value else Get(f, other)
  {
    match field
    case FirstName =>
    case LastName =>
    case Email =>
    case VoterId =>
    case Password =>
    case ConfirmPassword =>
  }

  const AllRequired := "All fields are required."
  const Mismatch := "Passwords do not match."

  /** The check before signing up: None lets the sign-up through. The required-field check comes
      first, so a form with an empty field never reports a mismatch. */
  function Validate(f: RegisterForm): (r: Option<string>)
    ensures r == Some(AllRequired) <==>
      exists field :: field in [FirstName, LastName, VoterId, Email, Password] && Get(f, field) == ""
    ensures r == Some(Mismatch) <==>
      f.first_name != "" && f.last_name != "" && f.voter_id != "" && f.email != "" && f.password != "" &&
      f.password != f.confirmPassword
    ensures r.None? ==> f.password == f.confirmPassword != ""
  {
    if f.first_name == "" || f.last_name == "" || f.voter_id == "" || f.email == "" || f.password == "" then
      var w := if f.first_name == "" then FirstName else if f.last_name == "" then LastName
               else if f.voter_id == "" then VoterId else if f.email == "" then Email else Password;
      assert w in [FirstName, LastName, VoterId, Email, Password] && Get(f, w) == "";
      Some(AllRequired)
    else if f.password != f.confirmPassword then Some(Mismatch)
    else None
  }

  /** The sign-up request: credentials plus metadata with the role fixed to "voter". */
  datatype SignUpCall = SignUpCall(email: string, password: string, first_name: string, last_name: string,
                                   voterId: string, role: string)

  function SignUpOf(f: RegisterForm): (c: SignUpCall)
    ensures c.role == "voter" && c.email == f.email && c.password == f.password && c.voterId == f.voter_id
    ensures c.first_name == f.first_name && c.last_name == f.last_name
  {
    SignUpCall(f.email, f.password, f.first_name, f.last_name, f.voter_id, "voter")
  }

  /** How the awaited `signUp` call ends: it resolves without an error, resolves with an error
      whose message may be missing, or throws (nothing catches it in the handler). */
  datatype SignUpOutcome = SignedUp | Failed(message: Option<string>) | Threw

  class RegisterPage {
    var form: RegisterForm
    var loading: bool
    var error: string
    var success: bool

    constructor ()
      ensures form == RegisterForm("", "", "", "", "", "") && !loading && error == "" && !success
    {
      form := RegisterForm("", "", "", "", "", "");
      loading, error, success := false, "", false;
    }

    method HandleInputChange(field: Field, value: string)
      modifies this`form
      ensures form == WithField(old(form), field, value)
    {
      form := WithField(form, field, value);
    }

    /** `handleSubmit`. `outcome` is how the sign-up call ends. Returns the sign-up request, if
        one was made. A throwing call leaves the handler after `setLoading(true)`, since there is
        no `try`/`finally`: the page keeps loading with no message. */
    method HandleSubmit(outcome: SignUpOutcome) returns (call: Option<SignUpCall>)
      modifies this`loading, this`error, this`success
      ensures var v := Validate(form);
        && (v.Some? ==> call.None? && error == v.value && success == old(success) && loading == old(loading))
        && (v.None? ==> call == Some(SignUpOf(form)))
        && (v.None? && outcome.SignedUp? ==> success && error == "" && !loading)
        && (v.None? && outcome.Failed? ==>
              && success == old(success) && !loading
              && error == OrElse(outcome.message, "An error occurred during registration."))
        && (v.None? && outcome.Threw? ==> loading && error == "" && success == old(success))
    {
      error := "";
      var v := Validate(form);
      if v.Some? {
        error := v.value;
        return None;
      }
      loading := true;
      call := Some(SignUpOf(form));
      if outcome.Threw? {
        return;
      }
      if outcome.Failed? {
        error := OrElse(outcome.message, "An error occurred during registration.");
      } else {
        success := true;
      }
      loading := false;
    }
  }
}
