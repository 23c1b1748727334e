/** The password-reset form: the reset code from the link must be present and the two passwords
    must match before the reset is attempted. The identity service's answer is an input. */
module ResetPassword {
  import opened JsPrims

  /** What the reset attempt gave: a result whose status may be missing (also when the sign-in
      object is not ready), or an exception carrying an optional first error message. */
  datatype Attempt = Returned(status: Option<string>) | Threw(firstMessage: Option<string>)

  const MissingCode := "Missing password reset code. Please use the link from your email."
  const Mismatch := "Passwords do not match."
  const NotComplete := "Could not complete password reset. Try again."

  class ResetPasswordPage {
    var password: string
    var confirmPassword: string
    var error: string
    var success: bool
    var loading: bool

    constructor ()
      ensures password == "" && confirmPassword == "" && error == "" && !success && !loading
    {
      password, confirmPassword, error, success, loading := "", "", "", false, false;
    }

    /** `handleSubmit` with the link's `code` parameter. Returns whether the reset was attempted. */
    method HandleSubmit(code: Option<string>, attempt: Attempt) returns (attempted: bool)
      modifies this`error, this`success, this`loading
      ensures !loading
      ensures !Truthy(code) ==> !attempted && error == MissingCode && success == old(success)
      ensures Truthy(code) && password != confirmPassword ==>
        !attempted && error == Mismatch && success == old(success)
      ensures attempted <==> Truthy(code) && password == confirmPassword
      ensures attempted && attempt == Returned(Some("complete")) ==> success && error == ""
      ensures attempted && attempt.Returned? && attempt.status != Some("complete") ==>
        error == NotComplete && success == old(success)
      ensures attempted && attempt.Threw? ==>
        error == OrElse(attempt.firstMessage, "Something went wrong.") && success == old(success)
    {
      error := "";
      loading := true;
      if !Truthy(code) {
        error := MissingCode;
        loading := false;
        return false;
      }
      if password != confirmPassword {
        error := Mismatch;
        loading := false;
        return false;
      }
      attempted := true;
      match attempt {
        case Returned(status) =>
          if status == Some("complete") {
            success := true;
          } else {
            error := NotComplete;
          }
        case Threw(message) =>
          error := OrElse(message, "Something went wrong.");
      }
      loading := false;
    }
  }
}
