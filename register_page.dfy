/**
 * The registration page: checks the two password fields, mismatch first
 * and length second, and only then asks the identity provider for an
 * account.
 */
module RegisterPage {
  import opened Wrappers
  import opened Text
  import opened TodoTypes

  const MismatchError := "Passwords do not match"
  const TooShortError := "Password must be at least 6 characters"
  const SignUpFallback := "Registration failed. Please try again."
  const MinPasswordLength := 6

  /**
   * The validation message for a password pair, or `None` when the pair
   * may be submitted: the pair is accepted exactly when both fields agree
   * and are at least 6 characters long, and a mismatch is reported
   * before a short password.
   */
  function PasswordError(password: string, confirm: string): (r: Option<string>)
    ensures r.None? <==> password == confirm && |password| >= MinPasswordLength
    ensures password != confirm ==> r == Some(MismatchError)
    ensures password == confirm && |password| < MinPasswordLength ==> r == Some(TooShortError)
  {
    if password != confirm then Some(MismatchError)
    else if |password| < MinPasswordLength then Some(TooShortError)
    else None
  }

  /** What account creation asks the identity provider for. */
  datatype Credentials = Credentials(email: string, password: string)

  /** The identity provider's answer; a failure may carry a message. */
  datatype SignUpResult = SignedUp | SignUpFailed(message: Option<string>)

  class Register {
    var email: string
    var password: string
    var confirmPassword: string
    var loading: bool
    var error: string

    constructor ()
      ensures email == "" && password == "" && confirmPassword == "" && !loading && error == ""
    {
      email := "";
      password := "";
      confirmPassword := "";
      loading := false;
      error := "";
    }

    method Fill(email: string, password: string, confirmPassword: string)
      modifies this`email, this`password, this`confirmPassword
      ensures this.email == email && this.password == password && this.confirmPassword == confirmPassword
    {
      this.email := email;
      this.password := password;
      this.confirmPassword := confirmPassword;
    }

    /**
     * `handleSubmit` (`signUp`: the provider's answer, if it is asked).
     * The previous error is cleared first. A rejected pair shows its
     * message, asks the provider nothing and leaves `loading` alone.
     * An accepted pair asks for an account with the form's email and
     * password; success goes home with no error, failure shows the
     * provider's message or the fallback text, and `loading` ends false.
     */
    method HandleSubmit(signUp: SignUpResult) returns (attempted: Option<Credentials>, nav: Option<string>)
      modifies this`error, this`loading
      ensures attempted.Some? <==> PasswordError(password, confirmPassword).None?
      ensures attempted.Some? ==> attempted.value == Credentials(email, password) && !loading
      ensures attempted.None? ==> error == PasswordError(password, confirmPassword).value && loading == old(loading) && nav.None?
      ensures attempted.Some? && signUp.SignedUp? ==> error == "" && nav == Some(HomePath)
      ensures attempted.Some? && signUp.SignUpFailed? ==> error == OrElse(signUp.message, SignUpFallback) && nav.None?
    {
      error := "";
      nav := None;
      if password != confirmPassword {
        error := MismatchError;
        return None, None;
      }
      if |password| < MinPasswordLength {
        error := TooShortError;
        return None, None;
      }
      loading := true;
      attempted := Some(Credentials(email, password));
      if signUp.SignedUp? {
        nav := Some(HomePath);
      } else {
        error := OrElse(signUp.message, SignUpFallback);
      }
      loading := false;
    }
  }

  /** A failed sign-up always shows some message. */
  lemma FailureMessageNeverEmpty(message: Option<string>)
    ensures OrElse(message, SignUpFallback) != ""
  {
  }
}
