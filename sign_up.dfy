/**
 * The sign-up form's submit handler: two ordered checks on the passwords, then
 * (only if both pass) one call to the authentication service.
 */
module SignUp {
  import opened Base

  const MinPasswordLength: nat := 6
  const SignInRoute: string := "/signin"

  datatype ValidationError = PasswordMismatch | PasswordTooShort {
    function Message(): (r: string)
      ensures |r| > 0
      ensures r == "Passwords do not match" <==> this == PasswordMismatch
    {
      match this
      case PasswordMismatch => "Passwords do not match"
      case PasswordTooShort => "Password must be at least 6 characters long"
    }
  }

  /** The first failing check, in the order the handler makes them. */
  function Validate(password: string, confirmPassword: string): (e: Option<ValidationError>)
    ensures e.None? <==> password == confirmPassword && |password| >= MinPasswordLength
    ensures password != confirmPassword ==> e == Some(PasswordMismatch)
    ensures e == Some(PasswordTooShort) <==> password == confirmPassword && |password| < MinPasswordLength
  {
    if password != confirmPassword then Some(PasswordMismatch)
    else if |password| < MinPasswordLength then Some(PasswordTooShort)
    else None
  }

  datatype Credentials = Credentials(email: string, password: string)

  /** What the authentication service does with the request. */
  datatype AuthOutcome = AuthOk | AuthError(message: string) | AuthThrew

  /** What the user is told. */
  datatype Notice = Notice(isError: bool, text: string)

  const CreatedText: string := "Account created successfully! Check your email for verification."
  const UnexpectedText: string := "An unexpected error occurred"

  class SignUpPage {
    var email: string
    var password: string
    var confirmPassword: string
    var isLoading: bool
    /** Where the page navigated to, if it did. */
    var navigatedTo: Option<string>
    /** Every sign-up request sent to the authentication service, oldest first. */
    var requests: seq<Credentials>
    var notices: seq<Notice>

    ghost predicate Valid()
      reads this
    {
      !isLoading
    }

    constructor ()
      ensures Valid() && navigatedTo == None && requests == [] && notices == []
      ensures email == "" && password == "" && confirmPassword == ""
    {
      email, password, confirmPassword := "", "", "";
      isLoading := false;
      navigatedTo := None;
      requests, notices := [], [];
    }

    /** The form's inputs were edited. */
    method EditFields(newEmail: string, newPassword: string, newConfirm: string)
      requires Valid()
      modifies this`email, this`password, this`confirmPassword
      ensures Valid()
      ensures email == newEmail && password == newPassword && confirmPassword == newConfirm
    {
      email, password, confirmPassword := newEmail, newPassword, newConfirm;
    }

    /**
     * Submit. A failed check reports its message and sends nothing. Otherwise the
     * entered email and password are sent once; an error is reported and the page
     * stays, success moves to the sign-in route. Loading is off afterwards.
     */
    method HandleSignUp(auth: AuthOutcome)
      requires Valid()
      modifies this`isLoading, this`navigatedTo, this`requests, this`notices
      ensures Valid()
      ensures Validate(password, confirmPassword).Some? ==>
        && requests == old(requests)
        && notices == old(notices) + [Notice(true, Validate(password, confirmPassword).value.Message())]
        && navigatedTo == old(navigatedTo)
      ensures Validate(password, confirmPassword).None? ==>
        requests == old(requests) + [Credentials(email, password)]
      ensures Validate(password, confirmPassword).None? && auth.AuthOk? ==>
        navigatedTo == Some(SignInRoute) && notices == old(notices) + [Notice(false, CreatedText)]
      ensures Validate(password, confirmPassword).None? && auth.AuthError? ==>
        navigatedTo == old(navigatedTo) && notices == old(notices) + [Notice(true, auth.message)]
      ensures Validate(password, confirmPassword).None? && auth.AuthThrew? ==>
        navigatedTo == old(navigatedTo) && notices == old(notices) + [Notice(true, UnexpectedText)]
    {
      var check := Validate(password, confirmPassword);
      if check.Some? {
        notices := notices + [Notice(true, check.value.Message())];
        return;
      }
      isLoading := true;
      requests := requests + [Credentials(email, password)];
      match auth {
        case AuthOk =>
          notices := notices + [Notice(false, CreatedText)];
          navigatedTo := Some(SignInRoute);
        case AuthError(message) =>
          notices := notices + [Notice(true, message)];
        case AuthThrew =>
          notices := notices + [Notice(true, UnexpectedText)];
      }
      isLoading := false;
    }
  }
}
