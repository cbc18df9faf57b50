/** The sign-in-only form (src/app/auth/login/LoginForm.tsx): the same
    checks and error mapping as the sign-in half of the combined form,
    without the password length check, plus the Apple button, which is not
    wired to any provider. */
module LoginForm {
  import opened Store
  import opened AuthMessages

  const AppleNotConfigured: string := "Apple sign-in is not configured yet. Please use email/password."

  class LoginForm {
    var email: string
    var password: string
    var isSubmitting: bool
    var error: string
    var success: string
    /** The authentication requests sent, oldest first. */
    var requests: seq<AuthRequest>

    constructor()
      ensures email == "" && password == "" && !isSubmitting
      ensures error == "" && success == "" && requests == []
    {
      email, password := "", "";
      isSubmitting := false;
      error, success := "", "";
      requests := [];
    }

    /** `disabled={isSubmitting || !email || !password}` on Continue: the
        button is enabled exactly when nothing is being submitted and both
        fields are filled, so an enabled button never reaches the handler's
        fill-in-all-fields branch. */
    predicate SubmitDisabled(): (r: bool)
      reads this`isSubmitting, this`email, this`password
      ensures !r ==> !isSubmitting && email != "" && password != ""
      ensures !isSubmitting && email != "" && password != "" ==> !r
    {
      isSubmitting || email == "" || password == ""
    }

    /** `handleSubmit`: `reply` is the service's answer to the sign-in. */
    method HandleSubmit(reply: AuthReply)
      modifies this`isSubmitting, this`error, this`success, this`requests
      ensures !isSubmitting
      ensures email == "" || password == "" ==>
        Banner(error, success) == Banner(FillInAllFields, "") && requests == old(requests)
      ensures email != "" && password != "" ==>
        requests == old(requests) + [SignIn(email, password)] && Banner(error, success) == SignInBanner(reply)
    {
      isSubmitting := true;
      error := "";
      success := "";
      if email == "" || password == "" {
        error := FillInAllFields;
        isSubmitting := false;
        return;
      }
      requests := requests + [SignIn(email, password)];
      match reply {
        case AuthError(message) =>
          error := SignInMessage(message);
        case AuthThrew =>
          error := Unexpected;
        case NoUser =>
        case AuthUser(_, _) =>
          success := SignedIn;
      }
      isSubmitting := false;
    }

    /** `handleGoogleSignIn`, as in the combined form. */
    method HandleGoogleSignIn(status: Status)
      modifies this`isSubmitting, this`error, this`success, this`requests
      ensures requests == old(requests) + [Google] && success == ""
      ensures status == Ok ==> isSubmitting && error == ""
      ensures status.Error? ==> !isSubmitting && error == GoogleMessage(status.message)
      ensures status == Exception ==> !isSubmitting && error == GoogleFailed
    {
      isSubmitting := true;
      error := "";
      success := "";
      requests := requests + [Google];
      match status {
        case Ok =>
        case Error(message) =>
          error := GoogleMessage(message);
          isSubmitting := false;
        case Exception =>
          error := GoogleFailed;
          isSubmitting := false;
      }
    }

    /** `handleAppleSignIn`: only the error text changes; no request is
        sent. */
    method HandleAppleSignIn()
      modifies this`error
      ensures error == AppleNotConfigured
    {
      error := AppleNotConfigured;
    }
  }
}
