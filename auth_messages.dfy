/** The messages the two sign-in forms (src/app/auth/AuthForm.tsx and
    src/app/auth/login/LoginForm.tsx) show, and how they turn an error
    returned by the authentication service into one of them: the first
    pattern the service's message contains picks a fixed text, and a
    message matching no pattern is shown as it is. */
module AuthMessages {
  import opened Strings

  const FillInAllFields: string := "Please fill in all fields"
  const PasswordTooShort: string := "Password must be at least 6 characters"
  const Unexpected: string := "An unexpected error occurred. Please try again."
  const SignedIn: string := "Signed in successfully! Redirecting..."

  const InvalidEmail: string := "Please enter a valid email address"
  const PasswordRule: string := "Password must be at least 6 characters long"
  const AlreadyRegistered: string := "An account with this email already exists. Try signing in instead."
  const BadCredentials: string := "Invalid email or password. Please check your credentials."
  const Unconfirmed: string := "Please confirm your email address before signing in."

  const GoogleNotConfigured: string := "Google sign-in is not configured. Please use email/password."
  const GoogleFailed: string := "Failed to sign in with Google. Please try email/password."

  /** Sign-up errors: `'Invalid email'`, then `'Password'`, then
      `'User already registered'`. */
  function SignUpMessage(message: string): (r: string)
    ensures Contains(message, "Invalid email") ==> r == InvalidEmail
    ensures !Contains(message, "Invalid email") && Contains(message, "Password") ==> r == PasswordRule
  {
    if Contains(message, "Invalid email") then InvalidEmail
    else if Contains(message, "Password") then PasswordRule
    else if Contains(message, "User already registered") then AlreadyRegistered
    else message
  }

  /** Sign-in errors: `'Invalid login credentials'`, then
      `'Email not confirmed'`. */
  function SignInMessage(message: string): (r: string)
    ensures Contains(message, "Invalid login credentials") ==> r == BadCredentials
  {
    if Contains(message, "Invalid login credentials") then BadCredentials
    else if Contains(message, "Email not confirmed") then Unconfirmed
    else message
  }

  /** Google sign-in errors: any message mentioning `'OAuth'`. */
  function GoogleMessage(message: string): (r: string)
    ensures Contains(message, "OAuth") ==> r == GoogleNotConfigured
    ensures !Contains(message, "OAuth") ==> r == message
  {
    if Contains(message, "OAuth") then GoogleNotConfigured else message
  }

  /** The sign-up message is one of the three fixed texts, or the service's
      own message exactly when it matches none of the patterns. */
  lemma SignUpMessageCases(message: string)
    ensures var r := SignUpMessage(message);
      r in {InvalidEmail, PasswordRule, AlreadyRegistered}
      || (r == message && !Contains(message, "Invalid email") && !Contains(message, "Password")
          && !Contains(message, "User already registered"))
    ensures (!Contains(message, "Invalid email") && !Contains(message, "Password")
             && Contains(message, "User already registered")) ==>
      SignUpMessage(message) == AlreadyRegistered
  {
  }

  /** Likewise for sign-in: one of the two fixed texts, or the message
      itself when neither pattern occurs. */
  lemma SignInMessageCases(message: string)
    ensures var r := SignInMessage(message);
      r in {BadCredentials, Unconfirmed}
      || (r == message && !Contains(message, "Invalid login credentials") && !Contains(message, "Email not confirmed"))
    ensures !Contains(message, "Invalid login credentials") && Contains(message, "Email not confirmed") ==>
      SignInMessage(message) == Unconfirmed
  {
  }

  /** A pattern anywhere in the message counts, not only at its start. */
  lemma {:induction false} ContainsLater(prefix: string, sub: string)
    ensures Contains(prefix + sub, sub)
    decreases |prefix|
  {
    if prefix != [] {
      assert (prefix + sub)[1..] == prefix[1..] + sub;
      ContainsLater(prefix[1..], sub);
    } else {
      assert (prefix + sub)[..|sub|] == sub;
    }
  }

  /** A request sent to the authentication service. */
  datatype AuthRequest = SignUp(email: string, password: string) | SignIn(email: string, password: string) | Google

  /** What the service answered: an error with its message, a user (with
      whether its e-mail address is already confirmed), no user and no
      error, or an exception. */
  datatype AuthReply = AuthError(message: string) | AuthUser(id: string, confirmed: bool) | NoUser | AuthThrew

  /** The error and success texts the form shows. */
  datatype Banner = Banner(error: string, success: string)

  /** What a sign-in shows for the service's answer. */
  function SignInBanner(reply: AuthReply): (b: Banner)
    ensures reply.AuthUser? ==> b == Banner("", SignedIn)
    ensures !reply.AuthUser? ==> b.success == ""
    ensures reply.AuthError? ==> b.error == SignInMessage(reply.message)
    ensures reply.AuthThrew? ==> b.error == Unexpected
  {
    match reply
    case AuthError(message) => Banner(SignInMessage(message), "")
    case AuthThrew => Banner(Unexpected, "")
    case NoUser => Banner("", "")
    case AuthUser(_, _) => Banner("", SignedIn)
  }

  /** Whatever precedes a pattern, the message is mapped by that
      pattern: the match is a substring test, not a comparison. */
  lemma PatternAfterPrefix(prefix: string)
    ensures SignInMessage(prefix + "Invalid login credentials") == BadCredentials
    ensures SignUpMessage(prefix + "Invalid email") == InvalidEmail
    ensures GoogleMessage(prefix + "OAuth") == GoogleNotConfigured
  {
    ContainsLater(prefix, "Invalid login credentials");
    ContainsLater(prefix, "Invalid email");
    ContainsLater(prefix, "OAuth");
  }
}
