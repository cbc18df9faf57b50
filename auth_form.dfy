/** The combined sign-up / sign-in form (src/app/auth/AuthForm.tsx): the
    checks made before the authentication service is called, the mapping
    of its errors, the profile created after a sign-up with its bounded
    search for a free username, the Google button and the mode switch. */
module AuthForm {
  import opened Types
  import opened Strings
  import opened Store
  import opened AuthMessages

  /** `` `${n}` `` for a natural number: its decimal digits. */
  function Digits(n: nat): (s: string)
    ensures |s| >= 1
    ensures forall i | 0 <= i < |s| :: '0' <= s[i] <= '9'
    decreases n
  {
    if n < 10 then [('0' as int + n) as char]
    else Digits(n / 10) + [('0' as int + n % 10) as char]
  }

  /** The number a string of decimal digits denotes. */
  function Value(s: string): nat
    requires forall i | 0 <= i < |s| :: '0' <= s[i] <= '9'
  {
    if s == [] then 0 else 10 * Value(s[..|s| - 1]) + (s[|s| - 1] as int - '0' as int)
  }

  /** Reading the digits back gives the number, so distinct numbers have
      distinct digit strings. */
  lemma {:induction false} DigitsValue(n: nat)
    ensures Value(Digits(n)) == n
    decreases n
  {
    if n >= 10 {
      var d := Digits(n);
      assert d[..|d| - 1] == Digits(n / 10);
      DigitsValue(n / 10);
    }
  }

  /** The name tried at attempt `k`: the base itself first, then the base
      followed by the attempt number. */
  function Candidate(base: string, k: nat): (name: string)
    ensures k == 0 ==> name == base
    ensures k > 0 ==> |name| > |base| && name[..|base|] == base && name[|base|..] == Digits(k)
  {
    if k == 0 then base else base + Digits(k)
  }

  /** The attempts never try the same name twice. */
  lemma CandidatesDistinct(base: string, i: nat, j: nat)
    requires i != j
    ensures Candidate(base, i) != Candidate(base, j)
  {
    if i > 0 && j > 0 {
      DigitsValue(i);
      DigitsValue(j);
      assert Candidate(base, i)[|base|..] == Digits(i);
      assert Candidate(base, j)[|base|..] == Digits(j);
    }
  }

  /** The name the search settles on when it reaches attempt `k`: the
      first free candidate among attempts `k` to 9, or attempt 10, which
      is never looked up. */
  function Chosen(base: string, taken: set<string>, k: nat): string
    requires k <= 10
    decreases 10 - k
  {
    if k == 10 || Candidate(base, k) !in taken then Candidate(base, k)
    else Chosen(base, taken, k + 1)
  }

  lemma {:induction false} ChosenFrom(base: string, taken: set<string>, k: nat) returns (j: nat)
    requires k <= 10
    ensures k <= j <= 10 && Chosen(base, taken, k) == Candidate(base, j)
    ensures forall i | k <= i < j :: Candidate(base, i) in taken
    ensures j < 10 ==> Candidate(base, j) !in taken
    decreases 10 - k
  {
    if k == 10 || Candidate(base, k) !in taken {
      j := k;
    } else {
      j := ChosenFrom(base, taken, k + 1);
    }
  }

  /** The chosen name is attempt `j` for some `j <= 10`: every earlier
      attempt was taken, and unless `j` is 10 the chosen name is free. In
      particular a free base is used as it is. */
  lemma ChosenSpec(base: string, taken: set<string>) returns (j: nat)
    ensures j <= 10 && Chosen(base, taken, 0) == Candidate(base, j)
    ensures forall i | 0 <= i < j :: Candidate(base, i) in taken
    ensures j < 10 ==> Candidate(base, j) !in taken
    ensures base !in taken ==> Chosen(base, taken, 0) == base
  {
    j := ChosenFrom(base, taken, 0);
  }

  /** The `while (attempt < 10)` loop of `createUserProfile`: `taken` holds
      the usernames of all profiles, so a lookup finds a row exactly when
      its name is in it. Returns the name and the names looked up, in
      order. */
  method ChooseUsername(base: string, taken: set<string>) returns (username: string, lookups: seq<string>)
    ensures username == Chosen(base, taken, 0)
    ensures 1 <= |lookups| <= 10
    ensures forall i | 0 <= i < |lookups| :: lookups[i] == Candidate(base, i)
    ensures forall i | 0 <= i < |lookups| - 1 :: lookups[i] in taken
    ensures lookups[|lookups| - 1] !in taken || |lookups| == 10
  {
    username := base;
    var attempt := 0;
    lookups := [];
    while attempt < 10
      invariant 0 <= attempt <= 10 && |lookups| == attempt
      invariant username == Candidate(base, attempt)
      invariant forall i | 0 <= i < attempt :: lookups[i] == Candidate(base, i) && lookups[i] in taken
      invariant Chosen(base, taken, attempt) == Chosen(base, taken, 0)
    {
      lookups := lookups + [username];
      if username !in taken {
        break;
      }
      attempt := attempt + 1;
      username := base + Digits(attempt);
    }
  }

  /** The names the search of `createUserProfile` looks up, in order:
      successive candidates from attempt 0, every one but the last taken,
      and the last free unless all ten were tried. */
  predicate SearchLog(base: string, taken: set<string>, log: seq<string>) {
    1 <= |log| <= 10
    && (forall i | 0 <= i < |log| :: log[i] == Candidate(base, i))
    && (forall i | 0 <= i < |log| - 1 :: log[i] in taken)
    && (log[|log| - 1] !in taken || |log| == 10)
  }

  /** The search's log is determined by the base and the taken names. */
  lemma SearchLogUnique(base: string, taken: set<string>, a: seq<string>, b: seq<string>)
    requires SearchLog(base, taken, a) && SearchLog(base, taken, b)
    ensures a == b
  {
  }

  const AccountCreated: string := "Account created successfully! Redirecting..."
  const CheckYourEmail: string := "Please check your email to confirm your account before signing in."

  /** What a sign-up shows for the service's answer. */
  function SignUpBanner(reply: AuthReply): (b: Banner)
    ensures reply.AuthUser? ==> b.error == "" && b.success in {AccountCreated, CheckYourEmail}
    ensures reply.AuthUser? && reply.confirmed ==> b.success == AccountCreated
    ensures !reply.AuthUser? ==> b.success == ""
    ensures reply.AuthError? ==> b.error == SignUpMessage(reply.message)
    ensures reply.AuthThrew? ==> b.error == Unexpected
  {
    match reply
    case AuthError(message) => Banner(SignUpMessage(message), "")
    case AuthThrew => Banner(Unexpected, "")
    case NoUser => Banner("", "")
    case AuthUser(_, confirmed) => Banner("", if confirmed then AccountCreated else CheckYourEmail)
  }

  /** A sign-up that returns a user never shows an error, and shows a
      success text: nothing the profile creation does can change that. A
      success text is only ever shown for a returned user. */
  lemma SignUpSucceeds(reply: AuthReply)
    ensures SignUpBanner(reply).success != "" <==> reply.AuthUser?
    ensures SignInBanner(reply).success != "" <==> reply.AuthUser?
    ensures reply.AuthUser? ==> SignUpBanner(reply).error == "" && SignInBanner(reply).error == ""
  {
  }

  class AuthForm {
    var email: string
    var password: string
    var isSubmitting: bool
    var isSignUp: bool
    var error: string
    var success: string
    /** The authentication requests sent, oldest first. */
    var requests: seq<AuthRequest>
    /** The usernames looked up and the profile rows inserted. */
    var lookups: seq<string>
    var inserts: seq<ProfileInsert>

    constructor()
      ensures email == "" && password == "" && !isSubmitting && isSignUp
      ensures error == "" && success == "" && requests == [] && lookups == [] && inserts == []
    {
      email, password := "", "";
      isSubmitting, isSignUp := false, true;
      error, success := "", "";
      requests, lookups, inserts := [], [], [];
    }

    /** `handleSubmit`: `reply` is the service's answer, `taken` the
        usernames of all profiles, and `insert` what the profile insert
        returned, which changes nothing the form shows. */
    method HandleSubmit(reply: AuthReply, taken: set<string>, insert: Status)
      modifies this`isSubmitting, this`error, this`success, this`requests, this`lookups, this`inserts
      ensures !isSubmitting
      ensures email == "" || password == "" ==>
        Banner(error, success) == Banner(FillInAllFields, "") && requests == old(requests)
        && lookups == old(lookups) && inserts == old(inserts)
      ensures email != "" && password != "" && |password| < 6 ==>
        Banner(error, success) == Banner(PasswordTooShort, "") && requests == old(requests)
        && lookups == old(lookups) && inserts == old(inserts)
      ensures email != "" && |password| >= 6 && !isSignUp ==>
        requests == old(requests) + [SignIn(email, password)] && Banner(error, success) == SignInBanner(reply)
        && lookups == old(lookups) && inserts == old(inserts)
      ensures email != "" && |password| >= 6 && isSignUp ==>
        requests == old(requests) + [SignUp(email, password)] && Banner(error, success) == SignUpBanner(reply)
      ensures email != "" && |password| >= 6 && isSignUp && !reply.AuthUser? ==>
        lookups == old(lookups) && inserts == old(inserts)
      ensures email != "" && |password| >= 6 && isSignUp && reply.AuthUser? ==>
        inserts == old(inserts) + [ProfileInsert(reply.id, Chosen(BeforeFirst(email, '@'), taken, 0), None, None)]
        && |old(lookups)| < |lookups| && lookups[..|old(lookups)|] == old(lookups)
        && SearchLog(BeforeFirst(email, '@'), taken, lookups[|old(lookups)|..])
    {
      isSubmitting := true;
      error := "";
      success := "";
      if email == "" || password == "" {
        error := FillInAllFields;
        isSubmitting := false;
        return;
      }
      if |password| < 6 {
        error := PasswordTooShort;
        isSubmitting := false;
        return;
      }
      if isSignUp {
        SignUpWith(reply, taken);
      } else {
        SignInWith(reply);
      }
      isSubmitting := false;
    }

    /** The sign-up branch of `handleSubmit`: the request, then the
        profile for a new user and the banner for the reply. */
    method SignUpWith(reply: AuthReply, taken: set<string>)
      requires error == "" && success == ""
      modifies this`error, this`success, this`requests, this`lookups, this`inserts
      ensures requests == old(requests) + [SignUp(email, password)] && Banner(error, success) == SignUpBanner(reply)
      ensures !reply.AuthUser? ==> lookups == old(lookups) && inserts == old(inserts)
      ensures reply.AuthUser? ==>
        inserts == old(inserts) + [ProfileInsert(reply.id, Chosen(BeforeFirst(email, '@'), taken, 0), None, None)]
        && |old(lookups)| < |lookups| && lookups[..|old(lookups)|] == old(lookups)
        && SearchLog(BeforeFirst(email, '@'), taken, lookups[|old(lookups)|..])
    {
      requests := requests + [SignUp(email, password)];
      match reply {
        case AuthError(message) =>
          error := SignUpMessage(message);
        case AuthThrew =>
          error := Unexpected;
        case NoUser =>
        case AuthUser(id, confirmed) =>
          CreateUserProfile(id, taken);
          success := if confirmed then AccountCreated else CheckYourEmail;
      }
    }

    /** The sign-in branch of `handleSubmit`: the request and the banner
        for the reply. */
    method SignInWith(reply: AuthReply)
      requires error == "" && success == ""
      modifies this`error, this`success, this`requests
      ensures requests == old(requests) + [SignIn(email, password)] && Banner(error, success) == SignInBanner(reply)
    {
      requests := requests + [SignIn(email, password)];
      match reply {
        case AuthError(message) =>
          error := SignInMessage(message);
        case AuthThrew =>
          error := Unexpected;
        case NoUser =>
        case AuthUser(_, _) =>
          success := SignedIn;
      }
    }

    /** `createUserProfile(userId, email)`: the username search, then the
        insert, whose outcome is only logged. */
    method CreateUserProfile(userId: string, taken: set<string>)
      modifies this`lookups, this`inserts
      ensures inserts == old(inserts) + [ProfileInsert(userId, Chosen(BeforeFirst(email, '@'), taken, 0), None, None)]
      ensures |old(lookups)| < |lookups| && lookups[..|old(lookups)|] == old(lookups)
      ensures SearchLog(BeforeFirst(email, '@'), taken, lookups[|old(lookups)|..])
    {
      var username, looked := ChooseUsername(BeforeFirst(email, '@'), taken);
      lookups := lookups + looked;
      assert lookups[|old(lookups)|..] == looked;
      inserts := inserts + [ProfileInsert(userId, username, None, None)];
    }

    /** `handleGoogleSignIn`: on success the browser leaves the page, so the
        form stays submitting. */
    method HandleGoogleSignIn(status: Status)
      modifies this`isSubmitting, this`error, this`success, this`requests
      ensures requests == old(requests) + [Google] && success == ""
      ensures status == Ok ==> isSubmitting && error == ""
      ensures status.Error? ==> !isSubmitting && error == GoogleMessage(status.message)
      ensures status == Exception ==> !isSubmitting && error == GoogleFailed
    {
      isSubmitting := true;
      error := "";
      success := "";
      requests := requests + [Google];
      match status {
        case Ok =>
        case Error(message) =>
          error := GoogleMessage(message);
          isSubmitting := false;
        case Exception =>
          error := GoogleFailed;
          isSubmitting := false;
      }
    }

    /** The "Log in" / "Sign up" link under the form. */
    method ToggleMode()
      modifies this`isSignUp, this`error, this`success
      ensures isSignUp == !old(isSignUp) && error == "" && success == ""
    {
      isSignUp := !isSignUp;
      error := "";
      success := "";
    }
  }
}
