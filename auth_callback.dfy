/** The authentication callback (src/app/auth/callback/route.ts): the
    redirect target is a copy of the request URL whose path becomes `next`
    and whose one-time parameters are removed; a code exchange is tried,
    then an e-mail token check; the first that yields a user gets a
    profile if it has none, and when neither does the target becomes the
    sign-in page with an error parameter. Query parameters follow the
    `URLSearchParams` interface of the WHATWG URL Standard (section 6.2):
    an ordered list of name-value pairs. */
module AuthCallback {
  import opened Types
  import opened Strings
  import opened Store

  type Params = seq<(string, string)>

  /** `get(name)`: the value of the first pair with that name. */
  function Get(ps: Params, name: string): Option<string> {
    if ps == [] then None
    else if ps[0].0 == name then Some(ps[0].1)
    else Get(ps[1..], name)
  }

  /** `delete(name)`: every pair with that name removed, the others kept
      in order. */
  function Without(ps: Params, name: string): (r: Params)
    ensures |r| <= |ps|
    ensures forall i | 0 <= i < |r| :: r[i].0 != name && r[i] in ps
  {
    if ps == [] then []
    else (if ps[0].0 == name then [] else [ps[0]]) + Without(ps[1..], name)
  }

  /** `set(name, value)`: the first pair with that name gets the value and
      the later ones are removed; with no such pair, one is appended. */
  function WithSet(ps: Params, name: string, value: string): (r: Params)
  {
    if ps == [] then [(name, value)]
    else if ps[0].0 == name then [(name, value)] + Without(ps[1..], name)
    else [ps[0]] + WithSet(ps[1..], name, value)
  }

  /** Removing a name leaves every other name's value alone and makes the
      name itself absent. */
  lemma {:induction false} GetWithout(ps: Params, name: string, other: string)
    ensures Get(Without(ps, name), name).None?
    ensures other != name ==> Get(Without(ps, name), other) == Get(ps, other)
    decreases |ps|
  {
    if ps != [] {
      GetWithout(ps[1..], name, other);
      if ps[0].0 != name {
        assert Without(ps, name) == [ps[0]] + Without(ps[1..], name);
      } else {
        assert Without(ps, name) == Without(ps[1..], name);
      }
    }
  }

  /** After a `set`, `get` returns the value set, and every other name's
      value is unchanged. */
  lemma {:induction false} GetWithSet(ps: Params, name: string, value: string, other: string)
    ensures Get(WithSet(ps, name, value), name) == Some(value)
    ensures other != name ==> Get(WithSet(ps, name, value), other) == Get(ps, other)
    decreases |ps|
  {
    if ps != [] {
      if ps[0].0 == name {
        GetWithout(ps[1..], name, other);
      } else {
        GetWithSet(ps[1..], name, value, other);
      }
    }
  }

  /** JavaScript truthiness of a `get` result: present and not empty. */
  predicate Given(v: Option<string>) {
    v.Some? && v.value != ""
  }

  /** The redirect target: a copy of the request URL that the handler
      changes in place. */
  class RedirectUrl {
    var pathname: string
    var params: Params

    constructor(pathname: string, params: Params)
      ensures this.pathname == pathname && this.params == params
    {
      this.pathname := pathname;
      this.params := params;
    }

    method Delete(name: string)
      modifies this`params
      ensures params == Without(old(params), name)
    {
      params := Without(params, name);
    }

    method Set(name: string, value: string)
      modifies this`params
      ensures params == WithSet(old(params), name, value)
    {
      params := WithSet(params, name, value);
    }
  }

  /** What an exchange or a token check returned: a user (its id and
      e-mail address, if it has one), or nothing usable (an error, or no
      user). */
  datatype Session = SignedIn(userId: string, email: Option<string>) | NoSession

  const CallbackError: string := "Could not authenticate user"

  /** `createUserProfile`: `profileIds` are the ids of the existing
      profiles and `suffix` the random six characters appended to the
      name. */
  function ProfileFor(userId: string, email: Option<string>, profileIds: set<string>, suffix: string): (r: Option<ProfileInsert>)
    ensures r.None? <==> userId in profileIds
    ensures r.Some? ==> r.value.id == userId && r.value.avatarUrl.None? && r.value.theme.None?
  {
    if userId in profileIds then None
    else
      var address := if email.Some? then email.value else "";
      Some(ProfileInsert(userId, BeforeFirst(address, '@') + "_" + suffix, None, None))
  }

  /** The username is the address's local part, an underscore, then the
      suffix; a user without an address gets just the underscore and the
      suffix. */
  lemma ProfileUsername(userId: string, email: Option<string>, profileIds: set<string>, suffix: string)
    requires userId !in profileIds
    ensures var r := ProfileFor(userId, email, profileIds, suffix).value;
      (email.None? ==> r.username == "_" + suffix)
      && (email.Some? ==>
            StartsWith(email.value, r.username[..|r.username| - |suffix| - 1])
            && '@' !in r.username[..|r.username| - |suffix| - 1])
  {
    var address := if email.Some? then email.value else "";
    var local := BeforeFirst(address, '@');
    var r := ProfileFor(userId, email, profileIds, suffix).value;
    assert r.username == local + "_" + suffix;
    assert r.username[..|r.username| - |suffix| - 1] == local;
  }

  /** `GET`: `query` is the request's query, `requestPath` its path,
      `exchange` and `verify` what the code exchange and the token check
      return (each is consulted only when its branch is taken), and
      `profileIds`/`suffix` as for ProfileFor. Returns the target and the
      profile inserted, if any. */
  method Callback(requestPath: string, query: Params, exchange: Session, verify: Session,
                  profileIds: set<string>, suffix: string)
    returns (target: RedirectUrl, insert: Option<ProfileInsert>)
    ensures fresh(target)
    ensures target.params ==
      var kept := Without(Without(Without(query, "code"), "token_hash"), "type");
      if Succeeds(query, exchange, verify) then kept else WithSet(kept, "error", CallbackError)
    ensures target.pathname ==
      if !Succeeds(query, exchange, verify) then "/auth"
      else if Get(query, "next").Some? then Get(query, "next").value else "/dashboard"
    ensures insert == Inserted(query, exchange, verify, profileIds, suffix)
  {
    var tokenHash := Get(query, "token_hash");
    var otpType := Get(query, "type");
    var next := if Get(query, "next").Some? then Get(query, "next").value else "/dashboard";
    var code := Get(query, "code");

    target := new RedirectUrl(requestPath, query);
    target.pathname := next;
    target.Delete("code");
    target.Delete("token_hash");
    target.Delete("type");

    if Given(code) && exchange.SignedIn? {
      insert := ProfileFor(exchange.userId, exchange.email, profileIds, suffix);
      return;
    }
    if Given(tokenHash) && Given(otpType) && verify.SignedIn? {
      insert := ProfileFor(verify.userId, verify.email, profileIds, suffix);
      return;
    }
    insert := None;
    target.pathname := "/auth";
    target.Set("error", CallbackError);
  }

  /** Which session, if any, the handler signs in with: the code exchange
      when there is a code and it yields a user, else the token check when
      both its parameters are there and it yields a user. */
  function Winner(query: Params, exchange: Session, verify: Session): (s: Session)
    ensures s.SignedIn? ==> s == exchange || s == verify
    ensures Given(Get(query, "code")) && exchange.SignedIn? ==> s == exchange
  {
    if Given(Get(query, "code")) && exchange.SignedIn? then exchange
    else if Given(Get(query, "token_hash")) && Given(Get(query, "type")) && verify.SignedIn? then verify
    else NoSession
  }

  predicate Succeeds(query: Params, exchange: Session, verify: Session) {
    Winner(query, exchange, verify).SignedIn?
  }

  function Inserted(query: Params, exchange: Session, verify: Session, profileIds: set<string>, suffix: string): Option<ProfileInsert> {
    var s := Winner(query, exchange, verify);
    if s.SignedIn? then ProfileFor(s.userId, s.email, profileIds, suffix) else None
  }

  /** On success the target keeps every parameter except the three
      one-time ones; on failure it also carries the error. Either way none
      of the one-time parameters survives. */
  lemma TargetParams(query: Params, exchange: Session, verify: Session, name: string)
    ensures var kept := Without(Without(Without(query, "code"), "token_hash"), "type");
      var params := if Succeeds(query, exchange, verify) then kept else WithSet(kept, "error", CallbackError);
      (name in {"code", "token_hash", "type"} ==> Get(params, name).None?)
      && (name !in {"code", "token_hash", "type", "error"} ==> Get(params, name) == Get(query, name))
      && (!Succeeds(query, exchange, verify) ==> Get(params, "error") == Some(CallbackError))
      && (Succeeds(query, exchange, verify) ==> Get(params, "error") == Get(query, "error"))
  {
    var a := Without(query, "code");
    var b := Without(a, "token_hash");
    var kept := Without(b, "type");
    GetWithout(query, "code", name);
    GetWithout(a, "token_hash", name);
    GetWithout(b, "type", name);
    GetWithout(query, "code", "error");
    GetWithout(a, "token_hash", "error");
    GetWithout(b, "type", "error");
    GetWithout(query, "code", "token_hash");
    GetWithout(a, "token_hash", "type");
    GetWithout(query, "code", "type");
    GetWithSet(kept, "error", CallbackError, name);
  }

  /** A failed code exchange does not end the attempt: the token check is
      still tried. */
  lemma FallsBackToToken(query: Params, exchange: Session, verify: Session)
    requires exchange.NoSession? && verify.SignedIn?
    requires Given(Get(query, "token_hash")) && Given(Get(query, "type"))
    ensures Succeeds(query, exchange, verify) && Winner(query, exchange, verify) == verify
  {
  }

  /** A profile is inserted only for a signed-in user without one. */
  lemma InsertOnlyWhenMissing(query: Params, exchange: Session, verify: Session, profileIds: set<string>, suffix: string)
    ensures var r := Inserted(query, exchange, verify, profileIds, suffix);
      r.Some? <==> (Succeeds(query, exchange, verify) && Winner(query, exchange, verify).userId !in profileIds)
  {
  }
}
