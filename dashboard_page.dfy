/** The dashboard page (src/app/dashboard/page.tsx): without a signed-in
    user it redirects to the sign-in page; it loads the user's profile,
    creating a default one when the lookup fails or finds none, and
    redirects to sign-in when that creation fails; then it loads the user's
    links in position order, with no data read as an empty list. */
module DashboardPage {
  import opened Types
  import opened Strings
  import opened Ordering

  datatype User = User(id: string, email: Option<string>)

  /** What a query returned: its `data` (`None` for null) and whether it
      returned an `error`. */
  datatype Query<T> = Query(data: Option<T>, failed: bool)

  /** The row inserted for a user without a profile. */
  datatype NewProfile = NewProfile(id: string, username: string, theme: string, isPublic: bool)

  datatype Page = RedirectTo(path: string) | Render(user: User, profile: Option<Profile>, links: seq<Link>)

  /** The page and the profile it created on the way, if any. */
  datatype Outcome = Outcome(created: Option<NewProfile>, page: Page)

  /** `s.slice(0, n)`. */
  function Prefix(s: string, n: nat): (r: string)
    ensures |r| <= n && StartsWith(s, r)
    ensures |s| >= n ==> |r| == n
  {
    if |s| <= n then s else s[..n]
  }

  /** `` user.email?.split('@')[0] || `user_${user.id.slice(0, 8)}` ``. */
  function DefaultUsername(user: User): string {
    var local := if user.email.Some? then BeforeFirst(user.email.value, '@') else "";
    if local != "" then local else "user_" + Prefix(user.id, 8)
  }

  /** The default username is never empty: it is the address's non-empty
      local part, which holds no `@`, or `user_` followed by at most eight
      characters of the id. */
  lemma DefaultUsernameSpec(user: User)
    ensures var name := DefaultUsername(user);
      name != ""
      && (user.email.Some? && BeforeFirst(user.email.value, '@') != "" ==>
            name == BeforeFirst(user.email.value, '@') && '@' !in name && StartsWith(user.email.value, name))
      && (user.email.None? || BeforeFirst(user.email.value, '@') == "" ==>
            StartsWith(name, "user_") && StartsWith(user.id, name[5..]) && |name| <= 13)
  {
    var name := DefaultUsername(user);
    if user.email.None? || BeforeFirst(user.email.value, '@') == "" {
      assert name == "user_" + Prefix(user.id, 8);
      assert name[..5] == "user_" && name[5..] == Prefix(user.id, 8);
    }
  }

  /** The links query, `.eq('user_id', id).order('position')`, over the
      table's rows; `None` when it returned no data. Rows of equal position
      come back in table order. */
  function UserLinks(rows: Option<seq<Link>>, userId: string): seq<Link> {
    if rows.None? then [] else SortByPosition(Filter(rows.value, Owner(userId)))
  }

  /** `.eq('user_id', userId)`. */
  function Owner(userId: string): Link -> bool {
    (l: Link) => l.userId == userId
  }

  /** The rendered links are exactly the user's rows (with their
      multiplicity), in ascending position. */
  lemma UserLinksSpec(rows: seq<Link>, userId: string, x: Link)
    ensures var links := UserLinks(Some(rows), userId);
      Sorted(links) && multiset(links) == multiset(Filter(rows, Owner(userId)))
      && (x in links <==> x in rows && x.userId == userId)
  {
    SortSpec(Filter(rows, Owner(userId)));
    FilterMembers(rows, Owner(userId), x);
    assert x in UserLinks(Some(rows), userId) <==> x in multiset(UserLinks(Some(rows), userId));
  }

  /** `DashboardPage`: `user` is the signed-in user, `lookup` and `create`
      what the profile select and insert returned, `rows` as for
      UserLinks. */
  function Dashboard(user: Option<User>, lookup: Query<Profile>, create: Query<Profile>, rows: Option<seq<Link>>): (r: Outcome)
    ensures user.None? ==> r == Outcome(None, RedirectTo("/auth"))
    ensures user.Some? && !lookup.failed && lookup.data.Some? ==>
      r == Outcome(None, Render(user.value, lookup.data, UserLinks(rows, user.value.id)))
    ensures user.Some? && (lookup.failed || lookup.data.None?) ==>
      r.created == Some(NewProfile(user.value.id, DefaultUsername(user.value), "default", true))
      && (create.failed ==> r.page == RedirectTo("/auth"))
      && (!create.failed ==> r.page == Render(user.value, create.data, UserLinks(rows, user.value.id)))
  {
    if user.None? then Outcome(None, RedirectTo("/auth"))
    else
      var u := user.value;
      if lookup.failed || lookup.data.None? then
        var created := NewProfile(u.id, DefaultUsername(u), "default", true);
        if create.failed then Outcome(Some(created), RedirectTo("/auth"))
        else Outcome(Some(created), Render(u, create.data, UserLinks(rows, u.id)))
      else Outcome(None, Render(u, lookup.data, UserLinks(rows, u.id)))
  }

  /** A profile is created only when the lookup came back empty or failed,
      and the page is shown only to a signed-in user, with only that
      user's links; every redirect goes to the sign-in page. */
  lemma DashboardSpec(user: Option<User>, lookup: Query<Profile>, create: Query<Profile>, rows: Option<seq<Link>>)
    ensures var r := Dashboard(user, lookup, create, rows);
      (r.created.Some? <==> user.Some? && (lookup.failed || lookup.data.None?))
      && (r.page.Render? ==>
            user == Some(r.page.user)
            && forall i | 0 <= i < |r.page.links| :: r.page.links[i].userId == r.page.user.id)
      && (r.page.RedirectTo? ==> r.page.path == "/auth")
  {
    if user.Some? && rows.Some? {
      var links := UserLinks(rows, user.value.id);
      forall i | 0 <= i < |links| ensures links[i].userId == user.value.id {
        UserLinksSpec(rows.value, user.value.id, links[i]);
      }
    }
  }
}
