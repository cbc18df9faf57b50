/** What the dashboard's forms get back from the hosted database, and the
    "next position" rule that the add-link and add-collection dialogs share:
    `order('position', { ascending: false }).limit(1)` over the user's rows,
    then the top row's position plus one, or 0 when there is no row. */
module Store {
  import opened Types

  /** The outcome of one request: the row it returned (`None` when `data`
      is null although there was no error), the `error` it returned, or an
      exception thrown by the client, with the exception's message. */
  datatype Reply<T> = Returned(data: Option<T>) | Failed(message: string) | Threw(message: string)

  /** The outcome of a request that returns no row (a delete, an upload). */
  datatype Status = Ok | Error(message: string) | Exception

  /** The row both sign-up paths insert into `profiles` for a new user:
      `avatar_url` and `theme` are sent as `null`. */
  datatype ProfileInsert = ProfileInsert(id: string, username: string, avatarUrl: Option<string>, theme: Option<string>)

  /** The largest element: the position of the row that a descending
      `order` puts first. */
  function Max(s: seq<int>): (m: int)
    requires |s| > 0
    ensures m in s
    ensures forall i | 0 <= i < |s| :: s[i] <= m
  {
    if |s| == 1 then s[0]
    else
      var rest := Max(s[1..]);
      if s[0] >= rest then s[0] else rest
  }

  /** `rows && rows.length > 0 ? rows[0].position + 1 : 0`, where `rows`
      holds the positions of the user's rows (`None` when the query gave no
      data). */
  function NextPosition(rows: Option<seq<int>>): (p: int)
    ensures rows.None? || rows.value == [] ==> p == 0
    ensures rows.Some? && rows.value != [] ==>
      p - 1 in rows.value && forall i | 0 <= i < |rows.value| :: rows.value[i] < p
  {
    if rows.Some? && rows.value != [] then Max(rows.value) + 1 else 0
  }

  /** The new position is not taken; it is never negative when no
      existing position is; and after a reorder, which leaves positions
      0, 1, ..., n-1, it is n. */
  lemma NextPositionFresh(rows: seq<int>)
    ensures NextPosition(Some(rows)) !in rows
    ensures (forall i | 0 <= i < |rows| :: rows[i] >= 0) ==> NextPosition(Some(rows)) >= 0
    ensures (forall i | 0 <= i < |rows| :: rows[i] == i) ==> NextPosition(Some(rows)) == |rows|
  {
    if rows != [] {
      var p := NextPosition(Some(rows));
      var k :| 0 <= k < |rows| && rows[k] == p - 1;
      if forall i | 0 <= i < |rows| :: rows[i] == i {
        assert rows[|rows| - 1] == |rows| - 1;
      }
    }
  }
}
