/** The "Add link" dialog (src/app/dashboard/components/AddLinkModal.tsx):
    its form state, the submit handler that validates the URL, picks the
    next position, inserts the row and hands the completed link to the
    links tab, and the rule that disables its submit button. */
module AddLinkModal {
  import opened Types
  import opened Strings
  import opened Store
  import opened LinkUrl
  import opened Buckets

  /** The row sent to `insert`: no `collection_id`, so the new link is
      ungrouped, and no `click_count`, which the table defaults. */
  datatype NewLink = NewLink(title: string, url: string, userId: string, position: int, isActive: bool)

  /** The row `insert(...).select().single()` returns; the handler fills in
      `click_count`, `created_at` and `updated_at` when they are missing. */
  datatype LinkRow = LinkRow(
    id: string,
    userId: string,
    collectionId: CollectionRef,
    title: string,
    url: string,
    description: Option<string>,
    position: int,
    isActive: bool,
    clickCount: Option<int>,
    icon: Option<string>,
    createdAt: Option<string>,
    updatedAt: Option<string>)

  const InvalidUrl: string := "Please enter a valid URL"
  const AddFailed: string := "Failed to add link. Please try again."

  /** The insert payload for the typed title and the validated URL. */
  function Payload(title: string, validUrl: string, userId: string, position: int): (p: NewLink)
    ensures p.title != "" && (title != "" ==> p.title == title) && (title == "" ==> p.title == "Untitled")
    ensures p.url == validUrl && p.userId == userId && p.position == position && p.isActive
  {
    NewLink(if title == "" then "Untitled" else title, validUrl, userId, position, true)
  }

  /** `value || fallback` for an optional string column. */
  function OrElse(value: Option<string>, fallback: string): (r: string)
    ensures value.Some? && value.value != "" ==> r == value.value
    ensures value.None? || value.value == "" ==> r == fallback
  {
    if value.Some? && value.value != "" then value.value else fallback
  }

  /** `{ ...data, click_count: data.click_count || 0, created_at: ... || now,
      updated_at: ... || now }`. */
  function Completed(row: LinkRow, now: string): (l: Link)
    ensures l.id == row.id && l.userId == row.userId && l.collectionId == row.collectionId
    ensures l.title == row.title && l.url == row.url && l.position == row.position && l.isActive == row.isActive
    ensures row.clickCount.None? ==> l.clickCount == 0
    ensures row.clickCount.Some? ==> l.clickCount == row.clickCount.value
    ensures l.createdAt == OrElse(row.createdAt, now) && l.updatedAt == OrElse(row.updatedAt, now)
  {
    Link(row.id, row.userId, row.collectionId, row.title, row.url, row.description, row.position,
         row.isActive, if row.clickCount.Some? then row.clickCount.value else 0, row.icon,
         OrElse(row.createdAt, now), OrElse(row.updatedAt, now))
  }

  /** A row read back for a payload (which is always active and titled)
      carries the payload's columns and no collection id; the completed link is then active, titled, and
      ungrouped both for the views (falsy id) and for the drop handler
      (the bucket of a missing id), at the chosen position. */
  lemma CompletedFromPayload(p: NewLink, row: LinkRow, now: string)
    requires row.title == p.title && row.url == p.url && row.userId == p.userId
    requires row.position == p.position && row.isActive == p.isActive && row.collectionId == Absent
    requires p.isActive && p.title != ""
    ensures var l := Completed(row, now);
      l.isActive && l.title != "" && IsUngrouped(l) && InBucket(Absent)(l) && l.position == p.position
  {
  }

  class AddLinkModal {
    const userId: string
    /** The URL parser's accept/reject decision. */
    const parses: string -> bool
    var title: string
    var url: string
    var isLoading: bool
    var error: string
    /** The rows sent to `insert`, oldest first. */
    var inserts: seq<NewLink>
    /** The links handed to `onAdd`, oldest first. */
    var added: seq<Link>

    constructor(userId: string, parses: string -> bool)
      ensures this.userId == userId && this.parses == parses
      ensures title == "" && url == "" && !isLoading && error == ""
      ensures inserts == [] && added == []
    {
      this.userId := userId;
      this.parses := parses;
      title, url := "", "";
      isLoading, error := false, "";
      inserts, added := [], [];
    }

    /** Every row this dialog inserts is active, titled, and carries a URL
        with a scheme that the parser accepts. */
    predicate Valid()
      reads this`inserts
    {
      forall i | 0 <= i < |inserts| ::
        inserts[i].isActive && inserts[i].title != "" && HasScheme(inserts[i].url)
        && parses(inserts[i].url) && inserts[i].userId == userId
    }

    /** `disabled={isLoading || !url.trim()}`: the button is enabled
        exactly when no insert is running and the URL has a character that
        is not whitespace. */
    predicate SubmitDisabled(): (r: bool)
      reads this`isLoading, this`url
      ensures !r <==> !isLoading && exists i | 0 <= i < |url| :: !IsWhitespace(url[i])
    {
      TrimEmptyIff(url);
      isLoading || Trim(url) == ""
    }

    /** `handleSubmit`: `positions` is what the position query returned for
        the user's links and `reply` what the insert returned; `now` stands
        for `new Date().toISOString()`. */
    method HandleSubmit(positions: Option<seq<int>>, reply: Reply<LinkRow>, now: string)
      requires Valid()
      modifies this`isLoading, this`error, this`inserts, this`added
      ensures Valid() && !isLoading
      ensures ValidateUrl(url, parses) == "" ==>
        error == InvalidUrl && inserts == old(inserts) && added == old(added)
      ensures ValidateUrl(url, parses) != "" ==>
        inserts == old(inserts) + [Payload(title, ValidateUrl(url, parses), userId, NextPosition(positions))]
        && match reply
           case Failed(message) => error == "Failed to add link: " + message && added == old(added)
           case Threw(_) => error == AddFailed && added == old(added)
           case Returned(None) => error == "" && added == old(added)
           case Returned(Some(row)) => error == "" && added == old(added) + [Completed(row, now)]
    {
      isLoading := true;
      error := "";
      var validUrl := ValidateUrl(url, parses);
      if validUrl == "" {
        error := InvalidUrl;
        isLoading := false;
        return;
      }
      var nextPosition := NextPosition(positions);
      inserts := inserts + [Payload(title, validUrl, userId, nextPosition)];
      match reply {
        case Failed(message) =>
          error := "Failed to add link: " + message;
        case Threw(_) =>
          error := AddFailed;
        case Returned(data) =>
          if data.Some? {
            added := added + [Completed(data.value, now)];
          }
      }
      isLoading := false;
    }
  }
}
