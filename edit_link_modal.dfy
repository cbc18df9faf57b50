/** The "Edit link" dialog (src/app/dashboard/components/EditLinkModal.tsx):
    the form state for one link, the save handler (URL validation, then an
    update of title, URL and timestamp only), the delete handler behind a
    confirmation, and the rules that disable its buttons. */
module EditLinkModal {
  import opened Types
  import opened Strings
  import opened Store
  import opened LinkUrl

  /** The columns `update` sends; all others keep their stored values. */
  datatype LinkUpdate = LinkUpdate(id: string, title: string, url: string, updatedAt: string)

  const InvalidUrl: string := "Please enter a valid URL"
  const UpdateFailed: string := "Failed to update link. Please try again."
  const DeleteFailed: string := "Failed to delete link. Please try again."

  function UpdateFor(id: string, title: string, validUrl: string, now: string): (u: LinkUpdate)
    ensures u.id == id && u.url == validUrl && u.updatedAt == now
    ensures u.title != "" && (title != "" ==> u.title == title) && (title == "" ==> u.title == "Untitled")
  {
    LinkUpdate(id, if title == "" then "Untitled" else title, validUrl, now)
  }

  /** What the update does to the stored row it targets. */
  function Applied(row: Link, u: LinkUpdate): (r: Link)
    requires row.id == u.id
    ensures r.title == u.title && r.url == u.url && r.updatedAt == u.updatedAt
    ensures r == row.(title := r.title, url := r.url, updatedAt := r.updatedAt)
  {
    row.(title := u.title, url := u.url, updatedAt := u.updatedAt)
  }

  /** Saving never moves a link: its position, collection, visibility and
      click count are what they were. */
  lemma SaveKeepsPlacement(row: Link, title: string, validUrl: string, now: string)
    ensures var r := Applied(row, UpdateFor(row.id, title, validUrl, now));
      r.position == row.position && r.collectionId == row.collectionId
      && r.isActive == row.isActive && r.clickCount == row.clickCount && r.id == row.id
  {
  }

  class EditLinkModal {
    const link: Link
    const parses: string -> bool
    var title: string
    var url: string
    var isLoading: bool
    var isDeleting: bool
    var error: string
    /** The updates sent for this link, oldest first. */
    var updates: seq<LinkUpdate>
    /** The rows handed to `onUpdate`. */
    var updated: seq<Link>
    /** The deletes sent for this link. */
    var deletes: seq<string>
    /** The ids handed to `onDelete`. */
    var deleted: seq<string>

    constructor(link: Link, parses: string -> bool)
      ensures this.link == link && this.parses == parses
      ensures title == link.title && url == link.url
      ensures !isLoading && !isDeleting && error == ""
      ensures updates == [] && updated == [] && deletes == [] && deleted == []
    {
      this.link := link;
      this.parses := parses;
      title, url := link.title, link.url;
      isLoading, isDeleting, error := false, false, "";
      updates, updated, deletes, deleted := [], [], [], [];
    }

    /** Every request targets this dialog's link; every saved URL has a
        scheme and parses; `onDelete` is called at most once per delete
        sent, and only with this link's id. */
    predicate Valid()
      reads this`updates, this`deletes, this`deleted
    {
      (forall i | 0 <= i < |updates| ::
         updates[i].id == link.id && updates[i].title != "" && HasScheme(updates[i].url) && parses(updates[i].url))
      && (forall i | 0 <= i < |deletes| :: deletes[i] == link.id)
      && (forall i | 0 <= i < |deleted| :: deleted[i] == link.id)
      && |deleted| <= |deletes|
    }

    /** `disabled={isLoading || isDeleting || !url.trim()}` on Save: Save
        is enabled exactly when neither an update nor a delete is running
        and the URL has a character that is not whitespace. */
    predicate SaveDisabled(): (r: bool)
      reads this`isLoading, this`isDeleting, this`url
      ensures !r <==> !isLoading && !isDeleting && exists i | 0 <= i < |url| :: !IsWhitespace(url[i])
    {
      TrimEmptyIff(url);
      isLoading || isDeleting || Trim(url) == ""
    }

    /** `disabled={isDeleting || isLoading}` on Delete: Delete is disabled
        while either request runs, and whenever Delete is disabled so is
        Save. */
    predicate DeleteDisabled(): (r: bool)
      reads this`isLoading, this`isDeleting, this`url
      ensures isLoading || isDeleting ==> r
      ensures r ==> SaveDisabled()
    {
      isDeleting || isLoading
    }

    /** `handleSubmit`; `reply` is what the update returned. */
    method HandleSubmit(reply: Reply<Link>, now: string)
      requires Valid()
      modifies this`isLoading, this`error, this`updates, this`updated
      ensures Valid() && !isLoading
      ensures ValidateUrl(url, parses) == "" ==>
        error == InvalidUrl && updates == old(updates) && updated == old(updated)
      ensures ValidateUrl(url, parses) != "" ==>
        updates == old(updates) + [UpdateFor(link.id, title, ValidateUrl(url, parses), now)]
        && match reply
           case Failed(message) => error == "Failed to update link: " + message && updated == old(updated)
           case Threw(_) => error == UpdateFailed && updated == old(updated)
           case Returned(None) => error == "" && updated == old(updated)
           case Returned(Some(row)) => error == "" && updated == old(updated) + [row]
    {
      isLoading := true;
      error := "";
      var validUrl := ValidateUrl(url, parses);
      if validUrl == "" {
        error := InvalidUrl;
        isLoading := false;
        return;
      }
      updates := updates + [UpdateFor(link.id, title, validUrl, now)];
      match reply {
        case Failed(message) =>
          error := "Failed to update link: " + message;
        case Threw(_) =>
          error := UpdateFailed;
        case Returned(data) =>
          if data.Some? {
            updated := updated + [data.value];
          }
      }
      isLoading := false;
    }

    /** `handleDelete`: `confirmed` is the answer to the confirmation
        dialog and `status` what the delete returned. */
    method HandleDelete(confirmed: bool, status: Status)
      requires Valid()
      modifies this`isDeleting, this`error, this`deletes, this`deleted
      ensures Valid() && isDeleting == (old(isDeleting) && !confirmed)
      ensures !confirmed ==> error == old(error) && deletes == old(deletes) && deleted == old(deleted)
      ensures confirmed ==>
        deletes == old(deletes) + [link.id]
        && match status
           case Ok => deleted == old(deleted) + [link.id] && error == old(error)
           case Error(message) => deleted == old(deleted) && error == "Failed to delete link: " + message
           case Exception => deleted == old(deleted) && error == DeleteFailed
    {
      if !confirmed {
        return;
      }
      isDeleting := true;
      deletes := deletes + [link.id];
      match status {
        case Ok =>
          deleted := deleted + [link.id];
        case Error(message) =>
          error := "Failed to delete link: " + message;
        case Exception =>
          error := DeleteFailed;
      }
      isDeleting := false;
    }
  }
}
