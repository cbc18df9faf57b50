/** The "Add collection" dialog
    (src/app/dashboard/components/AddCollectionModal.tsx): a title is
    required once trimmed; the collection goes after the user's last one;
    title and description are stored trimmed, an empty description as
    `null`. */
module AddCollectionModal {
  import opened Types
  import opened Strings
  import opened Store

  /** The row sent to `insert`. */
  datatype NewCollection = NewCollection(title: string, description: Option<string>, userId: string, position: int, isActive: bool)

  const TitleRequired: string := "Collection title is required"
  const CreateFailed: string := "Failed to create collection. Please try again."

  /** `description.trim() || null`. */
  function StoredDescription(description: string): (r: Option<string>)
    ensures r.None? <==> Trim(description) == ""
    ensures r.Some? ==> r.value == Trim(description) && r.value != ""
  {
    if Trim(description) == "" then None else Some(Trim(description))
  }

  function Payload(title: string, description: string, userId: string, position: int): (p: NewCollection)
    ensures p.title == Trim(title) && p.description == StoredDescription(description)
    ensures p.userId == userId && p.position == position && p.isActive
  {
    NewCollection(Trim(title), StoredDescription(description), userId, position, true)
  }

  /** A stored title or description has no white space at either end, and
      storing it again changes nothing. */
  lemma PayloadNormalised(title: string, description: string, userId: string, position: int)
    ensures var p := Payload(title, description, userId, position);
      (p.title == "" || (!IsWhitespace(p.title[0]) && !IsWhitespace(p.title[|p.title| - 1])))
      && Trim(p.title) == p.title
      && (p.description.Some? ==> StoredDescription(p.description.value) == p.description)
  {
    TrimEnds(title);
    TrimIdempotent(title);
    TrimIdempotent(description);
  }

  class AddCollectionModal {
    const userId: string
    var title: string
    var description: string
    var isLoading: bool
    var error: string
    /** The rows sent to `insert`, oldest first. */
    var inserts: seq<NewCollection>
    /** The collections handed to `onAdd`. */
    var added: seq<Collection>

    constructor(userId: string)
      ensures this.userId == userId && title == "" && description == ""
      ensures !isLoading && error == "" && inserts == [] && added == []
    {
      this.userId := userId;
      title, description := "", "";
      isLoading, error := false, "";
      inserts, added := [], [];
    }

    /** Every collection this dialog creates has a non-blank, trimmed title
        and is active. */
    predicate Valid()
      reads this`inserts
    {
      forall i | 0 <= i < |inserts| ::
        inserts[i].title != "" && Trim(inserts[i].title) == inserts[i].title
        && inserts[i].isActive && inserts[i].userId == userId
    }

    /** `disabled={isLoading || !title.trim()}`: the button is enabled
        exactly when no insert is running and the title has a character
        that is not whitespace. */
    predicate SubmitDisabled(): (r: bool)
      reads this`isLoading, this`title
      ensures !r <==> !isLoading && exists i | 0 <= i < |title| :: !IsWhitespace(title[i])
    {
      TrimEmptyIff(title);
      isLoading || Trim(title) == ""
    }

    /** `handleSubmit`: `positions` is what the position query returned for
        the user's collections and `reply` what the insert returned. */
    method HandleSubmit(positions: Option<seq<int>>, reply: Reply<Collection>)
      requires Valid()
      modifies this`isLoading, this`error, this`inserts, this`added
      ensures Valid() && !isLoading
      ensures Trim(title) == "" ==> error == TitleRequired && inserts == old(inserts) && added == old(added)
      ensures Trim(title) != "" ==>
        inserts == old(inserts) + [Payload(title, description, userId, NextPosition(positions))]
        && match reply
           case Failed(message) => error == "Failed to create collection: " + message && added == old(added)
           case Threw(_) => error == CreateFailed && added == old(added)
           case Returned(None) => error == "" && added == old(added)
           case Returned(Some(c)) => error == "" && added == old(added) + [c]
    {
      isLoading := true;
      error := "";
      if Trim(title) == "" {
        error := TitleRequired;
        isLoading := false;
        return;
      }
      var nextPosition := NextPosition(positions);
      var payload := Payload(title, description, userId, nextPosition);
      TrimIdempotent(title);
      assert payload.title != "" && Trim(payload.title) == payload.title;
      inserts := inserts + [payload];
      forall i | 0 <= i < |inserts|
        ensures inserts[i].title != "" && Trim(inserts[i].title) == inserts[i].title
          && inserts[i].isActive && inserts[i].userId == userId
      {
        if i < |inserts| - 1 {
          assert inserts[i] == old(inserts)[i];
        }
      }
      ApplyCreateReply(reply);
      isLoading := false;
    }

    /** What the insert's reply does: an error shows its message, a thrown
        call the generic error, and a returned row is handed to `onAdd`. */
    method ApplyCreateReply(reply: Reply<Collection>)
      requires error == ""
      modifies this`error, this`added
      ensures match reply
        case Failed(message) => error == "Failed to create collection: " + message && added == old(added)
        case Threw(_) => error == CreateFailed && added == old(added)
        case Returned(None) => error == "" && added == old(added)
        case Returned(Some(c)) => error == "" && added == old(added) + [c]
    {
      match reply {
        case Failed(message) =>
          error := "Failed to create collection: " + message;
        case Threw(_) =>
          error := CreateFailed;
        case Returned(data) =>
          if data.Some? {
            added := added + [data.value];
          }
      }
    }
  }
}
