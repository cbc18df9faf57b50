/** The settings dialog (src/app/dashboard/components/SettingsModal.tsx):
    the username rule, the Save button's enable rule, the save handler
    (availability lookup, then one profile update with normalised fields)
    and the avatar upload with its storage path. */
module SettingsModal {
  import opened Types
  import opened Strings
  import opened Store

  datatype Tab = ProfileTab | AppearanceTab | AccountTab

  /** One character of the pattern `[a-zA-Z0-9_-]`. */
  predicate UsernameChar(c: char) {
    'a' <= c <= 'z' || 'A' <= c <= 'Z' || '0' <= c <= '9' || c == '_' || c == '-'
  }

  /** `validateUsername`: `/^[a-zA-Z0-9_-]+$/` and 3 to 30 characters. */
  predicate ValidUsername(s: string): (r: bool)
    ensures r ==> 3 <= |s| <= 30 && forall i | 0 <= i < |s| :: !IsWhitespace(s[i])
    ensures r ==> forall i | 0 <= i < |s| :: 'a' <= ToLower(s)[i] <= 'z' || '0' <= s[i] <= '9' || s[i] == '_' || s[i] == '-'
  {
    (forall i | 0 <= i < |s| :: UsernameChar(s[i])) && 3 <= |s| <= 30
  }

  /** The username as stored: `username.toLowerCase().trim()`, written
      here in the other order, which gives the same string (see
      StoredUsernameSourceOrder). */
  function StoredUsername(username: string): string {
    ToLower(Trim(username))
  }

  /** Lower-casing first and trimming afterwards, as the handler does,
      stores the same name. */
  lemma StoredUsernameSourceOrder(username: string)
    ensures StoredUsername(username) == Trim(ToLower(username))
  {
    TrimToLowerCommute(username);
  }

  /** A valid username contains no white space, so the stored form is its
      lower-case form, which is valid too. */
  lemma ValidUsernameStored(s: string)
    requires ValidUsername(s)
    ensures StoredUsername(s) == ToLower(s)
    ensures ValidUsername(StoredUsername(s))
  {
    var k := TrimSpec(s);
    assert !IsWhitespace(s[0]) && !IsWhitespace(s[|s| - 1]);
    assert k == 0 && |Trim(s)| == |s|;
  }

  /** The columns the save handler updates. */
  datatype ProfileUpdate = ProfileUpdate(
    displayName: Option<string>,
    bio: Option<string>,
    theme: string,
    username: string,
    isPublic: bool)

  /** `value || null`. */
  function OrNull(value: string): (r: Option<string>)
    ensures r.None? <==> value == ""
    ensures r.Some? ==> r.value == value
  {
    if value == "" then None else Some(value)
  }

  function UpdateFor(displayName: string, bio: string, theme: string, username: string, isPublic: bool): (u: ProfileUpdate)
    ensures u.displayName == OrNull(displayName) && u.bio == OrNull(bio)
    ensures u.theme == theme && u.username == StoredUsername(username) && u.isPublic == isPublic
  {
    ProfileUpdate(OrNull(displayName), OrNull(bio), theme, StoredUsername(username), isPublic)
  }

  /** The name the save handler looks up before updating, if any: the
      username exactly as typed, and only when it differs from the current
      one. */
  function LookedUp(username: string, current: string): (r: Option<string>)
    ensures r.Some? <==> username != current
    ensures r.Some? ==> r.value == username
  {
    if username != current then Some(username) else None
  }

  /** The lookup `.eq('username', name).neq('id', profile.id).single()`
      yields a row exactly when another profile holds `name` (usernames are
      unique), where `others` is the set of usernames of all other
      profiles. */
  predicate Taken(lookup: Option<string>, others: set<string>) {
    lookup.Some? && lookup.value in others
  }

  /** Checking the typed name while storing its normalised form lets a
      save through that stores a name another profile already holds. */
  lemma AsWrittenStoresTakenName()
    ensures var others := {"alice"};
      !Taken(LookedUp("Alice", "me"), others) && StoredUsername("Alice") in others
  {
    var typed := "Alice";
    assert typed[0] == 'A' && typed[1] == 'l' && typed[2] == 'i' && typed[3] == 'c' && typed[4] == 'e';
    forall i | 0 <= i < |typed| ensures !IsWhitespace(typed[i]) {
      assert 'A' <= typed[i] <= 'z';
    }
    TrimNoWhitespace(typed);
    var lower := ToLower(typed);
    assert lower[0] == 'a' && lower[1] == 'l' && lower[2] == 'i' && lower[3] == 'c' && lower[4] == 'e';
    assert lower == "alice";
  }

  /** For a name typed the way it is stored (valid and already lower
      case), the lookup as written is enough: a save that gets past it
      never stores a name held by another profile. */
  lemma AsWrittenSoundWhenLowerCase(username: string, current: string, others: set<string>)
    requires ValidUsername(username) && ToLower(username) == username
    requires current !in others
    requires !Taken(LookedUp(username, current), others)
    ensures StoredUsername(username) !in others
  {
    ValidUsernameStored(username);
  }

  /** The lookup as evidently intended: the name that will be stored, when
      it differs from the current one. */
  function LookedUpStored(username: string, current: string): (r: Option<string>)
    ensures r.Some? <==> StoredUsername(username) != current
    ensures r.Some? ==> r.value == StoredUsername(username)
  {
    LookedUp(StoredUsername(username), current)
  }

  /** With that lookup, a save that gets past it never stores a name held
      by another profile. */
  lemma CorrectedNeverStoresTakenName(username: string, current: string, others: set<string>)
    requires current !in others
    requires !Taken(LookedUpStored(username, current), others)
    ensures StoredUsername(username) !in others
  {
  }

  const UsernameTaken: string := "Username is already taken"
  const SaveFailed: string := "Failed to update settings"
  const Saved: string := "Settings updated successfully!"
  const AvatarFailed: string := "Failed to upload profile picture"
  const AvatarSaved: string := "Profile picture updated!"

  /** `error.message || 'Failed to update settings'`. */
  function SaveError(message: string): (r: string)
    ensures r != ""
    ensures message != "" ==> r == message
  {
    if message != "" then message else SaveFailed
  }

  /** `` `${profile.id}/avatar.${file.name.split('.').pop()}` ``: the
      profile's folder, then `avatar.` and the extension. */
  function AvatarPath(profileId: string, fileName: string): (path: string)
    ensures StartsWith(path, profileId + "/avatar.")
    ensures path[|profileId| + 8..] == AfterLast(fileName, '.')
  {
    var path := profileId + "/avatar." + AfterLast(fileName, '.');
    assert path[..|profileId + "/avatar."|] == profileId + "/avatar.";
    path
  }

  /** The extension is the text after the last dot of the file name, or
      the whole name when it has no dot; it never contains a dot. */
  lemma AvatarExtension(profileId: string, fileName: string)
    ensures var ext := AvatarPath(profileId, fileName)[|profileId| + 8..];
      '.' !in ext && |ext| <= |fileName| && ext == fileName[|fileName| - |ext|..]
      && ('.' !in fileName ==> ext == fileName)
      && ('.' in fileName ==> fileName[|fileName| - |ext| - 1] == '.')
  {
    AfterLastSpec(fileName, '.');
  }

  /** The extension is what follows the last dot. */
  lemma AvatarPathExample()
    ensures AvatarPath("u1", "me.photo.png") == "u1/avatar.png"
  {
    var png := "me.photo.png";
    assert png[8] == '.' && png[9] != '.' && png[10] != '.' && png[11] != '.';
    assert LastIndexOf(png, '.') == 8;
    assert AfterLast(png, '.') == png[9..] == "png";
  }

  /** A file name without a dot is used whole as the extension. */
  lemma AvatarPathNoDotExample()
    ensures AvatarPath("u1", "photo") == "u1/avatar.photo"
  {
    var plain := "photo";
    assert plain[0] == 'p' && plain[1] == 'h' && plain[2] == 'o' && plain[3] == 't' && plain[4] == 'o';
    assert LastIndexOf(plain, '.') == -1;
    assert AfterLast(plain, '.') == plain[0..] == plain;
  }

  class SettingsModal {
    const profile: Profile
    var activeTab: Tab
    var displayName: string
    var bio: string
    var selectedTheme: string
    var username: string
    var isPublic: bool
    var isLoading: bool
    var uploadingAvatar: bool
    var error: string
    var success: string
    /** The profile updates sent by Save, oldest first. */
    var updates: seq<ProfileUpdate>
    /** The storage paths uploaded to, and the avatar URLs written. */
    var uploads: seq<string>
    var avatarUpdates: seq<string>
    /** What was handed to `onUpdate` (`None` for a null row). */
    var updated: seq<Option<Profile>>

    /** The form starts from the profile: `display_name || ''`,
        `bio || ''`, `theme || 'default'`, `username || ''`. */
    constructor(profile: Profile)
      ensures this.profile == profile && activeTab == ProfileTab
      ensures displayName == (if profile.displayName.Some? then profile.displayName.value else "")
      ensures bio == (if profile.bio.Some? then profile.bio.value else "")
      ensures selectedTheme == (if profile.theme != "" then profile.theme else "default")
      ensures username == profile.username && isPublic == profile.isPublic
      ensures !isLoading && !uploadingAvatar && error == "" && success == ""
      ensures updates == [] && uploads == [] && avatarUpdates == [] && updated == []
    {
      this.profile := profile;
      activeTab := ProfileTab;
      displayName := if profile.displayName.Some? then profile.displayName.value else "";
      bio := if profile.bio.Some? then profile.bio.value else "";
      selectedTheme := if profile.theme != "" then profile.theme else "default";
      username := profile.username;
      isPublic := profile.isPublic;
      isLoading, uploadingAvatar := false, false;
      error, success := "", "";
      updates, uploads, avatarUpdates, updated := [], [], [], [];
    }

    /** Every avatar is uploaded under the profile's own folder. */
    predicate Valid()
      reads this`uploads
    {
      forall i | 0 <= i < |uploads| :: StartsWith(uploads[i], profile.id + "/avatar.")
    }

    /** `disabled={isLoading || (activeTab === 'account' && !validateUsername(username))}`. */
    predicate SaveDisabled(): (r: bool)
      reads this`isLoading, this`activeTab, this`username
      ensures activeTab != AccountTab ==> (r <==> isLoading)
      ensures activeTab == AccountTab && !isLoading ==> (r <==> !ValidUsername(username))
      ensures !r ==> !isLoading
    {
      isLoading || (activeTab == AccountTab && !ValidUsername(username))
    }

    /** `handleSave`: `others` holds the usernames of all other profiles
        and `reply` is what the update returned. The availability lookup
        is made for the username as typed (LookedUp), while the update
        stores its normalised form; HandleSaveCorrected looks up the
        stored form instead. */
    method HandleSave(others: set<string>, reply: Reply<Profile>)
      modifies this`isLoading, this`error, this`success, this`updates, this`updated
      ensures !isLoading
      ensures Taken(LookedUp(username, profile.username), others) ==>
        error == UsernameTaken && success == "" && updates == old(updates) && updated == old(updated)
      ensures !Taken(LookedUp(username, profile.username), others) ==>
        updates == old(updates) + [UpdateFor(displayName, bio, selectedTheme, username, isPublic)]
        && match reply
           case Returned(data) => updated == old(updated) + [data] && error == "" && success == Saved
           case Failed(message) => updated == old(updated) && error == SaveError(message) && success == ""
           case Threw(message) => updated == old(updated) && error == SaveError(message) && success == ""
    {
      isLoading := true;
      error := "";
      success := "";
      if username != profile.username {
        if username in others {
          error := UsernameTaken;
          isLoading := false;
          return;
        }
      }
      SendUpdate(reply);
      isLoading := false;
    }

    /** `handleSave` with the availability lookup made for the name that
        is stored (LookedUpStored): when the current name is free, a save
        never stores another profile's name. */
    method HandleSaveCorrected(others: set<string>, reply: Reply<Profile>)
      modifies this`isLoading, this`error, this`success, this`updates, this`updated
      ensures !isLoading
      ensures Taken(LookedUpStored(username, profile.username), others) ==>
        error == UsernameTaken && success == "" && updates == old(updates) && updated == old(updated)
      ensures !Taken(LookedUpStored(username, profile.username), others) && profile.username !in others ==>
        StoredUsername(username) !in others
      ensures !Taken(LookedUpStored(username, profile.username), others) ==>
        updates == old(updates) + [UpdateFor(displayName, bio, selectedTheme, username, isPublic)]
        && match reply
           case Returned(data) => updated == old(updated) + [data] && error == "" && success == Saved
           case Failed(message) => updated == old(updated) && error == SaveError(message) && success == ""
           case Threw(message) => updated == old(updated) && error == SaveError(message) && success == ""
    {
      isLoading := true;
      error := "";
      success := "";
      if Taken(LookedUpStored(username, profile.username), others) {
        error := UsernameTaken;
        isLoading := false;
        return;
      }
      if profile.username !in others {
        CorrectedNeverStoresTakenName(username, profile.username, others);
      }
      SendUpdate(reply);
      isLoading := false;
    }

    /** The profile update itself: the form's fields are written and the
        reply applied. */
    method SendUpdate(reply: Reply<Profile>)
      requires error == "" && success == ""
      modifies this`error, this`success, this`updates, this`updated
      ensures updates == old(updates) + [UpdateFor(displayName, bio, selectedTheme, username, isPublic)]
      ensures match reply
        case Returned(data) => updated == old(updated) + [data] && error == "" && success == Saved
        case Failed(message) => updated == old(updated) && error == SaveError(message) && success == ""
        case Threw(message) => updated == old(updated) && error == SaveError(message) && success == ""
    {
      updates := updates + [UpdateFor(displayName, bio, selectedTheme, username, isPublic)];
      ApplySaveReply(reply);
    }

    /** What the update's reply does to a save: the row is handed on with
        the success text, or its error message is shown. */
    method ApplySaveReply(reply: Reply<Profile>)
      requires error == "" && success == ""
      modifies this`error, this`success, this`updated
      ensures match reply
        case Returned(data) => updated == old(updated) + [data] && error == "" && success == Saved
        case Failed(message) => updated == old(updated) && error == SaveError(message) && success == ""
        case Threw(message) => updated == old(updated) && error == SaveError(message) && success == ""
    {
      match reply {
        case Returned(data) =>
          updated := updated + [data];
          success := Saved;
        case Failed(message) =>
          error := SaveError(message);
        case Threw(message) =>
          error := SaveError(message);
      }
    }

    /** `handleAvatarUpload`: `fileName` is the chosen file's name (`None`
        when no file was chosen), `upload` what the storage upload
        returned, `publicUrl` the URL storage gives for the path, and
        `reply` what the profile update returned. */
    method HandleAvatarUpload(fileName: Option<string>, upload: Status, publicUrl: string -> string, reply: Reply<Profile>)
      requires Valid()
      modifies this`uploadingAvatar, this`error, this`success, this`uploads, this`avatarUpdates, this`updated
      ensures Valid()
      ensures fileName.None? ==>
        uploadingAvatar == old(uploadingAvatar) && error == old(error) && success == old(success)
        && uploads == old(uploads) && avatarUpdates == old(avatarUpdates) && updated == old(updated)
      ensures fileName.Some? ==>
        var path := AvatarPath(profile.id, fileName.value);
        !uploadingAvatar && uploads == old(uploads) + [path]
        && (upload != Ok ==>
              avatarUpdates == old(avatarUpdates) && updated == old(updated)
              && error == AvatarFailed && success == old(success))
        && (upload == Ok ==>
              avatarUpdates == old(avatarUpdates) + [publicUrl(path)]
              && (reply.Returned? ==>
                    updated == old(updated) + [reply.data] && error == old(error) && success == AvatarSaved)
              && (!reply.Returned? ==>
                    updated == old(updated) && error == AvatarFailed && success == old(success)))
    {
      if fileName.None? {
        return;
      }
      uploadingAvatar := true;
      var path := AvatarPath(profile.id, fileName.value);
      uploads := uploads + [path];
      forall i | 0 <= i < |uploads| ensures StartsWith(uploads[i], profile.id + "/avatar.") {
        if i < |uploads| - 1 {
          assert uploads[i] == old(uploads)[i];
        }
      }
      StoreAvatar(path, upload, publicUrl, reply);
      uploadingAvatar := false;
    }

    /** The part of an avatar upload after the file is sent: on success
        the public URL is written to the profile and the row handed on;
        a failure of either step shows the error. */
    method StoreAvatar(path: string, upload: Status, publicUrl: string -> string, reply: Reply<Profile>)
      modifies this`error, this`success, this`avatarUpdates, this`updated
      ensures upload != Ok ==>
        avatarUpdates == old(avatarUpdates) && updated == old(updated)
        && error == AvatarFailed && success == old(success)
      ensures upload == Ok ==>
        avatarUpdates == old(avatarUpdates) + [publicUrl(path)]
        && (reply.Returned? ==>
              updated == old(updated) + [reply.data] && error == old(error) && success == AvatarSaved)
        && (!reply.Returned? ==>
              updated == old(updated) && error == AvatarFailed && success == old(success))
    {
      if upload != Ok {
        error := AvatarFailed;
      } else {
        avatarUpdates := avatarUpdates + [publicUrl(path)];
        if reply.Returned? {
          updated := updated + [reply.data];
          success := AvatarSaved;
        } else {
          error := AvatarFailed;
        }
      }
    }
  }
}
