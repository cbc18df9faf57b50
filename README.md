# BioLink core, modelled in Dafny

BioLink is a link-in-bio application. A signed-in user keeps a profile with a list of links. The links can be grouped into collections and reordered by drag and drop. The dashboard also shows a live phone-sized preview of the public page, and a small API route counts clicks on links.

This project models the application's core:

- the records it works on, and the fixed table of themes;
- the links tab of the dashboard: its bucket views, the drop handler and the collection operations;
- the preview panel;
- the add-link, edit-link, add-collection and settings dialogs;
- the combined sign-up / sign-in form, and the sign-in-only form;
- the authentication callback route;
- the dashboard page loader;
- the click-tracking route.

The hosted database, the authentication service and file storage are not modelled as code. Each answer they give becomes a parameter of the handler that receives it:

- a row or an error (`Store.Reply`);
- a status (`Store.Status`);
- an authentication reply (`AuthMessages.AuthReply`);
- a session (`AuthCallback.Session`);
- a query result (`DashboardPage.Query`).

In the client components (the links tab, the dialogs and the two forms), every write and every authentication request a handler sends is appended to a log field, in order; so are the username lookups of the sign-up form. The log is the store's side of the contract. The server routes and the dashboard page are functions instead, and their writes (the profile insert, the click-count call) are part of the outcome they return. The other reads are parameters only and are not logged: the settings dialog's availability lookup, the next-position queries of both add dialogs, the callback's profile check, and the dashboard page's queries.

## Files and modules

- `types.dfy`, module `Types`: the records and the theme table.
- `strings.dfy`, module `Strings`: the string methods the source relies on (`startsWith`, `includes`, `trim`, `toLowerCase`, and `split` on one character).
- `ordering.dfy`, module `Ordering`: `filter`, `map`, and the stable sort by `position`.
- `array_move.dfy`, module `Sortable`: the drag-and-drop library's `arrayMove`.
- `buckets.dfy`, module `Buckets`: which links each view selects, `findIndex`, distinct ids, and the set of expanded collections.
- `store.dfy`, module `Store`: the reply types, and the "next position" rule.
- `links_tab.dfy`, module `LinksTab`: the links tab; the class `LinksBoard` holds its state.
- `preview_panel.dfy`, module `PreviewPanel`: the preview.
- `link_url.dfy`, module `LinkUrl`: `validateUrl`, shared by both link dialogs.
- `add_link_modal.dfy`, `edit_link_modal.dfy`, `add_collection_modal.dfy`, `settings_modal.dfy`: the dialogs, one class each.
- `auth_messages.dfy`, module `AuthMessages`: the error texts and their mapping, which both sign-in forms share.
- `auth_form.dfy`, `login_form.dfy`: the two forms, one class each.
- `auth_callback.dfy`, module `AuthCallback`: the callback route. The redirect URL is a class that the handler changes in place.
- `dashboard_page.dfy`, module `DashboardPage`: the server page.
- `track_click.dfy`, module `TrackClick`: the click-tracking route.

## Model

| member | source | states |
|---|---|---|
| Types.ThemesTable | src/types/index.ts:57-106 | the theme table has six entries with pairwise distinct ids, in the order default, dark, purple, blue, green, pink; `default` comes first |
| Types.ThemeIds | src/types/index.ts:48-55 | the id column of a theme list: same length, the i-th id is the i-th theme's id |
| Strings.TrimSpec | src/app/dashboard/components/AddCollectionModal.tsx:29 | `trim()` returns a slice of its input; everything cut off at either end is white space |
| Strings.TrimEnds | src/app/dashboard/components/AddCollectionModal.tsx:53-54 | a trimmed string is empty, or neither starts nor ends with white space |
| Strings.TrimEmptyIff | src/app/dashboard/components/AddCollectionModal.tsx:29 | a string trims to empty exactly when all its characters are white space (both directions) |
| Strings.TrimIdempotent | src/app/dashboard/components/AddCollectionModal.tsx:53 | trimming twice equals trimming once |
| Strings.ToLower | src/app/dashboard/components/SettingsModal.tsx:72 | lower-casing keeps the length and maps every character by the ASCII case rule |
| Strings.TrimToLowerCommute | src/app/dashboard/components/SettingsModal.tsx:72 | `toLowerCase().trim()` equals `trim().toLowerCase()` |
| Strings.BeforeFirst | src/app/auth/AuthForm.tsx:24 | `split(sep)[0]` is a prefix of the input with no separator in it, and it stops exactly at the first separator |
| Strings.AfterLast | src/app/dashboard/components/SettingsModal.tsx:97 | `split(sep).pop()` is a suffix of the input |
| Strings.AfterLastSpec | src/app/dashboard/components/SettingsModal.tsx:97 | the last field holds no separator; a separator precedes it unless it is the whole string; a string without the separator is returned whole |
| Ordering.FilterMembers | src/app/dashboard/components/tabs/LinksTab.tsx:476 | `filter(p)` keeps exactly the elements that satisfy `p` |
| Ordering.FilterMultiset | src/app/dashboard/components/tabs/LinksTab.tsx:400-401 | filtering keeps each satisfying element exactly as often as it occurs |
| Ordering.SortSpec | src/app/dashboard/components/tabs/LinksTab.tsx:139-140 | `sort((a, b) => a.position - b.position)` gives a permutation of its input, in ascending position |
| Ordering.SortSorted | src/app/dashboard/components/tabs/LinksTab.tsx:139-140 | the sorted list is in ascending position order |
| Ordering.SortPermutes | src/app/dashboard/components/tabs/LinksTab.tsx:139-140 | the sorted list holds exactly the input links, each as often as before |
| Ordering.SortStable | src/app/dashboard/components/tabs/LinksTab.tsx:139-140 | the sort is stable: links with equal positions keep their relative order |
| Ordering.FilterSortCommute | src/app/dashboard/components/PreviewPanel.tsx:17-54 | filtering the sorted list equals sorting the filtered list |
| Ordering.SortedUnique | src/app/dashboard/components/tabs/LinksTab.tsx:400-402 | a sorted arrangement of links whose positions are distinct is unique |
| Sortable.ArrayMoveAt | src/app/dashboard/components/tabs/LinksTab.tsx:408 | `arrayMove(s, from, to)` keeps the length; the moved element lands at `to`, the elements between the two indices shift by one, and all others stay |
| Sortable.ArrayMovePermutes | src/app/dashboard/components/tabs/LinksTab.tsx:408 | `arrayMove` gives a permutation of its input |
| Sortable.ArrayMoveInverse | src/app/dashboard/components/tabs/LinksTab.tsx:458 | moving from `to` back to `from` restores the input |
| Sortable.ArrayMoveExample | src/app/dashboard/components/tabs/LinksTab.tsx:458 | moving index 2 to 0 in [A, B, C] gives [C, A, B]; moving 0 to 2 gives [B, C, A] |
| Buckets.IndexOfId | src/app/dashboard/components/tabs/LinksTab.tsx:404-405 | `findIndex` by id over a list of ids: the first index holding the id, and -1 exactly when the id is absent |
| Buckets.IndexOfLink | src/app/dashboard/components/tabs/LinksTab.tsx:404-405 | `findIndex` returns the first index holding the id, and -1 exactly when the id is absent |
| Buckets.IndexOfCollection | src/app/dashboard/components/tabs/LinksTab.tsx:455-456 | `findIndex` over collections returns the first index holding the id, and -1 exactly when the id is absent |
| Buckets.IndexOfDistinct | src/app/dashboard/components/tabs/LinksTab.tsx:413 | when ids are distinct, `findIndex` for the id of element i returns i |
| Buckets.FilterDistinct | src/app/dashboard/components/tabs/LinksTab.tsx:400-401 | filtering keeps link ids distinct |
| Buckets.SortDistinct | src/app/dashboard/components/tabs/LinksTab.tsx:402 | sorting keeps link ids distinct |
| Buckets.ArrayMoveDistinct | src/app/dashboard/components/tabs/LinksTab.tsx:408 | `arrayMove` keeps link ids distinct |
| Buckets.ArrayMoveCollectionsDistinct | src/app/dashboard/components/tabs/LinksTab.tsx:458 | `arrayMove` keeps collection ids distinct |
| Buckets.ExpandAll | src/app/dashboard/components/tabs/LinksTab.tsx:235-241 | the expanded set holds exactly the ids of the listed collections |
| Buckets.Toggled | src/app/dashboard/components/tabs/LinksTab.tsx:342-350 | toggling flips the membership of one id and leaves every other id alone |
| Buckets.ToggleTwice | src/app/dashboard/components/PreviewPanel.tsx:43-51 | toggling the same id twice restores the set |
| Store.Max | src/app/dashboard/components/AddLinkModal.tsx:61-62 | the first row of a descending `order` holds the largest position |
| Store.NextPosition | src/app/dashboard/components/AddLinkModal.tsx:57-64 | 0 when there are no rows; otherwise one more than the largest position, so larger than every existing position |
| Store.NextPositionFresh | src/app/dashboard/components/AddCollectionModal.tsx:38-46 | the next position is not taken; it is not negative when no existing position is; after positions 0..n-1 it is n |
| LinksTab.FindLink | src/app/dashboard/components/tabs/LinksTab.tsx:377 | `find` returns a link carrying the id, and none exactly when no link has it |
| LinksTab.FindCollection | src/app/dashboard/components/tabs/LinksTab.tsx:378 | `find` returns a listed collection carrying the id, and none exactly when no collection has it |
| LinksTab.BucketOrderSpec | src/app/dashboard/components/tabs/LinksTab.tsx:139-140 | a collection's list holds exactly the links whose `collection_id` strictly equals its id, with their multiplicities, in ascending position |
| LinksTab.UngroupedViewSpec | src/app/dashboard/components/tabs/LinksTab.tsx:476-477 | the ungrouped list holds exactly the links with a falsy `collection_id` (missing, null or empty), in ascending position |
| LinksTab.AllItemsSpec | src/app/dashboard/components/tabs/LinksTab.tsx:483-486 | the sortable items are all collection ids first, then exactly the ids of the ungrouped links |
| LinksTab.ReplaceLink | src/app/dashboard/components/tabs/LinksTab.tsx:244-246 | the edited link replaces every entry with its id; all other entries are unchanged |
| LinksTab.ReplaceLinkFound | src/app/dashboard/components/tabs/LinksTab.tsx:243-249 | after an edit, the id is found exactly when it was found before, and it then yields the edited link; applying the edit again changes nothing |
| LinksTab.RemoveLinkSpec | src/app/dashboard/components/tabs/LinksTab.tsx:263 | deletion keeps exactly the links with another id, and the deleted id is no longer found |
| LinksTab.RemoveCollectionSpec | src/app/dashboard/components/tabs/LinksTab.tsx:297 | deletion keeps exactly the collections with another id |
| LinksTab.ExpandAllIncluded | src/app/dashboard/components/tabs/LinksTab.tsx:235-241 | a list whose collections all appear in another has its ids among the other's |
| LinksTab.ExpandAllPermutation | src/app/dashboard/components/tabs/LinksTab.tsx:235-241 | reordering the collections does not change the set the effect expands |
| LinksTab.ExpandAllAppend | src/app/dashboard/components/tabs/LinksTab.tsx:270-274 | after an added collection the effect expands the old ids plus the new id, the same set as the handler's own update when every card was expanded |
| LinksTab.ExpandAllRemove | src/app/dashboard/components/tabs/LinksTab.tsx:296-301 | after a deleted collection the effect expands the old ids less the deleted one |
| LinksTab.EditDialogDeletesTwice | src/app/dashboard/components/tabs/LinksTab.tsx:251-265 | as written, a delete confirmed in the edit dialog and confirmed again sends a second delete of the same row |
| LinksTab.EditDialogDeleteStale | src/app/dashboard/components/tabs/LinksTab.tsx:251-252 | as written, declining the second confirmation sends nothing more and keeps the link listed, although the dialog already deleted its row |
| LinksTab.EditDialogDeleteCorrectedSpec | src/app/dashboard/components/tabs/LinksTab.tsx:251-265 | corrected: the link leaves the list exactly when the store deleted its row, every other link stays, and the link is no longer found |
| LinksTab.Ungrouped | src/app/dashboard/components/tabs/LinksTab.tsx:305-309 | the collection's members get `collection_id: null`; no other field and no other link changes |
| LinksTab.UngroupedSpec | src/app/dashboard/components/tabs/LinksTab.tsx:331-335 | after ungrouping, the collection's list is empty and its former members are in the ungrouped list; ungrouping is idempotent |
| LinksTab.WithCollection | src/app/dashboard/components/tabs/LinksTab.tsx:442-446 | only the dragged link's `collection_id` changes |
| LinksTab.Renumbered | src/app/dashboard/components/tabs/LinksTab.tsx:411-417 | a reorder changes only the positions, and only in the reordered bucket |
| LinksTab.Numbered | src/app/dashboard/components/tabs/LinksTab.tsx:421-426 | the i-th link of an order gets position i, so the result is strictly ascending |
| LinksTab.LinkPositionWrites | src/app/dashboard/components/tabs/LinksTab.tsx:421-426 | one write `position = i` for the i-th link, in order |
| LinksTab.CollectionPositionWrites | src/app/dashboard/components/tabs/LinksTab.tsx:462-467 | one write `position = i` for the i-th collection, in order |
| LinksTab.RenumberedBucket | src/app/dashboard/components/tabs/LinksTab.tsx:408-418 | renumbering a bucket after any rearrangement of its members lists it in exactly that order, with positions 0..n-1 |
| LinksTab.RenumberedMatchesWrites | src/app/dashboard/components/tabs/LinksTab.tsx:411-426 | the local new position of every member is the position written to the store for it |
| LinksTab.DropTargets | src/app/dashboard/components/tabs/LinksTab.tsx:385-397 | a collection target wins; then `'ungrouped'` means null; then a link of another bucket gives that link's collection id; an unknown target keeps the current one; a reorder happens only over a link of the same bucket |
| LinksTab.SameBucketDropReorders | src/app/dashboard/components/tabs/LinksTab.tsx:399-408 | a drop on a link of the same bucket always reorders, and the dragged link ends up at the index of the link under it |
| LinksTab.ReorderPermutesBucket | src/app/dashboard/components/tabs/LinksTab.tsx:400-408 | a reorder rearranges exactly the members of the bucket and keeps their ids distinct |
| LinksTab.CollectionDrop | src/app/dashboard/components/tabs/LinksTab.tsx:451-459 | a collection reorder happens exactly when both ids are collections, and it permutes the list |
| LinksTab.CollectionDropInverse | src/app/dashboard/components/tabs/LinksTab.tsx:454-459 | dragging the collection back onto the one now at its old index restores the list |
| LinksTab.ThenCollectionsResult | src/app/dashboard/components/tabs/LinksTab.tsx:451-469 | the collection step leaves the links alone and adds the collection writes only when it reorders |
| LinksTab.DragEndReorderResult | src/app/dashboard/components/tabs/LinksTab.tsx:407-427 | a link reorder ends the handler: it renumbers the bucket and issues only its position writes |
| LinksTab.DragEndMoveResult | src/app/dashboard/components/tabs/LinksTab.tsx:432-448 | a link move rewrites the link's collection, issues one write, then goes on to the collection step |
| LinksTab.DragEndNoLinkResult | src/app/dashboard/components/tabs/LinksTab.tsx:380-469 | when no link is dragged, only the collection step applies |
| LinksTab.DragEndSameBucket | src/app/dashboard/components/tabs/LinksTab.tsx:399-418 | after a same-bucket drop, the bucket is listed in `arrayMove` order with positions 0..n-1, and the dragged link sits at the target index |
| LinksTab.DragEndSameBucketWrites | src/app/dashboard/components/tabs/LinksTab.tsx:411-427 | a same-bucket drop leaves other buckets and the collections alone, writes `position = i` per member, and each member's local position is the one written |
| LinksTab.ReorderedView | src/app/dashboard/components/tabs/LinksTab.tsx:408-426 | a planned reorder lists the bucket in the planned order, and every member's position is the one written for it |
| LinksTab.DragEndMove | src/app/dashboard/components/tabs/LinksTab.tsx:433-447 | a move changes only the link's collection id, issues exactly one write, and keeps every position; the link is then listed in the target bucket and in no other |
| LinksTab.MovedLinkLists | src/app/dashboard/components/tabs/LinksTab.tsx:442-447 | a link given a collection id is listed in that bucket, and in no other when ids are distinct |
| LinksTab.DragEndCollections | src/app/dashboard/components/tabs/LinksTab.tsx:451-468 | a collection drop permutes the collections and puts the dragged one at the target index; it writes `position = i` for the new order and leaves the links alone |
| LinksTab.DragEndNoTarget | src/app/dashboard/components/tabs/LinksTab.tsx:366-371 | a drop over nothing, or over the dragged item itself, changes nothing and writes nothing |
| LinksTab.MissingAndNullAreDifferentBuckets | src/app/dashboard/components/tabs/LinksTab.tsx:399 | the ungrouped list shows links with a missing and a null collection id together, but the strict comparison turns a drop between them into a move, not a reorder |
| LinksTab.IssueLinkPositions | src/app/dashboard/components/tabs/LinksTab.tsx:421-426 | the reorder loop issues exactly the position writes of the new order, in increasing index |
| LinksTab.IssueCollectionPositions | src/app/dashboard/components/tabs/LinksTab.tsx:462-467 | the collection loop issues exactly the position writes of the new order |
| LinksTab.LinksBoard.constructor | src/app/dashboard/components/tabs/LinksTab.tsx:235-241 | the board starts from the given lists with every collection expanded, nothing dragged and no writes |
| LinksTab.LinksBoard.CollectionsChanged | src/app/dashboard/components/tabs/LinksTab.tsx:235-241 | the effect expands every collection again |
| LinksTab.LinksBoard.HandleDragStart | src/app/dashboard/components/tabs/LinksTab.tsx:352-354 | the dragged id is recorded |
| LinksTab.LinksBoard.HandleDragEnd | src/app/dashboard/components/tabs/LinksTab.tsx:362-473 | the new links, collections and write log are exactly the result of `DragEnd`, whose properties the DragEnd lemmas state; the dragged id is cleared; when the drop reorders the collections, the effect on `collections` (235-241) re-expands every card, otherwise the expanded set is kept |
| LinksTab.LinksBoard.DragLinkOnto | src/app/dashboard/components/tabs/LinksTab.tsx:380-473 | dragging a link onto another item leaves exactly the links, collections and writes that `DragEnd` gives for that drop; it reports a change of the collections exactly when the drop reorders them, and then the new list is a permutation of the old |
| LinksTab.LinksBoard.DropLink | src/app/dashboard/components/tabs/LinksTab.tsx:380-448 | it reorders exactly when the plan is a reorder; a reorder renumbers the bucket and appends its writes; a move rewrites the link and appends one write |
| LinksTab.LinksBoard.DropCollection | src/app/dashboard/components/tabs/LinksTab.tsx:450-469 | the collection step of the drop, as `ThenCollections`; it reports a change exactly when both ids are listed collections, and a changed list is a permutation of the old |
| LinksTab.LinksBoard.MoveCollection | src/app/dashboard/components/tabs/LinksTab.tsx:452-468 | the collections become the `arrayMove` of the old list, and one position write per index of the new list is appended |
| LinksTab.LinksBoard.HandleUpdateLink | src/app/dashboard/components/tabs/LinksTab.tsx:243-249 | the edited link replaces its entry, and the edit dialog closes |
| LinksTab.LinksBoard.HandleDeleteLink | src/app/dashboard/components/tabs/LinksTab.tsx:251-268 | without confirmation nothing happens; otherwise a delete is sent, and the link leaves the list only when the store reports no error |
| LinksTab.DeleteFromEditDialog | src/app/dashboard/components/tabs/LinksTab.tsx:657-663 | as written: the dialog's delete (EditLinkModal.tsx:83-106), then, when it calls `onDelete`, `handleDeleteLink` with its own confirmation and delete; the board's writes and list are `EditDialogDelete`, and the dialog stays open |
| LinksTab.DeleteFromEditDialogCorrected | src/app/dashboard/components/tabs/LinksTab.tsx:657-663 | corrected: the dialog's delete, then `onDelete` drops the link from the list without a second delete and closes the dialog |
| LinksTab.LinksBoard.HandleAddCollection | src/app/dashboard/components/tabs/LinksTab.tsx:270-274 | the collection is appended and the dialog closes; with the effect on `collections` that follows (235-241), the expanded set is every old id plus the new one |
| LinksTab.LinksBoard.HandleDeleteCollection | src/app/dashboard/components/tabs/LinksTab.tsx:276-314 | once confirmed, it ungroups the members and then deletes the row, whatever the ungroup returns; only a clean delete removes the collection and ungroups its links locally, and the effect that follows leaves every other id expanded |
| LinksTab.LinksBoard.HandleUngroupCollection | src/app/dashboard/components/tabs/LinksTab.tsx:316-340 | once confirmed, one ungroup write is sent; the links are ungrouped locally only on success |
| LinksTab.LinksBoard.ToggleCollection | src/app/dashboard/components/tabs/LinksTab.tsx:342-350 | the expanded set becomes `Toggled` of the old one |
| LinksTab.LinksBoard.AddLink | src/app/dashboard/components/tabs/LinksTab.tsx:639-642 | the new link is appended and the add dialog closes |
| PreviewPanel.FindTheme | src/app/dashboard/components/PreviewPanel.tsx:16 | `find` returns a theme with that id, and none exactly when no theme has it |
| PreviewPanel.SelectTheme | src/app/dashboard/components/PreviewPanel.tsx:16 | the theme is always one of the table; it is the profile's theme when that exists, else the first entry |
| PreviewPanel.UnknownThemeIsDefault | src/app/dashboard/components/PreviewPanel.tsx:16 | an unknown theme id falls back to `default` |
| PreviewPanel.ActiveLinksSpec | src/app/dashboard/components/PreviewPanel.tsx:17 | the preview shows exactly the active links, in ascending position |
| PreviewPanel.UngroupedSectionSpec | src/app/dashboard/components/PreviewPanel.tsx:54 | the ungrouped section is exactly the active links with a falsy collection id, sorted by position |
| PreviewPanel.GroupedSectionHas | src/app/dashboard/components/PreviewPanel.tsx:55-58 | a collection gets a group exactly when it is listed and some active link carries its id |
| PreviewPanel.GroupedSectionContents | src/app/dashboard/components/PreviewPanel.tsx:55-58 | every group belongs to a listed collection, is non-empty and sorted, and holds exactly that collection's active links |
| PreviewPanel.GroupKept | src/app/dashboard/components/PreviewPanel.tsx:55-58 | a collection's group survives the `length > 0` filter exactly when some active link carries its id |
| PreviewPanel.GroupedSectionOrder | src/app/dashboard/components/PreviewPanel.tsx:55-58 | the groups' collections, in order, are exactly the listed collections that some active link carries, in the order of `collections`, one group per entry |
| PreviewPanel.OrphanedLinkHidden | src/app/dashboard/components/PreviewPanel.tsx:54-58 | an active link whose collection id names no listed collection appears nowhere |
| PreviewPanel.EmptyStateSpec | src/app/dashboard/components/PreviewPanel.tsx:201 | the empty state shows exactly when no link is active |
| PreviewPanel.AvatarInitial | src/app/dashboard/components/PreviewPanel.tsx:101 | one character: the upper-cased first character of the display name, else of the username, else `U` |
| PreviewPanel.AvatarInitialNotLower | src/app/dashboard/components/PreviewPanel.tsx:101 | the initial is never a lower-case ASCII letter |
| PreviewPanel.Heading | src/app/dashboard/components/PreviewPanel.tsx:111 | the heading is the display name when it is set, else `@` followed by the username |
| LinkUrl.WithScheme | src/app/dashboard/components/AddLinkModal.tsx:23-38 | the candidate always has a scheme; input that already has one is unchanged; other input is prefixed with `https://` |
| LinkUrl.ValidateUrl | src/app/dashboard/components/AddLinkModal.tsx:23-38 | empty input gives empty; a non-empty result is the candidate and the parser accepts it; a candidate the parser accepts is returned |
| LinkUrl.ValidateUrlIdempotent | src/app/dashboard/components/EditLinkModal.tsx:26-41 | validating an accepted URL again returns it unchanged |
| LinkUrl.ValidateUrlKeepsInput | src/app/dashboard/components/EditLinkModal.tsx:26-41 | a non-empty result is the input, or `https://` followed by the input |
| LinkUrl.ValidateUrlExamples | src/app/dashboard/components/AddLinkModal.tsx:23-38 | `example.com` becomes `https://example.com`; `http://example.com` is kept; empty stays empty |
| AddLinkModal.Payload | src/app/dashboard/components/AddLinkModal.tsx:66-77 | the insert payload: the title, or `Untitled` when it is empty; the validated URL; the user; the next position; active |
| AddLinkModal.OrElse | src/app/dashboard/components/AddLinkModal.tsx:88-89 | `value` when it is set and non-empty, else the fallback |
| AddLinkModal.Completed | src/app/dashboard/components/AddLinkModal.tsx:84-90 | the link handed on is the returned row, with `click_count` defaulting to 0 and the timestamps defaulting to now |
| AddLinkModal.CompletedFromPayload | src/app/dashboard/components/AddLinkModal.tsx:66-91 | a row read back for a payload gives an active, titled, ungrouped link with that payload's fields |
| AddLinkModal.AddLinkModal.HandleSubmit | src/app/dashboard/components/AddLinkModal.tsx:40-99 | a rejected URL gives the validation error and sends nothing; otherwise one payload is inserted at the next position, and the completed link is handed on only when the insert returns a row; every insert stays active and titled |
| AddLinkModal.AddLinkModal.SubmitDisabled | src/app/dashboard/components/AddLinkModal.tsx:169 | the button is enabled exactly when no insert is running and the URL has a non-whitespace character |
| EditLinkModal.UpdateFor | src/app/dashboard/components/EditLinkModal.tsx:57-66 | the update carries the title (or `Untitled`), the validated URL and the timestamp, for this link's id |
| EditLinkModal.Applied | src/app/dashboard/components/EditLinkModal.tsx:57-66 | applying an update changes the title, URL and `updated_at`, and nothing else |
| EditLinkModal.SaveKeepsPlacement | src/app/dashboard/components/EditLinkModal.tsx:57-66 | saving never changes a link's position, collection, visibility or click count |
| EditLinkModal.EditLinkModal.HandleSubmit | src/app/dashboard/components/EditLinkModal.tsx:43-81 | a rejected URL gives the error and sends nothing; otherwise one update for this link is sent, and the returned row is handed on; failures give their message |
| EditLinkModal.EditLinkModal.HandleDelete | src/app/dashboard/components/EditLinkModal.tsx:83-106 | without confirmation nothing changes; otherwise one delete for this link is sent, and its id is handed on only when the store reports no error |
| EditLinkModal.EditLinkModal.SaveDisabled | src/app/dashboard/components/EditLinkModal.tsx:190 | Save is enabled exactly when neither an update nor a delete is running and the URL has a non-whitespace character |
| EditLinkModal.EditLinkModal.DeleteDisabled | src/app/dashboard/components/EditLinkModal.tsx:170 | Delete is disabled while an update or a delete runs, and whenever Delete is disabled so is Save |
| AddCollectionModal.StoredDescription | src/app/dashboard/components/AddCollectionModal.tsx:54 | null exactly when the description is blank, otherwise the trimmed text |
| AddCollectionModal.Payload | src/app/dashboard/components/AddCollectionModal.tsx:50-58 | the insert payload: the trimmed title, the stored description, the user, the next position, active |
| AddCollectionModal.PayloadNormalised | src/app/dashboard/components/AddCollectionModal.tsx:53-54 | a stored title or description has no white space at either end, and normalising it again changes nothing |
| AddCollectionModal.AddCollectionModal.HandleSubmit | src/app/dashboard/components/AddCollectionModal.tsx:24-74 | a blank title gives the error and sends nothing; otherwise one payload is inserted at the next position, and the returned collection is handed on; every insert has a non-blank trimmed title |
| AddCollectionModal.AddCollectionModal.ApplyCreateReply | src/app/dashboard/components/AddCollectionModal.tsx:62-70 | an error shows `Failed to create collection: ` and its message, a thrown call the generic error, and only a returned row is handed to `onAdd` |
| AddCollectionModal.AddCollectionModal.SubmitDisabled | src/app/dashboard/components/AddCollectionModal.tsx:145 | the button is enabled exactly when no insert is running and the title has a non-whitespace character |
| SettingsModal.StoredUsernameSourceOrder | src/app/dashboard/components/SettingsModal.tsx:72 | the stored username is the lower-cased, trimmed input |
| SettingsModal.ValidUsernameStored | src/app/dashboard/components/SettingsModal.tsx:139-142 | a valid username is stored in its lower-case form, which is still valid |
| SettingsModal.OrNull | src/app/dashboard/components/SettingsModal.tsx:69-70 | null exactly for the empty string |
| SettingsModal.UpdateFor | src/app/dashboard/components/SettingsModal.tsx:68-74 | the update carries the display name and bio (null when empty), the theme, the stored username and the visibility |
| SettingsModal.LookedUp | src/app/dashboard/components/SettingsModal.tsx:51-57 | as written, the name looked up is the typed name, and only when it differs from the current one |
| SettingsModal.AsWrittenStoresTakenName | src/app/dashboard/components/SettingsModal.tsx:51-72 | as written, typing `Alice` while another profile holds `alice` passes the lookup, and `alice` is stored |
| SettingsModal.LookedUpStored | src/app/dashboard/components/SettingsModal.tsx:51-72 | corrected: the name looked up is the one that will be stored, when it differs from the current one |
| SettingsModal.CorrectedNeverStoresTakenName | src/app/dashboard/components/SettingsModal.tsx:51-72 | with the corrected lookup, a save that passes it never stores a name another profile holds |
| SettingsModal.SaveError | src/app/dashboard/components/SettingsModal.tsx:84 | the error shown is never empty, and it is the message when there is one |
| SettingsModal.AvatarPath | src/app/dashboard/components/SettingsModal.tsx:97-98 | the storage path is the profile's folder, then `avatar.`, then the extension |
| SettingsModal.AvatarExtension | src/app/dashboard/components/SettingsModal.tsx:97 | the extension has no dot; it is the whole file name when the name has no dot; otherwise it follows the last dot |
| SettingsModal.AvatarPathExample | src/app/dashboard/components/SettingsModal.tsx:97-98 | `me.photo.png` is stored as `u1/avatar.png` |
| SettingsModal.AvatarPathNoDotExample | src/app/dashboard/components/SettingsModal.tsx:97-98 | `photo` is stored as `u1/avatar.photo` |
| SettingsModal.SettingsModal.constructor | src/app/dashboard/components/SettingsModal.tsx:19-38 | the form starts from the profile: empty display name and bio when unset, theme `default` when empty, its username and visibility |
| SettingsModal.SettingsModal.HandleSave | src/app/dashboard/components/SettingsModal.tsx:42-88 | as written: when the typed username differs from the current one and another profile holds it exactly, `Username is already taken` is shown and nothing is sent; otherwise (including a name that differs from a taken one only by case or surrounding spaces) one update is sent and the reply decides the banner |
| SettingsModal.SettingsModal.HandleSaveCorrected | src/app/dashboard/components/SettingsModal.tsx:42-88 | corrected: the same handler with the lookup made for the stored name; a taken stored name gives `Username is already taken` and sends nothing, and when the current name is free a save never stores another profile's name |
| SettingsModal.AsWrittenSoundWhenLowerCase | src/app/dashboard/components/SettingsModal.tsx:51-72 | for a valid, already lower-case typed name, the lookup as written is enough: a save that passes it never stores another profile's name |
| SettingsModal.ValidUsername | src/app/dashboard/components/SettingsModal.tsx:139-142 | a valid username has 3 to 30 characters, none of them whitespace, each a letter, digit, `_` or `-` |
| SettingsModal.SettingsModal.SaveDisabled | src/app/dashboard/components/SettingsModal.tsx:425 | outside the account tab Save is disabled exactly while saving; on the account tab, when not saving, exactly when the username is invalid |
| SettingsModal.SettingsModal.SendUpdate | src/app/dashboard/components/SettingsModal.tsx:66-84 | one update carrying the form's fields is sent, and the reply decides the banner and whether the row is handed on |
| SettingsModal.SettingsModal.ApplySaveReply | src/app/dashboard/components/SettingsModal.tsx:79-84 | a returned row is handed on with `Settings updated successfully!`; an error shows its message, or `Failed to update settings` when it has none |
| SettingsModal.SettingsModal.HandleAvatarUpload | src/app/dashboard/components/SettingsModal.tsx:90-127 | with no file nothing changes; otherwise it uploads to the profile's folder; a failed upload or update gives the error; a success writes the public URL and hands on the row |
| SettingsModal.SettingsModal.StoreAvatar | src/app/dashboard/components/SettingsModal.tsx:100-122 | a failed upload writes nothing and shows the error; otherwise the public URL is written, and the reply either hands on the row with `Profile picture updated!` or shows the error |
| AuthMessages.SignUpMessage | src/app/auth/AuthForm.tsx:94-104 | sign-up errors map by substring, in order: `Invalid email`, then `Password`, then `User already registered`; any other message is shown as it is |
| AuthMessages.SignInMessage | src/app/auth/AuthForm.tsx:124-131 | sign-in errors: `Invalid login credentials`, then `Email not confirmed`, else the message itself |
| AuthMessages.GoogleMessage | src/app/auth/AuthForm.tsx:158-163 | a message mentioning `OAuth` becomes the not-configured text; any other is shown as it is |
| AuthMessages.SignUpMessageCases | src/app/auth/AuthForm.tsx:94-104 | the sign-up text is one of the three fixed texts, or the message itself exactly when no pattern occurs |
| AuthMessages.SignInMessageCases | src/app/auth/AuthForm.tsx:124-131 | the sign-in text is one of the two fixed texts, or the message itself exactly when neither pattern occurs |
| AuthMessages.PatternAfterPrefix | src/app/auth/login/LoginForm.tsx:40-46 | a pattern anywhere in the message counts, whatever precedes it |
| AuthMessages.SignInBanner | src/app/auth/AuthForm.tsx:124-135 | a returned user gives only the success text; an error gives its mapped text; an exception gives the unexpected-error text; no user gives nothing |
| AuthForm.Digits | src/app/auth/AuthForm.tsx:43 | a number's decimal text is non-empty and all digits |
| AuthForm.DigitsValue | src/app/auth/AuthForm.tsx:43 | reading the decimal text back gives the number |
| AuthForm.Candidate | src/app/auth/AuthForm.tsx:25-43 | attempt 0 tries the base; attempt k tries the base followed by the digits of k |
| AuthForm.CandidatesDistinct | src/app/auth/AuthForm.tsx:25-43 | no name is tried twice |
| AuthForm.ChosenSpec | src/app/auth/AuthForm.tsx:29-44 | the chosen name is attempt j ≤ 10; every earlier attempt is taken; j < 10 means it is free; a free base is used as it is |
| AuthForm.ChooseUsername | src/app/auth/AuthForm.tsx:25-44 | the loop chooses `Chosen`; it makes 1 to 10 lookups, of the successive candidates; all but the last are taken, and the last is free unless ten were made |
| AuthForm.SignUpBanner | src/app/auth/AuthForm.tsx:94-116 | a returned user gives one of the two success texts (account created exactly when confirmed) and no error; errors and exceptions give their texts |
| AuthForm.SignUpSucceeds | src/app/auth/AuthForm.tsx:105-135 | a success text shows exactly for a returned user, and then no error shows |
| AuthForm.SearchLogUnique | src/app/auth/AuthForm.tsx:25-44 | the lookups the search makes are determined by the base and the taken names, so `SearchLog` pins the appended log down exactly |
| AuthForm.AuthForm.constructor | src/app/auth/AuthForm.tsx:12-17 | the form starts empty, in sign-up mode |
| AuthForm.AuthForm.HandleSubmit | src/app/auth/AuthForm.tsx:66-143 | empty fields or a short password give their error and send nothing; otherwise one request is sent and the banner follows the reply; a sign-up that returns a user inserts one profile with the chosen username, and the lookups it appends are exactly the search's `SearchLog`: successive candidates of the email's local part, all but the last taken, the last free unless ten were made |
| AuthForm.AuthForm.SignUpWith | src/app/auth/AuthForm.tsx:85-117 | one sign-up request; the banner follows the reply; only a returned user gets a profile insert with the chosen username, after appending exactly the search's `SearchLog` of lookups |
| AuthForm.AuthForm.SignInWith | src/app/auth/AuthForm.tsx:118-136 | one sign-in request; the banner follows the reply |
| AuthForm.AuthForm.CreateUserProfile | src/app/auth/AuthForm.tsx:21-64 | one profile insert with the chosen username, null avatar and theme; the lookups appended are the search's `SearchLog`: 1 to 10 successive candidates of the local part, all but the last taken, the last free unless ten were made |
| AuthForm.AuthForm.HandleGoogleSignIn | src/app/auth/AuthForm.tsx:145-172 | one Google request; on success the form stays submitting; an error or exception gives its text and re-enables the form |
| AuthForm.AuthForm.ToggleMode | src/app/auth/AuthForm.tsx:247-251 | the mode flips, and both banners clear |
| LoginForm.LoginForm.constructor | src/app/auth/login/LoginForm.tsx:13-17 | the form starts empty |
| LoginForm.LoginForm.HandleSubmit | src/app/auth/login/LoginForm.tsx:21-57 | empty fields give their error and send nothing (no length check here); otherwise one sign-in is sent and the banner is `SignInBanner` of the reply |
| LoginForm.LoginForm.SubmitDisabled | src/app/auth/login/LoginForm.tsx:142 | Continue is enabled exactly when no sign-in is running and both email and password are non-empty, so an enabled button never reaches the fill-in-all-fields branch |
| LoginForm.LoginForm.HandleGoogleSignIn | src/app/auth/login/LoginForm.tsx:59-86 | as in the combined form |
| LoginForm.LoginForm.HandleAppleSignIn | src/app/auth/login/LoginForm.tsx:88-90 | only the not-configured error is set; nothing is sent |
| AuthCallback.Without | src/app/auth/callback/route.ts:49-51 | `delete(name)` keeps only pairs with other names, taken from the input |
| AuthCallback.GetWithout | src/app/auth/callback/route.ts:49-51 | after `delete(name)` the name is absent, and every other name's value is unchanged |
| AuthCallback.GetWithSet | src/app/auth/callback/route.ts:78 | after `set(name, v)`, `get(name)` is v, and every other name's value is unchanged |
| AuthCallback.RedirectUrl.constructor | src/app/auth/callback/route.ts:47 | the clone has the request's path and parameters |
| AuthCallback.RedirectUrl.Delete | src/app/auth/callback/route.ts:49-51 | the parameters become `Without` of the old ones |
| AuthCallback.RedirectUrl.Set | src/app/auth/callback/route.ts:78 | the parameters become `WithSet` of the old ones |
| AuthCallback.ProfileFor | src/app/auth/callback/route.ts:7-38 | a profile is inserted exactly when none exists for the id; it carries the id and null avatar and theme |
| AuthCallback.ProfileUsername | src/app/auth/callback/route.ts:18 | the username is the address's local part, then `_`, then the random suffix; with no address it is `_` and the suffix |
| AuthCallback.Winner | src/app/auth/callback/route.ts:53-75 | a session comes from the code exchange or the token check, and the code exchange wins when it yields a user |
| AuthCallback.Callback | src/app/auth/callback/route.ts:40-79 | the target's parameters drop `code`, `token_hash` and `type`, plus `error` on failure; its path is `next` (default `/dashboard`) on success and `/auth` on failure; the insert is the winner's profile |
| AuthCallback.TargetParams | src/app/auth/callback/route.ts:47-79 | none of the one-time parameters survive; every other parameter keeps its value; the error is set exactly on failure |
| AuthCallback.FallsBackToToken | src/app/auth/callback/route.ts:53-75 | a failed code exchange still tries the token check |
| AuthCallback.InsertOnlyWhenMissing | src/app/auth/callback/route.ts:10-16 | a profile is inserted only for a signed-in user who has none |
| DashboardPage.Prefix | src/app/dashboard/page.tsx:30 | `slice(0, n)` is a prefix of length min(n, length) |
| DashboardPage.DefaultUsernameSpec | src/app/dashboard/page.tsx:30 | the default username is never empty; it is the address's local part when that is non-empty, else `user_` followed by at most 8 characters of the id |
| DashboardPage.UserLinksSpec | src/app/dashboard/page.tsx:47-57 | the page shows exactly the user's links, in ascending position |
| DashboardPage.Dashboard | src/app/dashboard/page.tsx:5-60 | no user redirects to `/auth`; a found profile is shown with the links; a missing or failed profile creates a default one, redirecting to `/auth` if that creation fails |
| DashboardPage.DashboardSpec | src/app/dashboard/page.tsx:12-57 | a profile is created exactly when the lookup came back empty or failed; a render is for the signed-in user and shows only that user's links; every redirect goes to `/auth` |
| TrackClick.Header | src/app/api/track-click/route.ts:17-19 | the header value when present and non-empty, else the fallback |
| TrackClick.ClientIp | src/app/api/track-click/route.ts:17 | the ip is never empty; it is `x-forwarded-for`, `x-real-ip` or `unknown` |
| TrackClick.ClientIpPrecedence | src/app/api/track-click/route.ts:17 | a forwarded-for header wins, an empty one is skipped, and with neither header the ip is `unknown` |
| TrackClick.Post | src/app/api/track-click/route.ts:6-39 | unparsable JSON gives 500; a falsy `linkId` gives 400 and no call; otherwise the call carries the id, the ip, the user agent and the referrer |
| TrackClick.PostSpec | src/app/api/track-click/route.ts:6-39 | the status is 200 exactly when a call was made and succeeded; a call is made exactly for a truthy id; statuses are 200, 400 or 500, and every failure carries one of the three texts |
| TrackClick.ResponseIgnoresHeaders | src/app/api/track-click/route.ts:17-34 | the response does not depend on the headers |
| TrackClick.FalsyIdsRefused | src/app/api/track-click/route.ts:10-12 | `0`, `false`, `null` and `""` are all refused with 400 |

## Left out

- The database, authentication service and file storage: each answer is a parameter of the handler that receives it. The server's filtering and ordering are not captured, with two exceptions: `DashboardPage.UserLinks` filters the rows by `user_id` and orders them by position, and `Store.NextPosition` stands for `order('position', { ascending: false }).limit(1)` by taking the largest position.
- `new URL(...)`, used inside `validateUrl`, is a parameter `parses: string -> bool`. The WHATWG parsing rules are not modelled.
- The drag-and-drop library's sensors, collision detection and `handleDragOver` (which does nothing) are left out; the model starts from the ids that `handleDragEnd` receives.
- Presentational markup, icons, class names, the loading and mounted flags, and timers are left out. These are: `setTimeout` for the redirect after sign-up, the clipboard copy, and the `copied` badge of the settings dialog.
- `confirm(...)` is a boolean parameter: the user's answer.
- `Math.random().toString(36).substring(2, 8)` in the callback is a parameter `suffix`.
- `new Date().toISOString()` is a parameter `now`.
- `PreviewPanel` `handleLinkClick`: its `fetch` to the click route and `window.open` are I/O; the route itself is modelled as `TrackClick.Post`.
- Strings.ToLower: maps ASCII letters only; JavaScript's full Unicode case mapping is not modelled.
- PreviewPanel.AvatarInitial: upper-cases ASCII letters only, so the display name `élodie` shows `é` where the source shows `É`, and `ß` stays one character where JavaScript gives `SS`. It also takes the first Dafny character, while `charAt(0)` takes one UTF-16 code unit, which is half of a character outside the Basic Multilingual Plane (such as an emoji).
- Strings.Trim: removes the common white-space characters only, not every character that JavaScript's white-space and line-terminator classes contain.
- AuthForm.AuthForm.HandleSubmit: the six-character password check counts Dafny characters, while JavaScript counts UTF-16 code units; the two differ only outside the Basic Multilingual Plane.
- TrackClick.Post: JSON numbers are integers (no NaN and no fractions); header names are modelled as already lower-case keys, whereas `Headers.get` matches case-insensitively.
- AuthForm.AuthForm.CreateUserProfile: lookups and inserts that throw (for example, a network failure) are not modelled; in the source they are caught and only logged.
- The exceptions thrown by the next-position query in the add dialogs are not modelled separately: the model treats that query as returning data or no data.
- AuthCallback.Callback: exceptions thrown by `exchangeCodeForSession` and `verifyOtp` are not modelled. The path normalisation that the URL `pathname` setter performs is not modelled; `next` is stored as given.
- DashboardPage.UserLinks: rows with equal positions are ordered in table order; the database leaves their order unspecified.
- `.single()` over several matching rows is an error in the client; the model's lookups assume that ids and usernames are unique.
- Lists in the parent component are replaced wholesale through `onLinksChange`/`onCollectionsChange`; the model keeps them as fields of `LinksBoard`.
- React's asynchronous state updates and stale closures (for example, the settings modal's `onUpdate` racing a second save) are not modelled; each handler runs to completion on the state it started from.

## Findings

| source | as written | input that shows it | evidently intended | confidence | as-written member | corrected member |
|---|---|---|---|---|---|---|
| src/app/dashboard/components/SettingsModal.tsx:51-72 | the availability lookup uses the typed username (`eq('username', username)`, case-sensitive), but the update stores `username.toLowerCase().trim()` | another profile holds `alice`; the current name is `me`; the user types `Alice`: the lookup finds nothing, and `alice` is stored | look up the name that will be stored, so that a save never takes another profile's name | medium (a unique constraint in the database may still reject the update), not executed | SettingsModal.AsWrittenStoresTakenName, SettingsModal.LookedUp, SettingsModal.SettingsModal.HandleSave | SettingsModal.CorrectedNeverStoresTakenName, SettingsModal.LookedUpStored, SettingsModal.SettingsModal.HandleSaveCorrected |
| src/app/dashboard/components/tabs/LinksTab.tsx:657-663 | the edit dialog's `onDelete` is `handleDeleteLink`, which asks for confirmation again and deletes the row again, and nothing closes the dialog | the user confirms the delete in the edit dialog, the store deletes the row, and the user declines the second prompt: the row is gone from the store but the link stays listed, with its dialog open | one confirmation and one delete; `onDelete` only drops the link from the list and closes the dialog | medium (the second delete of a missing row reports no error, so with two confirmations the list ends right), not executed | LinksTab.DeleteFromEditDialog, LinksTab.EditDialogDelete, LinksTab.EditDialogDeleteStale, LinksTab.EditDialogDeletesTwice | LinksTab.DeleteFromEditDialogCorrected, LinksTab.EditDialogDeleteCorrected, LinksTab.EditDialogDeleteCorrectedSpec |
