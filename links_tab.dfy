/** The links tab of the dashboard
    (src/app/dashboard/components/tabs/LinksTab.tsx): the bucket views, the
    drag-and-drop handler and the collection operations. The parent holds
    `links` and `collections` and the tab replaces them through
    `onLinksChange` / `onCollectionsChange`; the model keeps them as fields
    of the board. Every row write the tab sends to the store is appended,
    in the order it is issued, to the board's write log; what the store
    answers is a parameter of the handler that receives the answer. */
module LinksTab {
  import opened Types
  import opened Ordering
  import opened Sortable
  import opened Buckets
  import Store
  import EditLinkModal

  /** A row write sent to the store. */
  datatype StoreWrite =
    | SetLinkPosition(linkId: string, position: int)
      // `update({ collection_id, updated_at }).eq('id', linkId)`
    | SetLinkCollection(linkId: string, target: CollectionRef, updatedAt: string)
    | SetCollectionPosition(collectionId: string, position: int)
      // `update({ collection_id: null }).eq('collection_id', collectionId)`
    | UngroupLinks(collectionId: string)
    | DeleteCollectionRow(collectionId: string)
    | DeleteLinkRow(linkId: string)

  /** `links.find(link => link.id === id)`. */
  function FindLink(links: seq<Link>, id: string): (r: Option<Link>)
    ensures r.None? <==> forall j | 0 <= j < |links| :: links[j].id != id
    ensures r.Some? ==> r.value in links && r.value.id == id
  {
    var k := IndexOfLink(links, id);
    if k == -1 then None else Some(links[k])
  }

  /** `collections.find(collection => collection.id === id)`. */
  function FindCollection(collections: seq<Collection>, id: string): (r: Option<Collection>)
    ensures r.None? <==> forall j | 0 <= j < |collections| :: collections[j].id != id
    ensures r.Some? ==> r.value in collections && r.value.id == id
  {
    var k := IndexOfCollection(collections, id);
    if k == -1 then None else Some(collections[k])
  }

  // ---------------------------------------------------------------- views

  /** `links.filter(link => link.collection_id === ref).sort(byPosition)`:
      one bucket in position order. For `Id(c.id)` it is the list the card
      of collection `c` shows; it is also the list a same-bucket drop
      rearranges. */
  function BucketOrder(links: seq<Link>, ref: CollectionRef): seq<Link> {
    SortByPosition(Filter(links, InBucket(ref)))
  }

  /** A bucket lists exactly the links whose collection id is strictly
      equal to `ref`, each as often as it occurs, ascending by position. */
  lemma BucketOrderSpec(links: seq<Link>, ref: CollectionRef, l: Link)
    ensures Sorted(BucketOrder(links, ref))
    ensures multiset(BucketOrder(links, ref)) == multiset(Filter(links, InBucket(ref)))
    ensures l in BucketOrder(links, ref) <==> l in links && l.collectionId == ref
  {
    SortSpec(Filter(links, InBucket(ref)));
    FilterMembers(links, InBucket(ref), l);
    assert l in BucketOrder(links, ref) <==> l in multiset(BucketOrder(links, ref));
  }

  /** `links.filter(link => !link.collection_id).sort(byPosition)`. */
  function UngroupedView(links: seq<Link>): seq<Link> {
    SortByPosition(Filter(links, IsUngrouped))
  }

  /** The ungrouped list holds exactly the links with a falsy collection id
      (missing, `null` or empty), ascending by position. */
  lemma UngroupedViewSpec(links: seq<Link>, l: Link)
    ensures Sorted(UngroupedView(links))
    ensures multiset(UngroupedView(links)) == multiset(Filter(links, IsUngrouped))
    ensures l in UngroupedView(links) <==> l in links && !l.collectionId.Truthy()
  {
    SortSpec(Filter(links, IsUngrouped));
    FilterMembers(links, IsUngrouped, l);
    assert l in UngroupedView(links) <==> l in multiset(UngroupedView(links));
  }

  /** The ids of the sortable items: every collection id, then the ids of
      the ungrouped links in view order. */
  function AllItems(links: seq<Link>, collections: seq<Collection>): seq<string> {
    CollectionIds(collections) + LinkIds(UngroupedView(links))
  }

  lemma AllItemsSpec(links: seq<Link>, collections: seq<Collection>, x: string)
    ensures AllItems(links, collections)[..|collections|] == CollectionIds(collections)
    ensures x in AllItems(links, collections) <==>
      (exists c | c in collections :: c.id == x) || (exists l | l in links && !l.collectionId.Truthy() :: l.id == x)
  {
    var cids := CollectionIds(collections);
    var lids := LinkIds(UngroupedView(links));
    assert AllItems(links, collections) == cids + lids;
    assert (cids + lids)[..|cids|] == cids;
    CollectionIdsMember(collections, x);
    UngroupedIdsMember(links, x);
  }

  lemma CollectionIdsMember(collections: seq<Collection>, x: string)
    ensures x in CollectionIds(collections) <==> exists c | c in collections :: c.id == x
  {
    var cids := CollectionIds(collections);
    if x in cids {
      var i :| 0 <= i < |cids| && cids[i] == x;
      assert collections[i] in collections;
    }
    if exists c | c in collections :: c.id == x {
      var c :| c in collections && c.id == x;
      var i :| 0 <= i < |collections| && collections[i] == c;
      assert cids[i] == x;
    }
  }

  lemma UngroupedIdsMember(links: seq<Link>, x: string)
    ensures x in LinkIds(UngroupedView(links)) <==> exists l | l in links && !l.collectionId.Truthy() :: l.id == x
  {
    var view := UngroupedView(links);
    var lids := LinkIds(view);
    if x in lids {
      var i :| 0 <= i < |lids| && lids[i] == x;
      UngroupedViewSpec(links, view[i]);
    }
    if exists l | l in links && !l.collectionId.Truthy() :: l.id == x {
      var l :| l in links && !l.collectionId.Truthy() && l.id == x;
      UngroupedViewSpec(links, l);
      var i :| 0 <= i < |view| && view[i] == l;
      assert lids[i] == x;
    }
  }

  // ------------------------------------------------- list transformations

  /** `links.map(link => link.id === updated.id ? updated : link)`. */
  function ReplaceLink(links: seq<Link>, updated: Link): (r: seq<Link>)
    ensures |r| == |links|
    ensures forall i | 0 <= i < |links| :: links[i].id != updated.id ==> r[i] == links[i]
    ensures forall i | 0 <= i < |links| :: links[i].id == updated.id ==> r[i] == updated
  {
    Map(links, (l: Link) => if l.id == updated.id then updated else l)
  }

  /** After an edit the list finds the edited link under its id when it was
      there before, and nothing is found that was not there before. */
  lemma ReplaceLinkFound(links: seq<Link>, updated: Link)
    ensures FindLink(ReplaceLink(links, updated), updated.id).Some? <==> FindLink(links, updated.id).Some?
    ensures FindLink(links, updated.id).Some? ==> FindLink(ReplaceLink(links, updated), updated.id) == Some(updated)
    ensures ReplaceLink(ReplaceLink(links, updated), updated) == ReplaceLink(links, updated)
  {
  }

  /** `links.filter(link => link.id !== id)`. */
  function RemoveLink(links: seq<Link>, id: string): seq<Link> {
    Filter(links, (l: Link) => l.id != id)
  }

  lemma RemoveLinkSpec(links: seq<Link>, id: string, l: Link)
    ensures l in RemoveLink(links, id) <==> l in links && l.id != id
    ensures FindLink(RemoveLink(links, id), id).None?
  {
    FilterMembers(links, (k: Link) => k.id != id, l);
    var r := RemoveLink(links, id);
    forall j | 0 <= j < |r| ensures r[j].id != id {
      FilterMembers(links, (k: Link) => k.id != id, r[j]);
    }
  }

  /** `collections.filter(c => c.id !== id)`. */
  function RemoveCollection(collections: seq<Collection>, id: string): seq<Collection> {
    Filter(collections, (c: Collection) => c.id != id)
  }

  lemma RemoveCollectionSpec(collections: seq<Collection>, id: string, c: Collection)
    ensures c in RemoveCollection(collections, id) <==> c in collections && c.id != id
  {
    FilterMembers(collections, (k: Collection) => k.id != id, c);
  }

  /** The ids of a list are among the ids of any list that holds all its
      collections. */
  lemma ExpandAllIncluded(a: seq<Collection>, b: seq<Collection>)
    requires forall c | c in a :: c in b
    ensures ExpandAll(a) <= ExpandAll(b)
  {
    forall x | x in ExpandAll(a) ensures x in ExpandAll(b) {
      var i :| 0 <= i < |a| && a[i].id == x;
      assert a[i] in b;
      var j :| 0 <= j < |b| && b[j] == a[i];
    }
  }

  /** Reordering the collections leaves the effect's expanded set as it
      was: a reorder re-expands collapsed cards and nothing else. */
  lemma ExpandAllPermutation(a: seq<Collection>, b: seq<Collection>)
    requires multiset(a) == multiset(b)
    ensures ExpandAll(a) == ExpandAll(b)
  {
    forall c | c in a ensures c in b {
      assert c in multiset(a);
    }
    forall c | c in b ensures c in a {
      assert c in multiset(b);
    }
    ExpandAllIncluded(a, b);
    ExpandAllIncluded(b, a);
  }

  /** After an added collection, the effect expands the old ids and the new
      one: the same set as the handler's own update when every card was
      expanded. */
  lemma ExpandAllAppend(collections: seq<Collection>, c: Collection)
    ensures ExpandAll(collections + [c]) == ExpandAll(collections) + {c.id}
  {
    var added := collections + [c];
    assert added[|collections|] == c;
    ExpandAllIncluded(collections, added);
    forall x | x in ExpandAll(added) ensures x in ExpandAll(collections) + {c.id} {
      var i :| 0 <= i < |added| && added[i].id == x;
      if i < |collections| {
        assert added[i] == collections[i];
      }
    }
  }

  /** After a deleted collection, the effect expands every remaining id:
      the old set less the deleted id. */
  lemma ExpandAllRemove(collections: seq<Collection>, id: string)
    ensures ExpandAll(RemoveCollection(collections, id)) == ExpandAll(collections) - {id}
  {
    var rest := RemoveCollection(collections, id);
    forall c | c in rest ensures c in collections && c.id != id {
      RemoveCollectionSpec(collections, id, c);
    }
    ExpandAllIncluded(rest, collections);
    forall x | x in ExpandAll(collections) - {id} ensures x in ExpandAll(rest) {
      var j :| 0 <= j < |collections| && collections[j].id == x;
      RemoveCollectionSpec(collections, id, collections[j]);
      var i :| 0 <= i < |rest| && rest[i] == collections[j];
    }
  }

  /** A delete started in the edit dialog, as written: the dialog's
      `handleDelete` asks (`confirmed`) and deletes the row (`status`); on
      success its `onDelete` is the board's `handleDeleteLink`, which asks
      again (`confirmedAgain`) and sends a second delete (`deletedAgain`
      when that reports no error). Returns the board's writes and list. */
  function EditDialogDelete(links: seq<Link>, id: string, confirmed: bool, status: Store.Status,
                            confirmedAgain: bool, deletedAgain: bool): (seq<StoreWrite>, seq<Link>)
  {
    if !(confirmed && status == Store.Ok) then ([], links)
    else if !confirmedAgain then ([], links)
    else ([DeleteLinkRow(id)], if deletedAgain then RemoveLink(links, id) else links)
  }

  /** As written, a confirmed delete from the dialog is followed by a second
      delete of the same row. */
  lemma EditDialogDeletesTwice(links: seq<Link>, id: string, deletedAgain: bool)
    ensures EditDialogDelete(links, id, true, Store.Ok, true, deletedAgain).0 == [DeleteLinkRow(id)]
  {
  }

  /** As written, declining the second confirmation leaves a link listed
      whose row the dialog has already deleted from the store. */
  lemma EditDialogDeleteStale(links: seq<Link>, l: Link)
    requires l in links
    ensures var r := EditDialogDelete(links, l.id, true, Store.Ok, false, true);
      r.0 == [] && l in r.1 && FindLink(r.1, l.id).Some?
  {
  }

  /** The delete as evidently intended: one confirmation and one delete,
      after which the link leaves the list when the store deleted it. */
  function EditDialogDeleteCorrected(links: seq<Link>, id: string, confirmed: bool, status: Store.Status): seq<Link> {
    if confirmed && status == Store.Ok then RemoveLink(links, id) else links
  }

  /** With the corrected delete the list follows the store: the link is
      gone exactly when the store deleted its row, every other link stays,
      and no second delete is needed. */
  lemma EditDialogDeleteCorrectedSpec(links: seq<Link>, id: string, confirmed: bool, status: Store.Status, l: Link)
    ensures var r := EditDialogDeleteCorrected(links, id, confirmed, status);
      (l in r <==> l in links && !(confirmed && status == Store.Ok && l.id == id))
      && (confirmed && status == Store.Ok ==> FindLink(r, id).None?)
  {
    if confirmed && status == Store.Ok {
      RemoveLinkSpec(links, id, l);
    }
  }

  /** `links.map(link => link.collection_id === id ? { ...link, collection_id: null } : link)`. */
  function Ungrouped(links: seq<Link>, id: string): (r: seq<Link>)
    ensures |r| == |links|
    ensures forall i | 0 <= i < |links| :: r[i] == links[i].(collectionId := r[i].collectionId)
    ensures forall i | 0 <= i < |links| :: links[i].collectionId == Id(id) ==> r[i].collectionId == Null
    ensures forall i | 0 <= i < |links| :: links[i].collectionId != Id(id) ==> r[i] == links[i]
  {
    Map(links, (l: Link) => if l.collectionId == Id(id) then l.(collectionId := Null) else l)
  }

  /** Once ungrouped, the collection's bucket is empty, its former members
      sit in the ungrouped list, and ungrouping again changes nothing. */
  lemma UngroupedSpec(links: seq<Link>, id: string, i: nat)
    requires i < |links|
    ensures BucketOrder(Ungrouped(links, id), Id(id)) == []
    ensures links[i].collectionId == Id(id) ==> Ungrouped(links, id)[i] in UngroupedView(Ungrouped(links, id))
    ensures Ungrouped(Ungrouped(links, id), id) == Ungrouped(links, id)
  {
    var r := Ungrouped(links, id);
    var b := BucketOrder(r, Id(id));
    if b != [] {
      BucketOrderSpec(r, Id(id), b[0]);
      assert false;
    }
    UngroupedViewSpec(r, r[i]);
  }

  /** `links.map(link => link.id === id ? { ...link, collection_id: ref } : link)`. */
  function WithCollection(links: seq<Link>, id: string, ref: CollectionRef): (r: seq<Link>)
    ensures |r| == |links|
    ensures forall i | 0 <= i < |links| :: r[i] == links[i].(collectionId := r[i].collectionId)
    ensures forall i | 0 <= i < |links| :: links[i].id == id ==> r[i].collectionId == ref
    ensures forall i | 0 <= i < |links| :: links[i].id != id ==> r[i] == links[i]
  {
    Map(links, (l: Link) => if l.id == id then l.(collectionId := ref) else l)
  }

  /** The position each bucket member takes after a reorder: its index in
      the new order (`reorderedLinks.findIndex(l => l.id === link.id)`). */
  function RenumberIn(ref: CollectionRef, order: seq<Link>): Link -> Link {
    (l: Link) => if l.collectionId == ref then l.(position := IndexOfLink(order, l.id)) else l
  }

  /** The local update of a same-bucket reorder. */
  function Renumbered(links: seq<Link>, ref: CollectionRef, order: seq<Link>): (r: seq<Link>)
    ensures |r| == |links|
    ensures forall i | 0 <= i < |links| :: r[i] == links[i].(position := r[i].position)
    ensures forall i | 0 <= i < |links| :: links[i].collectionId != ref ==> r[i] == links[i]
  {
    Map(links, RenumberIn(ref, order))
  }

  /** The links of `order`, each carrying its index as position. */
  function Numbered(order: seq<Link>): (r: seq<Link>)
    ensures |r| == |order|
    ensures StrictlySorted(r)
    ensures forall i | 0 <= i < |order| :: r[i] == order[i].(position := i)
  {
    seq(|order|, i requires 0 <= i < |order| => order[i].(position := i))
  }

  /** The writes of a reorder loop: `position = i` for the i-th link. */
  function LinkPositionWrites(order: seq<Link>): (w: seq<StoreWrite>)
    ensures |w| == |order|
    ensures forall i | 0 <= i < |order| :: w[i] == SetLinkPosition(order[i].id, i)
  {
    seq(|order|, i requires 0 <= i < |order| => SetLinkPosition(order[i].id, i))
  }

  /** The writes of the collection reorder loop. */
  function CollectionPositionWrites(order: seq<Collection>): (w: seq<StoreWrite>)
    ensures |w| == |order|
    ensures forall i | 0 <= i < |order| :: w[i] == SetCollectionPosition(order[i].id, i)
  {
    seq(|order|, i requires 0 <= i < |order| => SetCollectionPosition(order[i].id, i))
  }

  /** Renumbering never moves a link into or out of the bucket. */
  lemma RenumberKeepsBucket(ref: CollectionRef, order: seq<Link>, x: Link)
    ensures InBucket(ref)(RenumberIn(ref, order)(x)) == InBucket(ref)(x)
  {
  }

  /** Renumbering the links of `order` themselves numbers them by index. */
  lemma RenumberOrder(ref: CollectionRef, order: seq<Link>)
    requires DistinctIds(order)
    requires forall i | 0 <= i < |order| :: order[i].collectionId == ref
    ensures Map(order, RenumberIn(ref, order)) == Numbered(order)
  {
    var m := Map(order, RenumberIn(ref, order));
    forall i | 0 <= i < |order| ensures m[i] == Numbered(order)[i] {
      IndexOfDistinct(order, i);
    }
  }

  /** Renumbering a bucket after any rearrangement `order` of its members
      (with distinct ids) makes the bucket list exactly `order`, with
      positions 0, 1, ..., n-1. */
  lemma RenumberedBucket(links: seq<Link>, ref: CollectionRef, order: seq<Link>)
    requires DistinctIds(order)
    requires multiset(order) == multiset(Filter(links, InBucket(ref)))
    ensures BucketOrder(Renumbered(links, ref, order), ref) == Numbered(order)
  {
    var p := InBucket(ref);
    var g := RenumberIn(ref, order);
    var members := Filter(links, p);
    forall x ensures p(g(x)) == p(x) {
      RenumberKeepsBucket(ref, order, x);
    }
    FilterMap(links, g, p);
    assert Filter(Renumbered(links, ref, order), p) == Map(members, g);
    MapPermutation(members, order, g);
    forall i | 0 <= i < |order| ensures order[i].collectionId == ref {
      assert order[i] in multiset(members);
      FilterMembers(links, p, order[i]);
    }
    RenumberOrder(ref, order);
    var view := SortByPosition(Map(members, g));
    SortSpec(Map(members, g));
    assert multiset(view) == multiset(Numbered(order));
    SortedUnique(view, Numbered(order));
  }

  /** Each local position a reorder sets is the position written to the
      store for that link. */
  lemma RenumberedMatchesWrites(links: seq<Link>, ref: CollectionRef, order: seq<Link>, i: nat)
    requires DistinctIds(order)
    requires multiset(order) == multiset(Filter(links, InBucket(ref)))
    requires i < |links| && links[i].collectionId == ref
    ensures SetLinkPosition(links[i].id, Renumbered(links, ref, order)[i].position) in LinkPositionWrites(order)
  {
    FilterMembers(links, InBucket(ref), links[i]);
    assert links[i] in multiset(order);
    var k :| 0 <= k < |order| && order[k] == links[i];
    IndexOfDistinct(order, k);
    assert LinkPositionWrites(order)[k] == SetLinkPosition(links[i].id, k);
  }

  // ------------------------------------------------------------ dropping

  /** What dropping a link does: rearrange its bucket into `order`, or move
      it into the bucket `target`. */
  datatype LinkDrop = Reorder(bucket: CollectionRef, order: seq<Link>) | Move(target: CollectionRef)

  /** The drop decision for the dragged link `active` over the item `overId`:
      a collection first, then the `'ungrouped'` area, then another link. A
      link of the same bucket (by strict equality) reorders the bucket, any
      other target rewrites the dragged link's collection id. */
  function PlanLinkDrop(links: seq<Link>, collections: seq<Collection>, active: Link, overId: string): LinkDrop {
    match FindCollection(collections, overId)
    case Some(c) => Move(Id(c.id))
    case None =>
      if overId == "ungrouped" then Move(Null)
      else match FindLink(links, overId)
        case None => Move(active.collectionId)
        case Some(overLink) =>
          if overLink.collectionId != active.collectionId then Move(overLink.collectionId)
          else
            var same := BucketOrder(links, active.collectionId);
            var from := IndexOfLink(same, active.id);
            var to := IndexOfLink(same, overId);
            if from != -1 && to != -1 then Reorder(active.collectionId, ArrayMove(same, from, to))
            else Move(overLink.collectionId)
  }

  /** The targets of a drop: a collection id wins over everything, then
      `'ungrouped'` means `null`, then a link of another bucket means that
      link's collection id, and an unknown target keeps the current one; a
      reorder happens only over a link of the dragged link's own bucket. */
  lemma DropTargets(links: seq<Link>, collections: seq<Collection>, active: Link, overId: string)
    ensures var r := PlanLinkDrop(links, collections, active, overId);
      (FindCollection(collections, overId).Some? ==> r == Move(Id(overId)))
      && (FindCollection(collections, overId).None? && overId == "ungrouped" ==> r == Move(Null))
      && (FindCollection(collections, overId).None? && overId != "ungrouped" && FindLink(links, overId).None? ==>
           r == Move(active.collectionId))
      && (r.Reorder? ==>
           r.bucket == active.collectionId && FindLink(links, overId).Some?
           && FindLink(links, overId).value.collectionId == active.collectionId)
      && (r.Move? && FindCollection(collections, overId).None? && overId != "ungrouped" && FindLink(links, overId).Some? ==>
           r.target == FindLink(links, overId).value.collectionId)
  {
  }

  /** A dragged link of the list dropped on another link of its own bucket
      always reorders (the fall-through write is unreachable there): the
      bucket becomes `arrayMove` of its position order, and the dragged link
      lands at the index the link under it had. */
  lemma SameBucketDropReorders(links: seq<Link>, collections: seq<Collection>, active: Link, overId: string)
    requires active in links
    requires FindCollection(collections, overId).None? && overId != "ungrouped"
    requires FindLink(links, overId).Some? && FindLink(links, overId).value.collectionId == active.collectionId
    ensures var same := BucketOrder(links, active.collectionId);
      var from := IndexOfLink(same, active.id);
      var to := IndexOfLink(same, overId);
      0 <= from && 0 <= to
      && PlanLinkDrop(links, collections, active, overId) == Reorder(active.collectionId, ArrayMove(same, from, to))
      && ArrayMove(same, from, to)[to].id == active.id
  {
    var same := BucketOrder(links, active.collectionId);
    var over := FindLink(links, overId).value;
    BucketOrderSpec(links, active.collectionId, active);
    BucketOrderSpec(links, active.collectionId, over);
    var from := IndexOfLink(same, active.id);
    var to := IndexOfLink(same, overId);
    ArrayMoveAt(same, from, to);
  }

  /** A reorder rearranges exactly the members of the bucket; with distinct
      link ids their ids stay distinct. */
  lemma ReorderPermutesBucket(links: seq<Link>, collections: seq<Collection>, active: Link, overId: string)
    requires PlanLinkDrop(links, collections, active, overId).Reorder?
    ensures var r := PlanLinkDrop(links, collections, active, overId);
      multiset(r.order) == multiset(Filter(links, InBucket(r.bucket)))
      && (DistinctIds(links) ==> DistinctIds(r.order))
  {
    var same := BucketOrder(links, active.collectionId);
    var from := IndexOfLink(same, active.id);
    var to := IndexOfLink(same, overId);
    SortSpec(Filter(links, InBucket(active.collectionId)));
    ArrayMovePermutes(same, from, to);
    if DistinctIds(links) {
      FilterDistinct(links, InBucket(active.collectionId));
      SortDistinct(Filter(links, InBucket(active.collectionId)));
      ArrayMoveDistinct(same, from, to);
    }
  }

  /** `collections.find(id === active)`, `collections.find(id === over)` and
      then `arrayMove` between their indices; `None` when either is missing. */
  function CollectionDrop(collections: seq<Collection>, activeId: string, overId: string): (r: Option<seq<Collection>>)
    ensures r.Some? ==> |r.value| == |collections| && multiset(r.value) == multiset(collections)
    ensures r.Some? <==> FindCollection(collections, activeId).Some? && FindCollection(collections, overId).Some?
  {
    if FindCollection(collections, activeId).Some? && FindCollection(collections, overId).Some? then
      var from := IndexOfCollection(collections, activeId);
      var to := IndexOfCollection(collections, overId);
      ArrayMovePermutes(collections, from, to);
      Some(ArrayMove(collections, from, to))
    else None
  }

  /** Dragging the moved collection back onto the collection that now
      holds its old index restores the list. */
  lemma CollectionDropInverse(collections: seq<Collection>, activeId: string, overId: string)
    requires DistinctCollectionIds(collections)
    requires CollectionDrop(collections, activeId, overId).Some?
    ensures var moved := CollectionDrop(collections, activeId, overId).value;
      var from := IndexOfCollection(collections, activeId);
      0 <= from < |moved| && CollectionDrop(moved, activeId, moved[from].id) == Some(collections)
  {
    var from := IndexOfCollection(collections, activeId);
    var to := IndexOfCollection(collections, overId);
    var moved := ArrayMove(collections, from, to);
    ArrayMoveAt(collections, from, to);
    ArrayMoveCollectionsDistinct(collections, from, to);
    assert moved[to].id == activeId;
    IndexOfCollectionDistinct(moved, to);
    IndexOfCollectionDistinct(moved, from);
    assert FindCollection(moved, activeId).Some? && FindCollection(moved, moved[from].id).Some?;
    ArrayMoveInverse(collections, from, to);
    assert CollectionDrop(moved, activeId, moved[from].id) == Some(ArrayMove(moved, to, from));
  }

  /** What a finished drag leaves behind. */
  datatype DragResult = DragResult(links: seq<Link>, collections: seq<Collection>, writes: seq<StoreWrite>)

  /** The effect of `handleDragEnd` for the item `activeId` released over
      `over` (`None` when released over nothing); `now` is the timestamp
      the move write carries. */
  function DragEnd(links: seq<Link>, collections: seq<Collection>, activeId: string, over: Option<string>, now: string): DragResult {
    if over.None? || over.value == activeId then DragResult(links, collections, [])
    else DropOn(links, collections, activeId, over.value, now)
  }

  /** The drop plan when the dragged item is a link. */
  function LinkPlan(links: seq<Link>, collections: seq<Collection>, activeId: string, overId: string): Option<LinkDrop> {
    match FindLink(links, activeId)
    case None => None
    case Some(active) => Some(PlanLinkDrop(links, collections, active, overId))
  }

  /** A drop over another item: a link reorder ends the handler; otherwise
      the link move (if a link is dragged) is followed by the collection
      reorder (if a collection is dragged). */
  function DropOn(links: seq<Link>, collections: seq<Collection>, activeId: string, overId: string, now: string): DragResult {
    match LinkPlan(links, collections, activeId, overId)
    case Some(Reorder(b, order)) => DragResult(Renumbered(links, b, order), collections, LinkPositionWrites(order))
    case Some(Move(target)) =>
      ThenCollections(WithCollection(links, activeId, target), collections, [SetLinkCollection(activeId, target, now)], activeId, overId)
    case None => ThenCollections(links, collections, [], activeId, overId)
  }

  /** Whether a drop ends in `onCollectionsChange`, after which the effect
      on `collections` runs: the dragged item and the item under it are
      collections, and the drop was not a link reorder. */
  predicate ReordersCollections(links: seq<Link>, collections: seq<Collection>, activeId: string, over: Option<string>) {
    over.Some? && over.value != activeId
    && !(LinkPlan(links, collections, activeId, over.value).Some?
         && LinkPlan(links, collections, activeId, over.value).value.Reorder?)
    && CollectionDrop(collections, activeId, over.value).Some?
  }

  function ThenCollections(links: seq<Link>, collections: seq<Collection>, linkWrites: seq<StoreWrite>, activeId: string, overId: string): DragResult {
    match CollectionDrop(collections, activeId, overId)
    case None => DragResult(links, collections, linkWrites)
    case Some(moved) => DragResult(links, moved, linkWrites + CollectionPositionWrites(moved))
  }

  /** Regrouping appended writes. */
  lemma AppendAssoc<T>(a: seq<T>, b: seq<T>, c: seq<T>)
    ensures (a + b) + c == a + (b + c)
  {
  }

  /** When the plan is a reorder, the drop renumbers the bucket and
      issues its position writes, and nothing else. */
  lemma DragEndReorderResult(links: seq<Link>, collections: seq<Collection>, activeId: string, overId: string, now: string)
    requires activeId != overId && FindLink(links, activeId).Some?
    requires PlanLinkDrop(links, collections, FindLink(links, activeId).value, overId).Reorder?
    ensures var drop := PlanLinkDrop(links, collections, FindLink(links, activeId).value, overId);
      DragEnd(links, collections, activeId, Some(overId), now)
        == DragResult(Renumbered(links, drop.bucket, drop.order), collections, LinkPositionWrites(drop.order))
  {
  }

  /** When the dragged link is to move, the drop moves it and then goes on
      to the collection reorder. */
  lemma DragEndMoveResult(links: seq<Link>, collections: seq<Collection>, active: Link, overId: string, target: CollectionRef, now: string)
    requires active.id != overId && FindLink(links, active.id) == Some(active)
    requires PlanLinkDrop(links, collections, active, overId) == Move(target)
    ensures DragEnd(links, collections, active.id, Some(overId), now)
      == ThenCollections(WithCollection(links, active.id, target), collections, [SetLinkCollection(active.id, target, now)], active.id, overId)
  {
  }

  /** When the dragged item is not a link, only the collection reorder
      can apply. */
  lemma DragEndNoLinkResult(links: seq<Link>, collections: seq<Collection>, activeId: string, overId: string, now: string)
    requires activeId != overId && FindLink(links, activeId).None?
    ensures DragEnd(links, collections, activeId, Some(overId), now) == ThenCollections(links, collections, [], activeId, overId)
  {
  }

  lemma ThenCollectionsResult(links: seq<Link>, collections: seq<Collection>, w: seq<StoreWrite>, activeId: string, overId: string)
    ensures var r := ThenCollections(links, collections, w, activeId, overId);
      var moved := CollectionDrop(collections, activeId, overId);
      r.links == links
      && (moved.None? ==> r.collections == collections && r.writes == w)
      && (moved.Some? ==> r.collections == moved.value && r.writes == w + CollectionPositionWrites(moved.value))
  {
  }

  /** Dropping a link on a link of its own bucket leaves that bucket listed
      in the dropped order with positions 0, 1, ..., n-1, and the dragged
      link at the index the link under it had. */
  lemma DragEndSameBucket(links: seq<Link>, collections: seq<Collection>, activeId: string, overId: string, now: string)
    requires DistinctIds(links)
    requires activeId != overId && FindLink(links, activeId).Some?
    requires FindCollection(collections, overId).None? && overId != "ungrouped"
    requires FindLink(links, overId).Some?
    requires FindLink(links, overId).value.collectionId == FindLink(links, activeId).value.collectionId
    ensures var b := FindLink(links, activeId).value.collectionId;
      var same := BucketOrder(links, b);
      var from := IndexOfLink(same, activeId);
      var to := IndexOfLink(same, overId);
      var view := BucketOrder(DragEnd(links, collections, activeId, Some(overId), now).links, b);
      0 <= from && 0 <= to
      && view == Numbered(ArrayMove(same, from, to))
      && view[to].id == activeId
  {
    var active := FindLink(links, activeId).value;
    var b := active.collectionId;
    var same := BucketOrder(links, b);
    SameBucketDropReorders(links, collections, active, overId);
    var from := IndexOfLink(same, activeId);
    var to := IndexOfLink(same, overId);
    var order := ArrayMove(same, from, to);
    ArrayMovePermutes(same, from, to);
    DragEndReorderResult(links, collections, activeId, overId, now);
    ReorderedView(links, collections, active, overId);
    var r := DragEnd(links, collections, activeId, Some(overId), now);
    assert r.links == Renumbered(links, b, order);
    assert BucketOrder(r.links, b) == Numbered(order);
  }

  /** A reorder within one bucket leaves links of other buckets and the
      collections alone, issues one `position = i` write per bucket member
      in the dropped order, and each member's new local position is the
      one written for it. */
  lemma DragEndSameBucketWrites(links: seq<Link>, collections: seq<Collection>, activeId: string, overId: string, now: string)
    requires DistinctIds(links)
    requires activeId != overId && FindLink(links, activeId).Some?
    requires FindCollection(collections, overId).None? && overId != "ungrouped"
    requires FindLink(links, overId).Some?
    requires FindLink(links, overId).value.collectionId == FindLink(links, activeId).value.collectionId
    ensures var b := FindLink(links, activeId).value.collectionId;
      var same := BucketOrder(links, b);
      var r := DragEnd(links, collections, activeId, Some(overId), now);
      0 <= IndexOfLink(same, activeId) && 0 <= IndexOfLink(same, overId)
      && (forall i | 0 <= i < |links| :: links[i].collectionId != b ==> r.links[i] == links[i])
      && r.collections == collections
      && r.writes == LinkPositionWrites(ArrayMove(same, IndexOfLink(same, activeId), IndexOfLink(same, overId)))
      && (forall i | 0 <= i < |links| && links[i].collectionId == b :: SetLinkPosition(links[i].id, r.links[i].position) in r.writes)
  {
    var active := FindLink(links, activeId).value;
    SameBucketDropReorders(links, collections, active, overId);
    DragEndReorderResult(links, collections, activeId, overId, now);
    ReorderedView(links, collections, active, overId);
  }

  /** The local state of a reorder: the bucket lists in the planned order
      with positions 0, 1, ..., n-1, and every member's new position is the
      one written for it. */
  lemma ReorderedView(links: seq<Link>, collections: seq<Collection>, active: Link, overId: string)
    requires DistinctIds(links)
    requires PlanLinkDrop(links, collections, active, overId).Reorder?
    ensures var plan := PlanLinkDrop(links, collections, active, overId);
      var r := Renumbered(links, plan.bucket, plan.order);
      BucketOrder(r, plan.bucket) == Numbered(plan.order)
      && (forall i | 0 <= i < |links| && links[i].collectionId == plan.bucket ::
            SetLinkPosition(links[i].id, r[i].position) in LinkPositionWrites(plan.order))
  {
    var plan := PlanLinkDrop(links, collections, active, overId);
    ReorderPermutesBucket(links, collections, active, overId);
    RenumberedBucket(links, plan.bucket, plan.order);
    forall i | 0 <= i < |links| && links[i].collectionId == plan.bucket
      ensures SetLinkPosition(links[i].id, Renumbered(links, plan.bucket, plan.order)[i].position) in LinkPositionWrites(plan.order)
    {
      RenumberedMatchesWrites(links, plan.bucket, plan.order, i);
    }
  }

  /** Dropping a link anywhere but on a link of its own bucket (and not
      dragging a collection at the same time) changes only that link's
      collection id, issues the single write carrying the new id, and
      leaves every position as it was; with distinct ids the link then
      lists in the target bucket and in no other. */
  lemma DragEndMove(links: seq<Link>, collections: seq<Collection>, activeId: string, overId: string, now: string, b: CollectionRef)
    requires DistinctIds(links)
    requires activeId != overId && FindLink(links, activeId).Some?
    requires FindCollection(collections, activeId).None?
    requires PlanLinkDrop(links, collections, FindLink(links, activeId).value, overId).Move?
    ensures var active := FindLink(links, activeId).value;
      var target := PlanLinkDrop(links, collections, active, overId).target;
      var r := DragEnd(links, collections, activeId, Some(overId), now);
      r.links == WithCollection(links, activeId, target)
      && r.collections == collections
      && r.writes == [SetLinkCollection(activeId, target, now)]
      && (forall i | 0 <= i < |links| :: r.links[i].position == links[i].position)
      && active.(collectionId := target) in BucketOrder(r.links, target)
      && (b != target ==> forall l | l in BucketOrder(r.links, b) :: l.id != activeId)
  {
    var active := FindLink(links, activeId).value;
    var target := PlanLinkDrop(links, collections, active, overId).target;
    DragEndMoveResult(links, collections, active, overId, target, now);
    ThenCollectionsResult(WithCollection(links, activeId, target), collections, [SetLinkCollection(activeId, target, now)], activeId, overId);
    MovedLinkLists(links, active, target, b);
  }

  /** After `active` is given the collection id `target`, it lists in that
      bucket, and in no other one when ids are distinct. */
  lemma MovedLinkLists(links: seq<Link>, active: Link, target: CollectionRef, b: CollectionRef)
    requires DistinctIds(links) && active in links
    ensures var r := WithCollection(links, active.id, target);
      active.(collectionId := target) in BucketOrder(r, target)
      && (b != target ==> forall l | l in BucketOrder(r, b) :: l.id != active.id)
  {
    var r := WithCollection(links, active.id, target);
    var k :| 0 <= k < |links| && links[k] == active;
    assert r[k] == active.(collectionId := target);
    BucketOrderSpec(r, target, r[k]);
    if b != target {
      forall l | l in BucketOrder(r, b) ensures l.id != active.id {
        BucketOrderSpec(r, b, l);
        var j :| 0 <= j < |r| && r[j] == l;
      }
    }
  }

  /** Dropping a collection on another collection rearranges the list by
      `arrayMove` (same collections, same length, the dragged one at the
      index of the one under it), leaves the links alone, and writes
      `position = i` for the i-th collection of the new order; the local
      collection records keep their old `position` fields. */
  lemma DragEndCollections(links: seq<Link>, collections: seq<Collection>, activeId: string, overId: string, now: string)
    requires activeId != overId && FindLink(links, activeId).None?
    requires FindCollection(collections, activeId).Some? && FindCollection(collections, overId).Some?
    ensures var r := DragEnd(links, collections, activeId, Some(overId), now);
      var to := IndexOfCollection(collections, overId);
      r.links == links
      && |r.collections| == |collections| && multiset(r.collections) == multiset(collections)
      && 0 <= to < |r.collections| && r.collections[to].id == activeId
      && r.writes == CollectionPositionWrites(r.collections)
      && (forall c | c in r.collections :: c in collections)
  {
    var from := IndexOfCollection(collections, activeId);
    var to := IndexOfCollection(collections, overId);
    ArrayMoveAt(collections, from, to);
    DragEndNoLinkResult(links, collections, activeId, overId, now);
    ThenCollectionsResult(links, collections, [], activeId, overId);
    var moved := CollectionDrop(collections, activeId, overId).value;
    assert moved == ArrayMove(collections, from, to);
    forall c | c in moved ensures c in collections {
      assert c in multiset(moved);
    }
  }

  /** A drop onto nothing, or onto the dragged item itself, changes nothing
      and writes nothing. */
  lemma DragEndNoTarget(links: seq<Link>, collections: seq<Collection>, activeId: string, now: string)
    ensures DragEnd(links, collections, activeId, None, now) == DragResult(links, collections, [])
    ensures DragEnd(links, collections, activeId, Some(activeId), now) == DragResult(links, collections, [])
  {
  }

  /** The ungrouped list treats a missing and a `null` collection id alike,
      but the drop handler compares them strictly: dropping a link whose id
      is missing on a `null` link of the same list is a move to `null`, not
      a reorder. */
  lemma MissingAndNullAreDifferentBuckets(links: seq<Link>, collections: seq<Collection>, active: Link, overId: string)
    requires active in links && active.collectionId == Absent
    requires FindCollection(collections, overId).None? && overId != "ungrouped"
    requires FindLink(links, overId).Some? && FindLink(links, overId).value.collectionId == Null
    ensures active in UngroupedView(links) && FindLink(links, overId).value in UngroupedView(links)
    ensures PlanLinkDrop(links, collections, active, overId) == Move(Null)
  {
    UngroupedViewSpec(links, active);
    UngroupedViewSpec(links, FindLink(links, overId).value);
  }

  /** The reorder loop: `position = i` for `order[i]`, one row at a time
      in increasing `i`. */
  method IssueLinkPositions(order: seq<Link>) returns (issued: seq<StoreWrite>)
    ensures issued == LinkPositionWrites(order)
  {
    issued := [];
    for i := 0 to |order|
      invariant issued == LinkPositionWrites(order)[..i]
    {
      issued := issued + [SetLinkPosition(order[i].id, i)];
    }
  }

  /** The collection reorder loop. */
  method IssueCollectionPositions(order: seq<Collection>) returns (issued: seq<StoreWrite>)
    ensures issued == CollectionPositionWrites(order)
  {
    issued := [];
    for i := 0 to |order|
      invariant issued == CollectionPositionWrites(order)[..i]
    {
      issued := issued + [SetCollectionPosition(order[i].id, i)];
    }
  }

  /** The state of the links tab. */
  class LinksBoard {
    var links: seq<Link>
    var collections: seq<Collection>
    /** Ids of the expanded collection cards. */
    var expanded: set<string>
    /** The item being dragged. */
    var activeId: Option<string>
    var editingLink: Option<Link>
    var showAddModal: bool
    var showAddCollectionModal: bool
    /** Every row write issued so far, oldest first. */
    var writes: seq<StoreWrite>

    /** The first render followed by the mount effect, which expands every
        collection. */
    constructor (links0: seq<Link>, collections0: seq<Collection>)
      ensures links == links0 && collections == collections0
      ensures expanded == ExpandAll(collections0)
      ensures activeId == None && editingLink == None
      ensures !showAddModal && !showAddCollectionModal && writes == []
    {
      links := links0;
      collections := collections0;
      expanded := ExpandAll(collections0);
      activeId := None;
      editingLink := None;
      showAddModal := false;
      showAddCollectionModal := false;
      writes := [];
    }

    /** The effect that runs whenever `collections` changes: every
        collection is expanded again. */
    method CollectionsChanged()
      modifies this`expanded
      ensures expanded == ExpandAll(collections)
    {
      expanded := ExpandAll(collections);
    }

    method HandleDragStart(id: string)
      modifies this`activeId
      ensures activeId == Some(id)
    {
      activeId := Some(id);
    }

    /** `handleDragEnd`: the position writes of a reorder are issued one
        per index, in increasing order, by the loops of the source. When the
        collections were reordered, the effect on `collections` runs after
        the handler and expands every card, which is the same set of ids as
        before the drop. */
    method HandleDragEnd(dragged: string, over: Option<string>, now: string)
      modifies this`activeId, this`links, this`collections, this`writes, this`expanded
      ensures activeId == None
      ensures var r := DragEnd(old(links), old(collections), dragged, over, now);
        links == r.links && collections == r.collections && writes == old(writes) + r.writes
      ensures ReordersCollections(old(links), old(collections), dragged, over) ==>
        expanded == ExpandAll(collections) == ExpandAll(old(collections))
      ensures !ReordersCollections(old(links), old(collections), dragged, over) ==> expanded == old(expanded)
    {
      activeId := None;
      if over.None? {
        return;
      }
      var overId := over.value;
      if dragged == overId {
        return;
      }
      ghost var collections0 := collections;
      var changed;
      var activeLink := FindLink(links, dragged);
      if activeLink.Some? {
        changed := DragLinkOnto(activeLink.value, overId, now);
      } else {
        ghost var links0, writes0 := links, writes;
        DragEndNoLinkResult(links0, collections0, dragged, overId, now);
        changed := DropCollection(dragged, overId, writes0, []);
      }
      if changed {
        CollectionsChanged();
        ExpandAllPermutation(collections0, collections);
      }
    }

    /** `handleDragEnd` when the dragged item is the link `active`: the
        link part, then the collection part unless the link was reordered;
        `changed` tells whether `onCollectionsChange` was called. */
    method DragLinkOnto(active: Link, overId: string, now: string) returns (changed: bool)
      modifies this`links, this`collections, this`writes
      requires active.id != overId && FindLink(links, active.id) == Some(active)
      ensures var r := DragEnd(old(links), old(collections), active.id, Some(overId), now);
        links == r.links && collections == r.collections && writes == old(writes) + r.writes
      ensures changed <==> ReordersCollections(old(links), old(collections), active.id, Some(overId))
      ensures changed ==> multiset(collections) == multiset(old(collections))
    {
      ghost var links0, collections0, writes0 := links, collections, writes;
      var plan := PlanLinkDrop(links, collections, active, overId);
      assert LinkPlan(links0, collections0, active.id, overId) == Some(plan);
      var reordered := DropLink(active, overId, now);
      if reordered {
        DragEndReorderResult(links0, collections0, active.id, overId, now);
        return false;
      }
      DragEndMoveResult(links0, collections0, active, overId, plan.target, now);
      changed := DropCollection(active.id, overId, writes0, [SetLinkCollection(active.id, plan.target, now)]);
    }

    /** The link part of `handleDragEnd` for the dragged link `active`:
        a reorder of its bucket, which ends the handler (`reordered`), or a
        move to another bucket. */
    method DropLink(active: Link, overId: string, now: string) returns (reordered: bool)
      modifies this`links, this`writes
      requires FindLink(links, active.id) == Some(active)
      ensures var plan := PlanLinkDrop(old(links), old(collections), active, overId);
        (reordered <==> plan.Reorder?)
        && (plan.Reorder? ==>
              links == Renumbered(old(links), plan.bucket, plan.order)
              && writes == old(writes) + LinkPositionWrites(plan.order))
        && (plan.Move? ==>
              links == WithCollection(old(links), active.id, plan.target)
              && writes == old(writes) + [SetLinkCollection(active.id, plan.target, now)])
    {
      var drop := PlanLinkDrop(links, collections, active, overId);
      if drop.Reorder? {
        var order := drop.order;
        links := Renumbered(links, drop.bucket, order);
        var issued := IssueLinkPositions(order);
        writes := writes + issued;
        return true;
      }
      writes := writes + [SetLinkCollection(active.id, drop.target, now)];
      links := WithCollection(links, active.id, drop.target);
      return false;
    }

    /** The collection part of `handleDragEnd`, run after the link part has
        issued `linkWrites` on top of `writes0`: a reorder of the collections
        when both the dragged item and the item under it are collections;
        `changed` tells whether `onCollectionsChange` was called. */
    method DropCollection(activeId': string, overId: string, ghost writes0: seq<StoreWrite>, ghost linkWrites: seq<StoreWrite>)
      returns (changed: bool)
      modifies this`collections, this`writes
      requires writes == writes0 + linkWrites
      ensures var r := ThenCollections(links, old(collections), linkWrites, activeId', overId);
        collections == r.collections && writes == writes0 + r.writes
      ensures changed <==> CollectionDrop(old(collections), activeId', overId).Some?
      ensures changed ==> multiset(collections) == multiset(old(collections))
    {
      ThenCollectionsResult(links, collections, linkWrites, activeId', overId);
      var activeCollection := FindCollection(collections, activeId');
      var overCollection := FindCollection(collections, overId);
      changed := activeCollection.Some? && overCollection.Some?;
      if changed {
        MoveCollection(activeId', overId);
        AppendAssoc(writes0, linkWrites, CollectionPositionWrites(collections));
      }
    }

    /** The collection reorder itself: `arrayMove` and the position writes. */
    method MoveCollection(activeId': string, overId: string)
      modifies this`collections, this`writes
      requires CollectionDrop(collections, activeId', overId).Some?
      ensures collections == CollectionDrop(old(collections), activeId', overId).value
      ensures writes == old(writes) + CollectionPositionWrites(collections)
    {
      var from := IndexOfCollection(collections, activeId');
      var to := IndexOfCollection(collections, overId);
      var moved := ArrayMove(collections, from, to);
      collections := moved;
      var issued := IssueCollectionPositions(moved);
      writes := writes + issued;
    }

    method HandleUpdateLink(updated: Link)
      modifies this`links, this`editingLink
      ensures links == ReplaceLink(old(links), updated) && editingLink == None
    {
      links := ReplaceLink(links, updated);
      editingLink := None;
    }

    /** `handleDeleteLink`; `confirmed` is the user's answer to the dialog
        and `deleted` whether the store reported no error. */
    method HandleDeleteLink(linkId: string, confirmed: bool, deleted: bool)
      modifies this`links, this`writes
      ensures writes == old(writes) + (if confirmed then [DeleteLinkRow(linkId)] else [])
      ensures links == (if confirmed && deleted then RemoveLink(old(links), linkId) else old(links))
    {
      if !confirmed {
        return;
      }
      writes := writes + [DeleteLinkRow(linkId)];
      if deleted {
        links := RemoveLink(links, linkId);
      }
    }

    /** `handleAddCollection`, followed by the effect on `collections`:
        every card ends up expanded, the new one included. */
    method HandleAddCollection(c: Collection)
      modifies this`collections, this`expanded, this`showAddCollectionModal
      ensures collections == old(collections) + [c] && !showAddCollectionModal
      ensures expanded == ExpandAll(collections) == ExpandAll(old(collections)) + {c.id}
    {
      collections := collections + [c];
      expanded := expanded + {c.id};
      showAddCollectionModal := false;
      CollectionsChanged();
      ExpandAllAppend(old(collections), c);
    }

    /** `handleDeleteCollection`: the members are ungrouped in the store
        first, whatever that write returns; only when the collection row is
        deleted without error does the local state change, after which the
        effect on `collections` expands every remaining card. */
    method HandleDeleteCollection(id: string, confirmed: bool, deleted: bool)
      modifies this`collections, this`expanded, this`links, this`writes
      ensures writes == old(writes) + (if confirmed then [UngroupLinks(id), DeleteCollectionRow(id)] else [])
      ensures confirmed && deleted ==>
        collections == RemoveCollection(old(collections), id)
        && expanded == ExpandAll(collections) == ExpandAll(old(collections)) - {id}
        && links == Ungrouped(old(links), id)
      ensures !(confirmed && deleted) ==>
        collections == old(collections) && expanded == old(expanded) && links == old(links)
    {
      if !confirmed {
        return;
      }
      writes := writes + [UngroupLinks(id)];
      writes := writes + [DeleteCollectionRow(id)];
      if !deleted {
        return;
      }
      collections := RemoveCollection(collections, id);
      expanded := expanded - {id};
      links := Ungrouped(links, id);
      CollectionsChanged();
      ExpandAllRemove(old(collections), id);
    }

    method HandleUngroupCollection(id: string, confirmed: bool, ungrouped: bool)
      modifies this`links, this`writes
      ensures writes == old(writes) + (if confirmed then [UngroupLinks(id)] else [])
      ensures links == (if confirmed && ungrouped then Ungrouped(old(links), id) else old(links))
    {
      if !confirmed {
        return;
      }
      writes := writes + [UngroupLinks(id)];
      if ungrouped {
        links := Ungrouped(links, id);
      }
    }

    method ToggleCollection(id: string)
      modifies this`expanded
      ensures expanded == Toggled(old(expanded), id)
    {
      expanded := Toggled(expanded, id);
    }

    /** The add-link dialog's `onAdd`: the new link is appended and the
        dialog closes. */
    method AddLink(newLink: Link)
      modifies this`links, this`showAddModal
      ensures links == old(links) + [newLink] && !showAddModal
    {
      links := links + [newLink];
      showAddModal := false;
    }
  }

  /** A delete from the edit dialog of `dialog` over `board`, as written:
      the dialog's `handleDelete`, then, when it calls `onDelete`, the
      board's `handleDeleteLink` with its own confirmation and its own
      delete. Nothing closes the dialog. */
  method DeleteFromEditDialog(board: LinksBoard, dialog: EditLinkModal.EditLinkModal, confirmed: bool,
                              status: Store.Status, confirmedAgain: bool, deletedAgain: bool)
    requires dialog.Valid()
    modifies dialog`isDeleting, dialog`error, dialog`deletes, dialog`deleted, board`links, board`writes
    ensures dialog.Valid()
    ensures dialog.deletes == old(dialog.deletes) + (if confirmed then [dialog.link.id] else [])
    ensures var r := EditDialogDelete(old(board.links), dialog.link.id, confirmed, status, confirmedAgain, deletedAgain);
      board.writes == old(board.writes) + r.0 && board.links == r.1
  {
    dialog.HandleDelete(confirmed, status);
    if confirmed && status == Store.Ok {
      board.HandleDeleteLink(dialog.link.id, confirmedAgain, deletedAgain);
    }
  }

  /** A delete from the edit dialog as evidently intended: `onDelete` drops
      the link from the board's list and closes the dialog, with no second
      confirmation and no second delete. */
  method DeleteFromEditDialogCorrected(board: LinksBoard, dialog: EditLinkModal.EditLinkModal, confirmed: bool,
                                       status: Store.Status)
    requires dialog.Valid()
    modifies dialog`isDeleting, dialog`error, dialog`deletes, dialog`deleted, board`links, board`editingLink
    ensures dialog.Valid()
    ensures dialog.deletes == old(dialog.deletes) + (if confirmed then [dialog.link.id] else [])
    ensures board.links == EditDialogDeleteCorrected(old(board.links), dialog.link.id, confirmed, status)
    ensures board.editingLink == if confirmed && status == Store.Ok then None else old(board.editingLink)
  {
    dialog.HandleDelete(confirmed, status);
    if confirmed && status == Store.Ok {
      board.links := RemoveLink(board.links, dialog.link.id);
      board.editingLink := None;
    }
  }
}
