/** What the dashboard's views select links by; the fact that link ids
    (primary keys of the links table) identify links, so that selections
    and rearrangements of links with distinct ids still have distinct ids;
    and the set of expanded collection ids both views keep. */
module Buckets {
  import opened Types
  import opened Ordering
  import opened Sortable

  /** `link.is_active`. */
  function IsActive(l: Link): bool {
    l.isActive
  }

  /** `!link.collection_id`: a missing id, `null` and the empty string all
      count as ungrouped in the views. */
  function IsUngrouped(l: Link): bool {
    !l.collectionId.Truthy()
  }

  /** `link.collection_id === ref`: strict equality, so a missing id and
      `null` select different buckets. */
  function InBucket(ref: CollectionRef): Link -> bool {
    (l: Link) => l.collectionId == ref
  }

  function LinkIds(s: seq<Link>): (ids: seq<string>)
    ensures |ids| == |s|
    ensures forall i | 0 <= i < |s| :: ids[i] == s[i].id
  {
    Map(s, (l: Link) => l.id)
  }

  function CollectionIds(s: seq<Collection>): (ids: seq<string>)
    ensures |ids| == |s|
    ensures forall i | 0 <= i < |s| :: ids[i] == s[i].id
  {
    Map(s, (c: Collection) => c.id)
  }

  predicate DistinctIds(s: seq<Link>) {
    forall i, j | 0 <= i < j < |s| :: s[i].id != s[j].id
  }

  /** `findIndex` by id: the first index holding `id`, or -1 when there is
      none. */
  function IndexOfId(ids: seq<string>, id: string): (k: int)
    ensures -1 <= k < |ids|
    ensures k == -1 <==> forall j | 0 <= j < |ids| :: ids[j] != id
    ensures k >= 0 ==> ids[k] == id && forall j | 0 <= j < k :: ids[j] != id
  {
    if ids == [] then -1
    else if ids[0] == id then 0
    else var k := IndexOfId(ids[1..], id); if k == -1 then -1 else k + 1
  }

  /** `s.findIndex(l => l.id === id)` over links. */
  function IndexOfLink(s: seq<Link>, id: string): (k: int)
    ensures -1 <= k < |s|
    ensures k == -1 <==> forall j | 0 <= j < |s| :: s[j].id != id
    ensures k >= 0 ==> s[k].id == id && forall j | 0 <= j < k :: s[j].id != id
  {
    IndexOfId(LinkIds(s), id)
  }

  /** `s.findIndex(c => c.id === id)` over collections. */
  function IndexOfCollection(s: seq<Collection>, id: string): (k: int)
    ensures -1 <= k < |s|
    ensures k == -1 <==> forall j | 0 <= j < |s| :: s[j].id != id
    ensures k >= 0 ==> s[k].id == id && forall j | 0 <= j < k :: s[j].id != id
  {
    IndexOfId(CollectionIds(s), id)
  }

  /** With distinct ids, the index found for the id of `s[i]` is `i`. */
  lemma IndexOfDistinct(s: seq<Link>, i: nat)
    requires DistinctIds(s) && i < |s|
    ensures IndexOfLink(s, s[i].id) == i
  {
  }

  lemma {:induction false} FilterDistinct(s: seq<Link>, p: Link -> bool)
    requires DistinctIds(s)
    ensures DistinctIds(Filter(s, p))
    decreases |s|
  {
    if s != [] {
      FilterDistinct(s[1..], p);
      var f' := Filter(s[1..], p);
      FilterCons(s[0], s[1..], p);
      assert s == [s[0]] + s[1..];
      forall j | 0 <= j < |f'| ensures f'[j].id != s[0].id {
        FilterMembers(s[1..], p, f'[j]);
      }
    }
  }

  lemma {:induction false} InsertDistinct(x: Link, s: seq<Link>)
    requires DistinctIds(s)
    requires forall j | 0 <= j < |s| :: s[j].id != x.id
    ensures DistinctIds(Insert(x, s))
    decreases |s|
  {
    if s != [] && x.position > s[0].position {
      var t := Insert(x, s[1..]);
      InsertDistinct(x, s[1..]);
      InsertPermutes(x, s[1..]);
      forall j | 0 <= j < |t| ensures t[j].id != s[0].id {
        assert t[j] in multiset(s[1..]) + multiset{x};
      }
    }
  }

  lemma {:induction false} SortDistinct(s: seq<Link>)
    requires DistinctIds(s)
    ensures DistinctIds(SortByPosition(s))
    decreases |s|
  {
    if s != [] {
      var t := SortByPosition(s[1..]);
      SortDistinct(s[1..]);
      SortSpec(s[1..]);
      forall j | 0 <= j < |t| ensures t[j].id != s[0].id {
        assert t[j] in multiset(s[1..]);
      }
      InsertDistinct(s[0], t);
    }
  }

  lemma ArrayMoveDistinct(s: seq<Link>, from: nat, to: nat)
    requires DistinctIds(s) && from < |s| && to < |s|
    ensures DistinctIds(ArrayMove(s, from, to))
  {
    var r := ArrayMove(s, from, to);
    ArrayMoveAt(s, from, to);
    forall i, j | 0 <= i < j < |r| ensures r[i].id != r[j].id {
      assert Origin(from, to, i) != Origin(from, to, j);
    }
  }

  predicate DistinctCollectionIds(s: seq<Collection>) {
    forall i, j | 0 <= i < j < |s| :: s[i].id != s[j].id
  }

  /** With distinct ids, the index found for the id of `s[i]` is `i`. */
  lemma IndexOfCollectionDistinct(s: seq<Collection>, i: nat)
    requires DistinctCollectionIds(s) && i < |s|
    ensures IndexOfCollection(s, s[i].id) == i
  {
  }

  lemma ArrayMoveCollectionsDistinct(s: seq<Collection>, from: nat, to: nat)
    requires DistinctCollectionIds(s) && from < |s| && to < |s|
    ensures DistinctCollectionIds(ArrayMove(s, from, to))
  {
    var r := ArrayMove(s, from, to);
    ArrayMoveAt(s, from, to);
    forall i, j | 0 <= i < j < |r| ensures r[i].id != r[j].id {
      assert Origin(from, to, i) != Origin(from, to, j);
    }
  }

  /** `new Set(collections.map(c => c.id))`: the expanded set the effect
      installs whenever `collections` changes (in both the links tab and the
      preview). */
  function ExpandAll(collections: seq<Collection>): (r: set<string>)
    ensures forall i | 0 <= i < |collections| :: collections[i].id in r
    ensures forall x | x in r :: exists i | 0 <= i < |collections| :: collections[i].id == x
  {
    set i | 0 <= i < |collections| :: collections[i].id
  }

  /** `toggleCollection` (links tab and preview alike): a copy of the
      expanded set with the membership of `id` flipped. */
  function Toggled(expanded: set<string>, id: string): (r: set<string>)
    ensures id in r <==> id !in expanded
    ensures forall x | x != id :: x in r <==> x in expanded
  {
    if id in expanded then expanded - {id} else expanded + {id}
  }

  /** Toggling twice restores the set. */
  lemma ToggleTwice(expanded: set<string>, id: string)
    ensures Toggled(Toggled(expanded, id), id) == expanded
  {
  }
}
