/** The phone-frame preview of the dashboard
    (src/app/dashboard/components/PreviewPanel.tsx): which links it shows,
    in which sections and order, with which theme and avatar fallback. The
    panel's derivations are expressions over its props; its one piece of
    state is the set of expanded collection ids. */
module PreviewPanel {
  import opened Types
  import opened Ordering
  import opened Buckets
  import opened Strings

  /** `themes.find(t => t.id === id)`. */
  function FindTheme(ts: seq<Theme>, id: string): (r: Option<Theme>)
    ensures r.None? <==> forall i | 0 <= i < |ts| :: ts[i].id != id
    ensures r.Some? ==> r.value in ts && r.value.id == id
  {
    if ts == [] then None
    else if ts[0].id == id then Some(ts[0])
    else FindTheme(ts[1..], id)
  }

  /** `themes.find(t => t.id === profile.theme) || themes[0]`. */
  function SelectTheme(profile: Profile): (t: Theme)
    ensures t in Themes
    ensures (exists i | 0 <= i < |Themes| :: Themes[i].id == profile.theme) ==> t.id == profile.theme
    ensures (forall i | 0 <= i < |Themes| :: Themes[i].id != profile.theme) ==> t == Themes[0]
  {
    match FindTheme(Themes, profile.theme)
    case Some(t) => t
    case None => Themes[0]
  }

  /** An unknown theme id falls back to the default theme. */
  lemma UnknownThemeIsDefault(profile: Profile)
    requires profile.theme !in ThemeIds(Themes)
    ensures SelectTheme(profile).id == "default"
  {
    ThemesTable();
    forall i | 0 <= i < |Themes| ensures Themes[i].id != profile.theme {
      assert ThemeIds(Themes)[i] == Themes[i].id;
    }
  }

  /** `links.filter(link => link.is_active).sort(byPosition)`. */
  function ActiveLinks(links: seq<Link>): seq<Link> {
    SortByPosition(Filter(links, IsActive))
  }

  /** The panel shows exactly the active links, ascending by position. */
  lemma ActiveLinksSpec(links: seq<Link>, l: Link)
    ensures Sorted(ActiveLinks(links))
    ensures multiset(ActiveLinks(links)) == multiset(Filter(links, IsActive))
    ensures l in ActiveLinks(links) <==> l in links && l.isActive
  {
    SortSpec(Filter(links, IsActive));
    FilterMembers(links, IsActive, l);
    assert l in ActiveLinks(links) <==> l in multiset(ActiveLinks(links));
  }

  /** `activeLinks.filter(link => !link.collection_id)`. */
  function UngroupedSection(links: seq<Link>): seq<Link> {
    Filter(ActiveLinks(links), IsUngrouped)
  }

  /** The ungrouped section is the active links without a (truthy)
      collection id, sorted by position, and nothing else. */
  lemma UngroupedSectionSpec(links: seq<Link>, l: Link)
    ensures UngroupedSection(links) == SortByPosition(Filter(Filter(links, IsActive), IsUngrouped))
    ensures Sorted(UngroupedSection(links))
    ensures l in UngroupedSection(links) <==> l in links && l.isActive && !l.collectionId.Truthy()
  {
    var active := Filter(links, IsActive);
    FilterSortCommute(active, IsUngrouped);
    SortSpec(Filter(active, IsUngrouped));
    ActiveLinksSpec(links, l);
    FilterMembers(ActiveLinks(links), IsUngrouped, l);
  }

  datatype Group = Group(collection: Collection, links: seq<Link>)

  /** `{ collection, links: activeLinks.filter(link => link.collection_id === collection.id) }`. */
  function GroupOf(active: seq<Link>): Collection -> Group {
    (c: Collection) => Group(c, Filter(active, InBucket(Id(c.id))))
  }

  function HasLinks(g: Group): bool {
    |g.links| > 0
  }

  /** `collections.map(...).filter(group => group.links.length > 0)`. */
  function GroupedSection(links: seq<Link>, collections: seq<Collection>): seq<Group> {
    Filter(Map(collections, GroupOf(ActiveLinks(links))), HasLinks)
  }

  /** A collection gets a group exactly when it is listed and some active
      link carries its id; the group then holds that collection's links. */
  lemma GroupedSectionHas(links: seq<Link>, collections: seq<Collection>, c: Collection)
    ensures Group(c, Filter(ActiveLinks(links), InBucket(Id(c.id)))) in GroupedSection(links, collections) <==>
      c in collections && exists k | 0 <= k < |links| :: links[k].isActive && links[k].collectionId == Id(c.id)
  {
    var active := ActiveLinks(links);
    var mapped := Map(collections, GroupOf(active));
    var gc := Group(c, Filter(active, InBucket(Id(c.id))));
    FilterMembers(mapped, HasLinks, gc);
    if c in collections {
      var i :| 0 <= i < |collections| && collections[i] == c;
      assert mapped[i] == gc;
    }
    if gc in mapped {
      var i :| 0 <= i < |mapped| && mapped[i] == gc;
      assert collections[i] == c;
    }
    if gc.links != [] {
      ActiveLinksSpec(links, gc.links[0]);
      FilterMembers(active, InBucket(Id(c.id)), gc.links[0]);
      var k :| 0 <= k < |links| && links[k] == gc.links[0];
    }
    if exists k | 0 <= k < |links| :: links[k].isActive && links[k].collectionId == Id(c.id) {
      var k :| 0 <= k < |links| && links[k].isActive && links[k].collectionId == Id(c.id);
      ActiveLinksSpec(links, links[k]);
      FilterMembers(active, InBucket(Id(c.id)), links[k]);
    }
  }

  /** Every group belongs to a listed collection, is non-empty, is ordered
      by position and holds exactly the active links carrying that
      collection's id. */
  lemma GroupedSectionContents(links: seq<Link>, collections: seq<Collection>, g: Group, l: Link)
    requires g in GroupedSection(links, collections)
    ensures g.collection in collections && g.links != [] && Sorted(g.links)
    ensures l in g.links <==> l in links && l.isActive && l.collectionId == Id(g.collection.id)
  {
    var active := ActiveLinks(links);
    var mapped := Map(collections, GroupOf(active));
    FilterMembers(mapped, HasLinks, g);
    var i :| 0 <= i < |mapped| && mapped[i] == g;
    assert g == GroupOf(active)(collections[i]);
    var bucket := InBucket(Id(g.collection.id));
    assert g.links == Filter(SortByPosition(Filter(links, IsActive)), bucket);
    FilterSortCommute(Filter(links, IsActive), bucket);
    SortSpec(Filter(Filter(links, IsActive), bucket));
    ActiveLinksSpec(links, l);
    FilterMembers(active, bucket, l);
  }

  /** `group => group.collection`. */
  function GroupCollection(g: Group): Collection {
    g.collection
  }

  /** Whether some active link carries the collection's id. */
  function HasActiveLink(links: seq<Link>): Collection -> bool {
    (c: Collection) => exists k | 0 <= k < |links| :: links[k].isActive && links[k].collectionId == Id(c.id)
  }

  /** A collection's group is kept exactly when some active link carries
      its id. */
  lemma GroupKept(links: seq<Link>, c: Collection)
    ensures HasLinks(GroupOf(ActiveLinks(links))(c)) <==> HasActiveLink(links)(c)
  {
    var active := ActiveLinks(links);
    var members := Filter(active, InBucket(Id(c.id)));
    if members != [] {
      ActiveLinksSpec(links, members[0]);
      FilterMembers(active, InBucket(Id(c.id)), members[0]);
      var k :| 0 <= k < |links| && links[k] == members[0];
    }
    if HasActiveLink(links)(c) {
      var k :| 0 <= k < |links| && links[k].isActive && links[k].collectionId == Id(c.id);
      ActiveLinksSpec(links, links[k]);
      FilterMembers(active, InBucket(Id(c.id)), links[k]);
    }
  }

  /** The groups follow the order of `collections`: listing each group's
      collection gives exactly the listed collections that some active link
      carries, in their order, one group per entry. */
  lemma {:induction false} GroupedSectionOrder(links: seq<Link>, collections: seq<Collection>)
    ensures Map(GroupedSection(links, collections), GroupCollection) == Filter(collections, HasActiveLink(links))
    decreases |collections|
  {
    if collections != [] {
      var c := collections[0];
      var rest := collections[1..];
      GroupedSectionOrder(links, rest);
      var f := GroupOf(ActiveLinks(links));
      assert Map(collections, f) == [f(c)] + Map(rest, f);
      var head := if HasLinks(f(c)) then [f(c)] else [];
      var kept := Filter(Map(rest, f), HasLinks);
      assert GroupedSection(links, collections) == head + kept by {
        var mapped := Map(collections, f);
        assert mapped[0] == f(c) && mapped[1..] == Map(rest, f);
      }
      MapAppend(head, kept, GroupCollection);
      GroupKept(links, c);
      assert Map(head, GroupCollection) == if HasActiveLink(links)(c) then [c] else [];
    }
  }

  /** An active link whose collection id names no listed collection is in
      neither the ungrouped section nor any group. */
  lemma OrphanedLinkHidden(links: seq<Link>, collections: seq<Collection>, l: Link)
    requires l.collectionId.Truthy()
    requires forall c | c in collections :: Id(c.id) != l.collectionId
    ensures l !in UngroupedSection(links)
    ensures forall g | g in GroupedSection(links, collections) :: l !in g.links
  {
    UngroupedSectionSpec(links, l);
    forall g | g in GroupedSection(links, collections) ensures l !in g.links {
      GroupedSectionContents(links, collections, g, l);
    }
  }

  /** The empty state ("No links added yet") shows when nothing is active. */
  function ShowsEmptyState(links: seq<Link>): bool {
    |ActiveLinks(links)| == 0
  }

  lemma EmptyStateSpec(links: seq<Link>)
    ensures ShowsEmptyState(links) <==> forall l | l in links :: !l.isActive
  {
    if !ShowsEmptyState(links) {
      ActiveLinksSpec(links, ActiveLinks(links)[0]);
    }
    forall l | l in links && l.isActive ensures !ShowsEmptyState(links) {
      ActiveLinksSpec(links, l);
    }
  }

  /** JavaScript truthiness of an optional string field. */
  predicate Present(s: Option<string>) {
    s.Some? && s.value != ""
  }

  /** `(display_name || username || 'U').charAt(0).toUpperCase()`. */
  function AvatarInitial(profile: Profile): (r: string)
    ensures |r| == 1
    ensures Present(profile.displayName) ==> r[0] == UpperChar(profile.displayName.value[0])
    ensures !Present(profile.displayName) && profile.username != "" ==> r[0] == UpperChar(profile.username[0])
    ensures !Present(profile.displayName) && profile.username == "" ==> r == "U"
  {
    var name := if Present(profile.displayName) then profile.displayName.value
                else if profile.username != "" then profile.username
                else "U";
    [UpperChar(name[0])]
  }

  /** The initial is never a lower-case ASCII letter. */
  lemma AvatarInitialNotLower(profile: Profile)
    ensures !('a' <= AvatarInitial(profile)[0] <= 'z')
  {
  }

  /** `display_name || '@' + username`: the heading of the preview. */
  function Heading(profile: Profile): (r: string)
    ensures Present(profile.displayName) ==> r == profile.displayName.value
    ensures !Present(profile.displayName) ==> StartsWith(r, "@") && r[1..] == profile.username
  {
    if Present(profile.displayName) then profile.displayName.value else "@" + profile.username
  }
}
