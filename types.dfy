/** The records the dashboard works on (src/types/index.ts) and the table
    of colour themes. JavaScript numbers used as `position` and
    `click_count` are modelled as integers; timestamps stay opaque strings. */
module Types {

  datatype Option<T> = None | Some(value: T)

  /** `Link.collection_id?: string | null` has three distinct values: the
      field may be missing (`undefined`), `null`, or a string. Strict
      equality (`===`) tells all three apart, while a truthiness test treats
      a missing field, `null` and the empty string alike. */
  datatype CollectionRef = Absent | Null | Id(value: string) {
    /** JavaScript truthiness of the field's value. */
    predicate Truthy() {
      Id? && value != ""
    }
  }

  datatype Link = Link(
    id: string,
    userId: string,
    collectionId: CollectionRef,
    title: string,
    url: string,
    description: Option<string>,
    position: int,
    isActive: bool,
    clickCount: int,
    icon: Option<string>,
    createdAt: string,
    updatedAt: string)

  datatype Collection = Collection(
    id: string,
    userId: string,
    title: string,
    description: Option<string>,
    position: int,
    isActive: bool,
    createdAt: string,
    updatedAt: string)

  datatype Profile = Profile(
    id: string,
    username: string,
    displayName: Option<string>,
    bio: Option<string>,
    avatarUrl: Option<string>,
    theme: string,
    isPublic: bool,
    createdAt: string,
    updatedAt: Option<string>)

  /** A presentation theme: its id, display name and four colours. */
  datatype Theme = Theme(
    id: string,
    name: string,
    backgroundColor: string,
    textColor: string,
    buttonColor: string,
    buttonTextColor: string)

  /** The fixed theme table, in the order the settings screen lists it. */
  const Themes: seq<Theme> := [
    Theme("default", "Default", "#ffffff", "#000000", "#000000", "#ffffff"),
    Theme("dark", "Dark", "#1a1a1a", "#ffffff", "#ffffff", "#000000"),
    Theme("purple", "Purple", "#f3f4f6", "#1f2937", "#8b5cf6", "#ffffff"),
    Theme("blue", "Blue", "#eff6ff", "#1e40af", "#3b82f6", "#ffffff"),
    Theme("green", "Green", "#f0fdf4", "#166534", "#22c55e", "#ffffff"),
    Theme("pink", "Pink", "#fdf2f8", "#be185d", "#ec4899", "#ffffff")
  ]

  function ThemeIds(ts: seq<Theme>): (ids: seq<string>)
    ensures |ids| == |ts|
    ensures forall i | 0 <= i < |ts| :: ids[i] == ts[i].id
  {
    if ts == [] then [] else [ts[0].id] + ThemeIds(ts[1..])
  }

  /** No two entries of a sequence are equal. */
  predicate Distinct<T(==)>(s: seq<T>) {
    forall i, j | 0 <= i < j < |s| :: s[i] != s[j]
  }

  /** There are six themes, listed as default, dark, purple, blue, green,
      pink; their ids are pairwise distinct, so a lookup by id finds at most
      one, and `default` comes first. */
  lemma ThemesTable()
    ensures ThemeIds(Themes) == ["default", "dark", "purple", "blue", "green", "pink"]
    ensures Distinct(ThemeIds(Themes))
    ensures Themes[0].id == "default"
  {
    var ids := ThemeIds(Themes);
    assert ids == ["default", "dark", "purple", "blue", "green", "pink"];
    forall i, j | 0 <= i < j < |ids| ensures ids[i] != ids[j] {
      assert ids[i][0] != ids[j][0] || ids[i][1] != ids[j][1];
    }
  }
}
