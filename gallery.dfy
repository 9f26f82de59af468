/**
 * The gallery page: the four filter criteria and the filtered list, the
 * option lists of the filter menus, the century label, the lightbox
 * navigation and the gallery's own favorite toggle, which writes the same
 * storage entry as the favorites engine.
 */
module Gallery {
  import opened Wrappers
  import opened JsText
  import opened Lists
  import opened Sorting
  import opened Catalog
  import opened Storage

  // ---------------------------------------------------------------------
  // Century label
  // ---------------------------------------------------------------------

  /** `Math.ceil(y / 100)`: the century a year falls in; year 0 and the years just before it give 0. */
  function Century(y: int): (c: int)
    ensures (c - 1) * 100 < y <= c * 100
  {
    -((-y) / 100)
  }

  const UnknownCentury := "Inconnu"
  const CenturySuffix := "e siècle"

  /** `getCentury(year)`: the century in words, or "Inconnu" when the year does not parse. */
  function GetCentury(year: string): (r: string)
    ensures r == UnknownCentury <==> ParseInt(year) == None
  {
    var parsed := ParseInt(year);
    if parsed.None? then UnknownCentury
    else
      var words := IntToDecimal(Century(parsed.value)) + CenturySuffix;
      assert words[0] == IntToDecimal(Century(parsed.value))[0];
      words
  }

  /** A parsed year's label reads back, through `parseInt`, as its century. */
  lemma CenturyLabelReadsBack(year: string)
    requires ParseInt(year).Some?
    ensures ParseInt(GetCentury(year)) == Some(Century(ParseInt(year).value))
  {
    ParseIntOfDecimalPrefix(Century(ParseInt(year).value), CenturySuffix);
  }

  /** Two years get the same label exactly when both fail to parse or both fall in the same century. */
  lemma CenturyLabelsDistinguish(year1: string, year2: string)
    ensures GetCentury(year1) == GetCentury(year2) <==>
      match (ParseInt(year1), ParseInt(year2))
      case (None, None) => true
      case (Some(y1), Some(y2)) => Century(y1) == Century(y2)
      case _ => false
  {
    if ParseInt(year1).Some? && ParseInt(year2).Some? {
      CenturyLabelReadsBack(year1);
      CenturyLabelReadsBack(year2);
    }
  }

  /** A year written out in digits is labelled with its century. */
  lemma CenturyOfWrittenYear(y: int)
    ensures GetCentury(IntToDecimal(y)) == IntToDecimal(Century(y)) + CenturySuffix
  {
    ParseIntRoundTrip(y);
  }

  /** A year that closes a century (1500) belongs to it; the next year (1501) opens the following one. */
  lemma CenturyBoundary(c: int)
    ensures GetCentury(IntToDecimal(100 * c)) == IntToDecimal(c) + CenturySuffix
    ensures GetCentury(IntToDecimal(100 * c + 1)) == IntToDecimal(c + 1) + CenturySuffix
  {
    var close, open := 100 * c, 100 * c + 1;
    assert Century(close) == c;
    assert Century(open) == c + 1;
    CenturyOfWrittenYear(close);
    CenturyOfWrittenYear(open);
  }

  /**
   * A year whose text, after leading white space, is empty or starts with
   * neither a sign nor a digit (such as "vers 1500") has no century.
   */
  lemma CenturyOfText(s: string)
    requires var t := TrimStart(s); t == [] || (!IsDigit(t[0]) && t[0] != '-' && t[0] != '+')
    ensures GetCentury(s) == UnknownCentury
  {
    var t := TrimStart(s);
    assert SkipSign(t) == t;
    assert LeadingDigits(t) == [];
  }

  // ---------------------------------------------------------------------
  // Filters
  // ---------------------------------------------------------------------

  /** `state.currentFilters`; the search text is kept lower-cased. */
  datatype Filters = Filters(artist: string, century: string, category: string, search: string)

  const AllValues := "all"

  const DefaultFilters := Filters(AllValues, AllValues, AllValues, "")

  predicate ArtistMatches(f: Filters, a: Artwork) {
    f.artist == AllValues || a.artist == f.artist
  }

  predicate CenturyMatches(f: Filters, a: Artwork) {
    f.century == AllValues || GetCentury(a.year) == f.century
  }

  predicate CategoryMatches(f: Filters, a: Artwork) {
    f.category == AllValues || a.category == f.category
  }

  /** The title, the artist or a non-empty description contains the search text, ignoring case. */
  predicate SearchMatches(f: Filters, a: Artwork) {
    f.search == "" || SearchHit(f.search, a)
  }

  predicate SearchHit(search: string, a: Artwork) {
    || Contains(Lower(a.title), search)
    || Contains(Lower(a.artist), search)
    || (a.description.Some? && a.description.value != "" && Contains(Lower(a.description.value), search))
  }

  predicate Matches(f: Filters, a: Artwork) {
    ArtistMatches(f, a) && CenturyMatches(f, a) && CategoryMatches(f, a) && SearchMatches(f, a)
  }

  /** What the gallery shows under the filters `f`: the artworks meeting every criterion, in catalogue order. */
  function Selected(artworks: seq<Artwork>, f: Filters): seq<Artwork> {
    Filter(artworks, a => Matches(f, a))
  }

  /** An artwork is shown exactly when it is in the catalogue and meets every criterion. */
  lemma SelectedMembers(artworks: seq<Artwork>, f: Filters)
    ensures forall a :: a in Selected(artworks, f) <==> a in artworks && Matches(f, a)
  {
    FilterKeeps(artworks, a => Matches(f, a));
  }

  /** Selection keeps catalogue order: it works piecewise on any split of the catalogue. */
  lemma SelectedKeepsOrder(front: seq<Artwork>, back: seq<Artwork>, f: Filters)
    ensures Selected(front + back, f) == Selected(front, f) + Selected(back, f)
  {
    FilterAppend(front, back, a => Matches(f, a));
  }

  /** The default criteria impose nothing. */
  lemma DefaultFiltersSelectAll(artworks: seq<Artwork>)
    ensures Selected(artworks, DefaultFilters) == artworks
  {
    FilterAll(artworks, a => Matches(DefaultFilters, a));
  }

  /** Adding one more criterion can only narrow the selection. */
  lemma NarrowingArtist(artworks: seq<Artwork>, f: Filters, artist: string)
    requires f.artist == AllValues
    ensures forall a :: a in Selected(artworks, f.(artist := artist)) ==> a in Selected(artworks, f)
  {
    SelectedMembers(artworks, f);
    SelectedMembers(artworks, f.(artist := artist));
  }

  // ---------------------------------------------------------------------
  // Filter menus
  // ---------------------------------------------------------------------

  lemma StrLeIsTotalPreorder()
    ensures IsTotalPreorder(StrLe)
  {
    forall a: string, b: string ensures StrLe(a, b) || StrLe(b, a) {
      StrLeTotal(a, b);
    }
    forall a: string, b: string, c: string | StrLe(a, b) && StrLe(b, c) ensures StrLe(a, c) {
      StrLeTransitive(a, b, c);
    }
  }

  /** `[...new Set(values)].sort()`: each value once, in code-unit order. */
  function MenuOptions(values: seq<string>): (r: seq<string>)
    ensures NoDup(r)
    ensures SortedBy(r, StrLe)
    ensures forall v :: v in r <==> v in values
  {
    var distinct := Dedup(values);
    StrLeIsTotalPreorder();
    SortPermutes(distinct, StrLe);
    SortSorts(distinct, StrLe);
    var r := InsertionSort(distinct, StrLe);
    NoDupPermutation(distinct, r);
    SameMultisetSameValues(distinct, r);
    r
  }

  /** A menu depends only on which values occur, not on their order or repetition. */
  lemma MenuOptionsOnlyDependOnValues(values1: seq<string>, values2: seq<string>)
    requires forall v :: v in values1 <==> v in values2
    ensures MenuOptions(values1) == MenuOptions(values2)
  {
    var r1, r2 := MenuOptions(values1), MenuOptions(values2);
    SameValuesSameMultiset(r1, r2);
    forall x, y | x in r1 && y in r1 && StrLe(x, y) && StrLe(y, x) ensures x == y {
      StrLeAntisymmetric(x, y);
    }
    SortedUnique(r1, r2, StrLe);
  }

  /** Century labels are ordered as text, so the sixteenth century is listed before the ninth. */
  lemma CenturyMenuIsTextOrder()
    ensures MenuOptions(["9e siècle", "16e siècle"]) == ["16e siècle", "9e siècle"]
  {
    var r := ["16e siècle", "9e siècle"];
    assert StrLe(r[0], r[1]);
    assert NoDup(r) && SortedBy(r, StrLe);
    assert forall v :: v in r <==> v in ["9e siècle", "16e siècle"];
    MenuOptionsOnlyDependOnValues(["9e siècle", "16e siècle"], r);
    assert Dedup(r) == r;
    MenuOptionsOfSorted(r);
  }

  /** A list that is already duplicate-free and in order is its own menu. */
  lemma MenuOptionsOfSorted(values: seq<string>)
    requires NoDup(values) && SortedBy(values, StrLe)
    ensures MenuOptions(values) == values
  {
    var r := MenuOptions(values);
    SameValuesSameMultiset(r, values);
    forall x, y | x in r && y in r && StrLe(x, y) && StrLe(y, x) ensures x == y {
      StrLeAntisymmetric(x, y);
    }
    SortedUnique(r, values, StrLe);
  }

  function ArtistsOf(artworks: seq<Artwork>): seq<string> {
    seq(|artworks|, i requires 0 <= i < |artworks| => artworks[i].artist)
  }

  function CenturiesOf(artworks: seq<Artwork>): seq<string> {
    seq(|artworks|, i requires 0 <= i < |artworks| => GetCentury(artworks[i].year))
  }

  function CategoriesOf(artworks: seq<Artwork>): seq<string> {
    seq(|artworks|, i requires 0 <= i < |artworks| => artworks[i].category)
  }

  lemma ArtistsOfMembers(artworks: seq<Artwork>)
    ensures forall v :: v in ArtistsOf(artworks) <==> exists a :: a in artworks && a.artist == v
  {
    var values := ArtistsOf(artworks);
    forall v | exists a :: a in artworks && a.artist == v
      ensures v in values
    {
      var a :| a in artworks && a.artist == v;
      var i :| 0 <= i < |artworks| && artworks[i] == a;
      assert values[i] == v;
    }
  }

  lemma CenturiesOfMembers(artworks: seq<Artwork>)
    ensures forall v :: v in CenturiesOf(artworks) <==> exists a :: a in artworks && GetCentury(a.year) == v
  {
    var values := CenturiesOf(artworks);
    forall v | exists a :: a in artworks && GetCentury(a.year) == v
      ensures v in values
    {
      var a :| a in artworks && GetCentury(a.year) == v;
      var i :| 0 <= i < |artworks| && artworks[i] == a;
      assert values[i] == v;
    }
  }

  lemma CategoriesOfMembers(artworks: seq<Artwork>)
    ensures forall v :: v in CategoriesOf(artworks) <==> exists a :: a in artworks && a.category == v
  {
    var values := CategoriesOf(artworks);
    forall v | exists a :: a in artworks && a.category == v
      ensures v in values
    {
      var a :| a in artworks && a.category == v;
      var i :| 0 <= i < |artworks| && artworks[i] == a;
      assert values[i] == v;
    }
  }

  /** `populateFilters()`: the artist, century and category menus. */
  function PopulateFilters(artworks: seq<Artwork>): (menus: (seq<string>, seq<string>, seq<string>))
    ensures NoDup(menus.0) && SortedBy(menus.0, StrLe)
    ensures forall v :: v in menus.0 <==> exists a :: a in artworks && a.artist == v
    ensures NoDup(menus.1) && SortedBy(menus.1, StrLe)
    ensures forall v :: v in menus.1 <==> exists a :: a in artworks && GetCentury(a.year) == v
    ensures NoDup(menus.2) && SortedBy(menus.2, StrLe)
    ensures forall v :: v in menus.2 <==> exists a :: a in artworks && a.category == v
  {
    ArtistsOfMembers(artworks);
    CenturiesOfMembers(artworks);
    CategoriesOfMembers(artworks);
    (MenuOptions(ArtistsOf(artworks)), MenuOptions(CenturiesOf(artworks)), MenuOptions(CategoriesOf(artworks)))
  }

  // ---------------------------------------------------------------------
  // Lightbox navigation
  // ---------------------------------------------------------------------

  /** `findIndex(a => a.id === id)`; no artwork has the id `null`. */
  function FindById(artworks: seq<Artwork>, id: Option<int>): (r: int)
    ensures -1 <= r < |artworks|
    ensures r == -1 <==> id.None? || forall k :: 0 <= k < |artworks| ==> artworks[k].id != id.value
    ensures 0 <= r ==> artworks[r].id == id.value && forall k :: 0 <= k < r ==> artworks[k].id != id.value
  {
    if id.None? || artworks == [] then -1
    else if artworks[0].id == id.value then 0
    else
      var k := FindById(artworks[1..], id);
      if k == -1 then -1 else k + 1
  }

  /** The index `navigateLightbox` moves to: one step, wrapping at both ends of a list of `len` artworks. */
  function NextIndex(current: int, direction: int, len: nat): (r: int)
    requires direction == 1 || direction == -1
    ensures len > 0 && -1 <= current < len ==> 0 <= r < len
    ensures len > 0 && 0 <= current + direction < len ==> r == current + direction
  {
    var stepped := current + direction;
    var low := if stepped < 0 then len - 1 else stepped;
    if low >= len then 0 else low
  }

  /** Stepping forward then back, or back then forward, returns to the same artwork. */
  lemma NavigationReturns(current: int, len: nat)
    requires 0 <= current < len
    ensures NextIndex(NextIndex(current, 1, len), -1, len) == current
    ensures NextIndex(NextIndex(current, -1, len), 1, len) == current
  {
  }

  /** Past the last artwork comes the first, before the first the last, and a lost position restarts at an end. */
  lemma NavigationWraps(len: nat)
    requires len > 0
    ensures NextIndex(len - 1, 1, len) == 0
    ensures NextIndex(0, -1, len) == len - 1
    ensures NextIndex(-1, 1, len) == 0 && NextIndex(-1, -1, len) == len - 1
  {
  }

  // ---------------------------------------------------------------------
  // The gallery's favorite toggle
  // ---------------------------------------------------------------------

  /** `checkIfFavorite(id)`; `None` is the exception `JSON.parse` throws on unreadable text. */
  function CheckIfFavorite(cell: Cell, id: int): (r: Option<bool>)
    ensures r.None? <==> cell.Malformed?
    ensures r == Some(true) <==> cell.Ids? && id in cell.ids
  {
    match cell
    case Absent => Some(false)
    case Ids(ids) => Some(id in ids)
    case Malformed => None
  }

  /** The stored list after the gallery's toggle: every copy removed, or the id pushed. */
  function GalleryToggled(ids: seq<int>, id: int): seq<int> {
    if id in ids then Filter(ids, x => x != id) else ids + [id]
  }

  /** The gallery's toggle flips membership on any list and touches no other id. */
  lemma GalleryToggleFlips(ids: seq<int>, id: int)
    ensures id in GalleryToggled(ids, id) <==> id !in ids
    ensures forall x :: x != id ==> (x in GalleryToggled(ids, id) <==> x in ids)
  {
    FilterKeeps(ids, x => x != id);
  }

  /** Two gallery toggles restore membership; from an absent id, the list itself. */
  lemma GalleryToggleTwice(ids: seq<int>, id: int)
    ensures forall x :: x in GalleryToggled(GalleryToggled(ids, id), id) <==> x in ids
    ensures id !in ids ==> GalleryToggled(GalleryToggled(ids, id), id) == ids
  {
    GalleryToggleFlips(ids, id);
    GalleryToggleFlips(GalleryToggled(ids, id), id);
    if id !in ids {
      FilterAppend(ids, [id], x => x != id);
      FilterAll(ids, x => x != id);
    }
  }

  /** Unlike the favorites page, the gallery removes every copy of a repeated id. */
  lemma GalleryToggleRemovesAllCopies()
    ensures GalleryToggled([7, 7], 7) == []
  {
  }

  /** `toggleFavorite(id)` on the stored list; `false` when unreadable text makes `JSON.parse` throw. */
  method ToggleStoredFavorite(store: LocalStore, id: int) returns (ok: bool)
    modifies store
    ensures ok <==> !old(store.favorites).Malformed?
    ensures !ok ==> store.favorites == old(store.favorites)
    ensures ok ==> store.favorites == Ids(GalleryToggled(LoadedIds(old(store.favorites)), id))
  {
    if store.favorites.Malformed? {
      return false;
    }
    var favorites := LoadedIds(store.favorites);
    if id in favorites {
      favorites := Filter(favorites, x => x != id);
    } else {
      favorites := favorites + [id];
    }
    store.favorites := Ids(favorites);
    ok := true;
  }

  // ---------------------------------------------------------------------
  // The page state
  // ---------------------------------------------------------------------

  class GalleryState {
    var artworks: seq<Artwork>
    var filteredArtworks: seq<Artwork>
    var filters: Filters
    var currentLightbox: Option<int>

    /** Every shown artwork comes from the catalogue. */
    ghost predicate Valid()
      reads this
    {
      forall a :: a in filteredArtworks ==> a in artworks
    }

    /** The state once `loadArtworks` has stored the catalogue. */
    constructor (catalogue: seq<Artwork>)
      ensures Valid()
      ensures artworks == catalogue && filteredArtworks == catalogue
      ensures filters == DefaultFilters && currentLightbox == None
    {
      artworks := catalogue;
      filteredArtworks := catalogue;
      filters := DefaultFilters;
      currentLightbox := None;
    }

    /** `applyFilters()`: one `filter` per active criterion, in the code's order. */
    method ApplyFilters()
      modifies this`filteredArtworks
      ensures filteredArtworks == Selected(artworks, filters)
      ensures Valid()
    {
      var f := filters;
      var filtered := artworks;
      if f.artist != AllValues {
        filtered := Filter(filtered, (a: Artwork) => a.artist == f.artist);
        FilterExt(artworks, (a: Artwork) => a.artist == f.artist, (a: Artwork) => ArtistMatches(f, a));
      } else {
        FilterAll(artworks, (a: Artwork) => ArtistMatches(f, a));
      }
      ghost var upTo1 := (a: Artwork) => ArtistMatches(f, a);
      assert filtered == Filter(artworks, upTo1);
      ghost var upTo2 := (a: Artwork) => ArtistMatches(f, a) && CenturyMatches(f, a);
      if f.century != AllValues {
        filtered := Filter(filtered, (a: Artwork) => GetCentury(a.year) == f.century);
        FilterFuse(artworks, upTo1, (a: Artwork) => GetCentury(a.year) == f.century, upTo2);
      } else {
        FilterExt(artworks, upTo1, upTo2);
      }
      ghost var upTo3 := (a: Artwork) => ArtistMatches(f, a) && CenturyMatches(f, a) && CategoryMatches(f, a);
      if f.category != AllValues {
        filtered := Filter(filtered, (a: Artwork) => a.category == f.category);
        FilterFuse(artworks, upTo2, (a: Artwork) => a.category == f.category, upTo3);
      } else {
        FilterExt(artworks, upTo2, upTo3);
      }
      ghost var all := (a: Artwork) => Matches(f, a);
      if f.search != "" {
        var search := f.search;
        filtered := Filter(filtered, (a: Artwork) => SearchHit(search, a));
        FilterFuse(artworks, upTo3, (a: Artwork) => SearchHit(search, a), all);
      } else {
        FilterExt(artworks, upTo3, all);
      }
      filteredArtworks := filtered;
      SelectedMembers(artworks, f);
    }

    method SetArtistFilter(value: string)
      modifies this`filters, this`filteredArtworks
      ensures filters == old(filters).(artist := value)
      ensures filteredArtworks == Selected(artworks, filters)
      ensures Valid()
    {
      filters := filters.(artist := value);
      ApplyFilters();
    }

    method SetCenturyFilter(value: string)
      modifies this`filters, this`filteredArtworks
      ensures filters == old(filters).(century := value)
      ensures filteredArtworks == Selected(artworks, filters)
      ensures Valid()
    {
      filters := filters.(century := value);
      ApplyFilters();
    }

    method SetCategoryFilter(value: string)
      modifies this`filters, this`filteredArtworks
      ensures filters == old(filters).(category := value)
      ensures filteredArtworks == Selected(artworks, filters)
      ensures Valid()
    {
      filters := filters.(category := value);
      ApplyFilters();
    }

    /** The search box stores its text lower-cased before filtering. */
    method SetSearch(input: string)
      modifies this`filters, this`filteredArtworks
      ensures filters == old(filters).(search := Lower(input))
      ensures filteredArtworks == Selected(artworks, filters)
      ensures Valid()
    {
      filters := filters.(search := Lower(input));
      ApplyFilters();
    }

    /** `resetFilters()`: default criteria, and the whole catalogue shown. */
    method ResetFilters()
      modifies this`filters, this`filteredArtworks
      ensures filters == DefaultFilters
      ensures filteredArtworks == artworks
      ensures filteredArtworks == Selected(artworks, filters)
      ensures Valid()
    {
      filters := DefaultFilters;
      filteredArtworks := artworks;
      DefaultFiltersSelectAll(artworks);
    }

    /** `openLightbox(id)`: only an id of the catalogue opens it. */
    method OpenLightbox(id: int)
      modifies this`currentLightbox
      ensures (exists a :: a in artworks && a.id == id) ==> currentLightbox == Some(id)
      ensures (forall a :: a in artworks ==> a.id != id) ==> currentLightbox == old(currentLightbox)
    {
      if FindById(artworks, Some(id)) != -1 {
        currentLightbox := Some(id);
      }
    }

    method CloseLightbox()
      modifies this`currentLightbox
      ensures currentLightbox == None
    {
      currentLightbox := None;
    }

    /**
     * `navigateLightbox(direction)`: close, then open the neighbour in the
     * filtered list. On an empty list the code reads an element that does not
     * exist and throws after closing; `moved` is false then.
     */
    method NavigateLightbox(direction: int) returns (moved: bool)
      requires direction == 1 || direction == -1
      requires Valid()
      modifies this`currentLightbox
      ensures moved <==> filteredArtworks != []
      ensures !moved ==> currentLightbox == None
      ensures moved ==>
        var next := NextIndex(FindById(filteredArtworks, old(currentLightbox)), direction, |filteredArtworks|);
        0 <= next < |filteredArtworks| && currentLightbox == Some(filteredArtworks[next].id)
    {
      var currentIndex := FindById(filteredArtworks, currentLightbox);
      var newIndex := NextIndex(currentIndex, direction, |filteredArtworks|);
      CloseLightbox();
      if |filteredArtworks| == 0 {
        return false;
      }
      assert filteredArtworks[newIndex] in artworks;
      OpenLightbox(filteredArtworks[newIndex].id);
      moved := true;
    }
  }
}
