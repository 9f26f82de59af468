/**
 * The favorites page and the gallery keep no common in-memory list: they
 * meet only in the one storage entry. These sessions run both against the
 * same `LocalStore`.
 */
module SharedStorage {
  import opened Wrappers
  import opened Storage
  import Favorites
  import Gallery

  /**
   * The favorites page adds 5, then the gallery toggles 5 on the same entry:
   * the entry no longer holds 5 and the gallery reports it as no favorite,
   * while the favorites page's in-memory list still does until it reloads.
   */
  method GalleryToggleAfterAdd() returns (stored: Cell, pageSaysFavorite: bool, gallerySays: Option<bool>, reloaded: seq<int>)
    ensures stored == Ids([])
    ensures pageSaysFavorite
    ensures gallerySays == Some(false)
    ensures reloaded == []
  {
    var store := new LocalStore(Absent);
    var page := new Favorites.FavoritesEngine(store);
    page.Initialize(false, NotOk);
    page.Add(5);
    var ok := Gallery.ToggleStoredFavorite(store, 5);
    Gallery.GalleryToggleTwice([], 5);
    stored := store.favorites;
    pageSaysFavorite := page.IsFavorite(5);
    gallerySays := Gallery.CheckIfFavorite(store.favorites, 5);
    page.LoadFromLocalStorage();
    reloaded := page.favoriteIds;
  }

  /** What either page saves, the gallery reads back: its test agrees with the page's own. */
  method GalleryReadsWhatPageSaved(start: seq<int>, id: int, other: int) returns (pageSays: bool, gallerySays: Option<bool>)
    ensures gallerySays == Some(pageSays)
    ensures pageSays <==> other == id || other in start
  {
    var store := new LocalStore(Ids(start));
    var page := new Favorites.FavoritesEngine(store);
    page.Initialize(false, NotOk);
    page.Add(id);
    pageSays := page.IsFavorite(other);
    gallerySays := Gallery.CheckIfFavorite(store.favorites, other);
  }
}
