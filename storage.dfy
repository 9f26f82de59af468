/**
 * The one `localStorage` entry holding the favorite ids, under the key
 * `artMuseumFavorites`. Both the favorites page and the gallery read and
 * write it, so both act on the same `LocalStore` object.
 */
module Storage {

  const FavoritesKey := "artMuseumFavorites"

  /**
   * What `JSON.parse` makes of the entry: no entry (or the empty string),
   * a list of ids, or text that does not parse.
   */
  datatype Cell = Absent | Ids(ids: seq<int>) | Malformed

  /**
   * The list read from the entry: the stored ids, or the empty list when
   * there is no entry. Unparsable text also reads as the empty list where the
   * reader catches the parse error; a reader that does not catch it must
   * test for `Malformed` first.
   */
  function LoadedIds(cell: Cell): seq<int> {
    match cell
    case Ids(ids) => ids
    case Absent => []
    case Malformed => []
  }

  class LocalStore {
    var favorites: Cell

    constructor (initial: Cell)
      ensures favorites == initial
    {
      favorites := initial;
    }
  }
}
