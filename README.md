# Art museum front end: favorites, gallery, authentication and comments

This project models the client-side state handling of an art museum's web front end.
The front end is four browser scripts:

- **The favorites engine** (`favorites.js`). It keeps the ordered list of favorite artwork ids
  (`favoritesState.favoriteIds`) and writes it through to the `artMuseumFavorites` storage entry.
  It adds, removes, toggles and clears favorites. When a session is open, it merges the list with
  the server's copy.
- **The gallery** (`gallery.js`). It filters the catalogue by artist, century, category and a
  search text, and builds the filter menus. It also computes century labels, steps through the
  lightbox, and has a favorite toggle of its own on the same storage entry.
- **The authentication client** (`auth.js`). It has two form validators and the `authState` record
  changed by `checkAuthentication`, `login` and `logout`. Its `fetchWithAuth` merges headers and
  ends the session on a 401.
- **The comment thread** (`comments.js`). It renders ratings as stars and runs a length counter.
  `addComment`, `updateComment` and `deleteComment` prepend, replace and remove comments in
  `commentsState.comments`, each through `fetchWithAuth`.

Modules:

- `Wrappers`: `Option`, and `Reply`, the abstract outcome of a remote call: it threw, answered
  not-ok, or answered ok with a payload.
- `JsText`: the JavaScript string behaviour the scripts rely on. This covers `trim`, `parseInt`,
  `String(n)`, the code-unit order of the default `sort()`, `includes` and lower-casing.
- `Lists`: `indexOf`, `splice`, `filter`, `[...new Set(...)]` and reversal.
- `Sorting`: an insertion sort, proved stable, which stands for `Array.prototype.sort`.
- `Catalog`: the artwork record.
- `Storage`: the one storage entry, shared by both favorite toggles.
- `Favorites`, `Gallery`, `Auth` and `Comments`: one module per script.
- `SharedStorage`: sessions where the favorites page and the gallery use the same entry.

Each script's mutable record is a class whose methods change its fields. The list logic is in
functions, with lemmas about them. Remote calls, confirmation dialogs and parsed JSON are
parameters of the methods. Each request a method dispatches is appended to a sequence field:
`outbox` for the favorites engine and `sent` for `fetchWithAuth`.

On sync, `mergedFavorites.sort()` (`favorites.js:316`) sorts the deduplicated union in place with
no comparator, and that sorted array is the one adopted (`favorites.js:320`). So the adopted list is
in decimal-string order rather than local-then-server order: merging `[9]` with `[10]` gives
`[10, 9]`. The replace-all test compares the two sorted arrays after `JSON.stringify`, so a server
list holding an id twice also triggers a PUT.

## Model

| member | source | states |
|---|---|---|
| Favorites.IdLeIsTotalPreorder | frontend/js/favorites.js:316 | The default `sort()` order on ids (compare the decimal strings) is total and transitive. |
| Favorites.IdLeAntisymmetric | frontend/js/favorites.js:316 | Two ids equal in that order are the same number, because distinct numbers have distinct decimal strings. |
| Favorites.DefaultSort | frontend/js/favorites.js:316 | `ids.sort()` gives a permutation of the ids, sorted by decimal string. |
| Favorites.DefaultSortUnique | frontend/js/favorites.js:316 | Any permutation sorted by decimal string equals the default sort, so the result does not depend on how the sort works. |
| Favorites.Merged | frontend/js/favorites.js:313-316 | The merged list has no duplicates, holds exactly the ids of the local or the server list, and is in decimal-string order. |
| Favorites.MergedCharacterized | frontend/js/favorites.js:313-316 | Any duplicate-free, string-sorted list of exactly the union equals the merge. |
| Favorites.ReplaceNeededIff | frontend/js/favorites.js:316-318 | A replace-all is sent iff some local id is missing from the server, or the server list has a duplicate. |
| Favorites.ReplaceNeeded | frontend/js/favorites.js:316 | The two sorted lists differ after `JSON.stringify`, which is list inequality. `ReplaceNeededIff` characterises it. |
| Favorites.MergeIdempotent | frontend/js/favorites.js:313-321 | Syncing again with the same server list adopts the same list. |
| Favorites.ReplaceDecisionStable | frontend/js/favorites.js:316-318 | Syncing again with the same server list makes the same replace-all decision. |
| Favorites.ConvergedAfterReplace | frontend/js/favorites.js:316-318 | Once the server holds the merged list, the next sync sends no replace-all. |
| Favorites.MergeAddsServerMissing | frontend/js/favorites.js:313-318 | Local `[10]` merged with server `[20]` gives `[10, 20]`, and a replace-all is sent. |
| Favorites.MergeInAgreement | frontend/js/favorites.js:313-318 | Local `[10]` merged with server `[10]` gives `[10]`, and no replace-all is sent. |
| Favorites.MergeIntoEmpty | frontend/js/favorites.js:313-318 | An empty local list merged with server `[10]` gives `[10]`, and no replace-all is sent. |
| Favorites.MergeOverlapping | frontend/js/favorites.js:313-316 | `[1, 2]` merged with `[2, 3]` gives `[1, 2, 3]`: the shared id appears once. |
| Favorites.MergeInStringOrder | frontend/js/favorites.js:316 | `[9]` merged with `[10]` gives `[10, 9]`: string order, not numeric or insertion order. |
| Favorites.AddedTo | frontend/js/favorites.js:229-234 | After an add the id is present. A present id leaves the list as it was. An absent id is appended with the earlier elements untouched. No duplicate is introduced. |
| Favorites.RemovedFromSpec | frontend/js/favorites.js:247-256 | Removing an absent id changes nothing. Otherwise the element at the id's first index is spliced out and the rest keep their order. The multiset loses exactly one copy of the id. On a duplicate-free list the id is gone and every other id stays. |
| Favorites.ToggleFlips | frontend/js/favorites.js:276-286 | On a duplicate-free list an accepted toggle flips the id's membership, keeps the list duplicate-free, and leaves every other id as it was. |
| Favorites.ToggleTwice | frontend/js/favorites.js:276-286 | Two accepted toggles restore the membership. Starting from an absent id they restore the list itself. |
| Favorites.ToggleWithDuplicateKeepsMember | frontend/js/favorites.js:256 | With a repeated id a toggle removes only one copy (`[7, 7]` becomes `[7]`), so membership does not flip. |
| Favorites.DateAscending | frontend/js/favorites.js:399-403 | The "date-asc" sort is a permutation of the shown artworks, ordered by their index in `favoriteIds`. |
| Favorites.DateDescending | frontend/js/favorites.js:394-398 | The "date-desc" sort is a permutation, ordered by decreasing index in `favoriteIds`. |
| Favorites.AscendingReversedIsDescending | frontend/js/favorites.js:394-403 | Read backwards, the "date-asc" order satisfies the "date-desc" comparator. |
| Favorites.DateDescendingReversesAscending | frontend/js/favorites.js:394-403 | When no two shown artworks share an index, "date-desc" is exactly "date-asc" reversed. |
| Favorites.DateAscendingStable | frontend/js/favorites.js:399-403 | Under "date-asc", artworks with the same `indexOf` rank keep their displayed order. For example, all the artworks that are not in the list keep it. |
| Favorites.DateDescendingStable | frontend/js/favorites.js:394-398 | Under "date-desc", artworks with the same rank keep their displayed order. |
| Favorites.WithoutArtwork | frontend/js/favorites.js:264 | Dropping an artwork from the shown list keeps exactly the artworks with another id. |
| Favorites.FavoritesEngine.constructor | frontend/js/favorites.js:11-16 | The engine starts with empty lists, syncing off and nothing sent. |
| Favorites.FavoritesEngine.IsFavorite | frontend/js/favorites.js:284-286 | `isFavorite` holds iff `indexOf` finds the id, so it is the same test that guards a removal. |
| Favorites.FavoritesEngine.GetCount | frontend/js/favorites.js:594-595 | The count is the length of `getAll()`. On a duplicate-free list it is the number of distinct favorites. |
| Favorites.FavoritesEngine.GetAll | frontend/js/favorites.js:594 | `getAll()` lists exactly the ids that `isFavorite` accepts. |
| Favorites.FavoritesEngine.LoadFromLocalStorage | frontend/js/favorites.js:71-80 | Loading reads the stored list. A missing or unparsable entry reads as `[]`. Nothing else changes. |
| Storage.LoadedIds | frontend/js/favorites.js:72-79 | What a load yields: the stored list, or `[]` for a missing entry or one that fails to parse. |
| Favorites.FavoritesEngine.SaveToLocalStorage | frontend/js/favorites.js:288-294 | Saving makes the entry hold the in-memory list. |
| Favorites.FavoritesEngine.SyncFavoriteToServer | frontend/js/favorites.js:330-345 | A POST (add) or DELETE (remove) of the id is sent iff syncing is on. |
| Favorites.FavoritesEngine.UpdateServerFavorites | frontend/js/favorites.js:347-358 | A PUT of the whole list is sent iff syncing is on. |
| Favorites.FavoritesEngine.Add | frontend/js/favorites.js:229-244 | A present id changes nothing: no push, no save, no request. An absent id is appended and the stored copy equals the new list. A POST is sent only when syncing is on. |
| Favorites.FavoritesEngine.Remove | frontend/js/favorites.js:246-274 | An absent id or a declined confirmation changes nothing. Otherwise the first occurrence is spliced out, the list is saved, a DELETE is sent when syncing is on, and the artwork leaves the shown list. |
| Favorites.FavoritesEngine.SpliceFavorite | frontend/js/favorites.js:256 | `splice(index, 1)` removes the element at that index. |
| Favorites.FavoritesEngine.DropShownArtwork | frontend/js/favorites.js:264 | The shown artworks lose the artworks with that id. |
| Favorites.FavoritesEngine.Toggle | frontend/js/favorites.js:276-282 | A present id goes through the removal and its confirmation. The DELETE is sent only when syncing, and the artwork leaves the shown list. An absent id is added, with a POST only when syncing and the shown list unchanged. Either way the stored copy follows the list. |
| Favorites.FavoritesEngine.SyncWithServer | frontend/js/favorites.js:299-328 | With syncing off, or a fetch that throws or is not ok, nothing changes. Otherwise the merge is adopted and saved, and a PUT of it is sent iff a replace-all is needed. |
| Favorites.FavoritesEngine.ClearAll | frontend/js/favorites.js:446-468 | An empty list or a declined confirmation changes nothing. Otherwise both lists are emptied, `[]` is saved, and a PUT of `[]` is sent only when syncing is on. |
| Favorites.FavoritesEngine.Initialize | frontend/js/favorites.js:25-40 | The stored list is loaded. Only with an open session is syncing switched on and the merge run. The shown artworks are left as they were. |
| Favorites.OfflineStart | frontend/js/favorites.js:25-40 | Stored `[10, 20]` and no session: the list is loaded as is and nothing is sent. |
| Favorites.StartWithMissingServerId | frontend/js/favorites.js:25-40 | Stored `[10]`, session open, server `[20]`: `[10, 20]` is adopted and stored, and PUT once. |
| Favorites.StartInAgreement | frontend/js/favorites.js:25-40 | Stored `[10]`, server `[10]`: nothing is sent. |
| Favorites.AddSurvivesFailedSync | frontend/js/favorites.js:325-327 | A failed sync keeps a favorite added before it, in memory and in storage. |
| Favorites.RemovedOfflineReturns | frontend/js/favorites.js:313-321 | An id removed while signed out is deleted locally with no request, and comes back into memory and storage on the next sign-in when the server still has it, again with no request. |
| Favorites.ClearWhileSyncing | frontend/js/favorites.js:446-461 | Clearing with syncing on empties memory and storage, and the last request is a PUT of `[]`. |
| Storage.LocalStore.constructor | frontend/js/favorites.js:6 | The entry starts with the given contents. |
| Gallery.Century | frontend/js/gallery.js:429-430 | `Math.ceil(year / 100)` is the c with `100(c-1) < year <= 100c`. |
| Gallery.GetCentury | frontend/js/gallery.js:427-431 | The label is `Inconnu` exactly when `parseInt` of the year fails. |
| Gallery.CenturyLabelReadsBack | frontend/js/gallery.js:427-431 | For a readable year, `parseInt` of the label gives back `ceil(year / 100)`. |
| Gallery.CenturyLabelsDistinguish | frontend/js/gallery.js:427-431 | Two years get the same label iff both are unreadable, or both are readable and fall in the same century. |
| Gallery.CenturyOfWrittenYear | frontend/js/gallery.js:427-431 | The year written as decimal text gets the label of its century. |
| Gallery.CenturyBoundary | frontend/js/gallery.js:427-431 | Year 100c is in century c and year 100c + 1 in century c + 1 (1500 gives `15e siècle`, 1503 gives `16e siècle`). |
| Gallery.CenturyOfText | frontend/js/gallery.js:427-431 | A year whose text, after leading white space, is empty or starts with neither a sign nor a digit (such as `vers 1500`) is `Inconnu`, since `parseInt` gives `NaN`. |
| Gallery.SelectedMembers | frontend/js/gallery.js:334-361 | An artwork is shown iff it is in the catalogue and meets all four criteria. |
| Gallery.Selected | frontend/js/gallery.js:334-361 | The catalogue filtered by the four criteria. `SelectedMembers` and `SelectedKeepsOrder` state which artworks it keeps and in what order. |
| Gallery.SelectedKeepsOrder | frontend/js/gallery.js:334-361 | Filtering keeps the catalogue order: it works part by part. |
| Gallery.DefaultFiltersSelectAll | frontend/js/gallery.js:366-379 | Under the default criterion `all` and an empty search, every artwork is shown. |
| Gallery.NarrowingArtist | frontend/js/gallery.js:337-340 | Choosing an artist where `all` was chosen only removes artworks. |
| Gallery.StrLeIsTotalPreorder | frontend/js/gallery.js:313-315 | The default `sort()` order on strings is total and transitive. |
| Gallery.MenuOptions | frontend/js/gallery.js:313-315 | A menu holds each value once, in default-sort order, and exactly the values present. |
| Gallery.MenuOptionsOnlyDependOnValues | frontend/js/gallery.js:313-315 | Two catalogues with the same set of values give the same menu. |
| Gallery.CenturyMenuIsTextOrder | frontend/js/gallery.js:314 | The century menu lists `16e siècle` before `9e siècle`. |
| Gallery.MenuOptionsOfSorted | frontend/js/gallery.js:313-315 | A duplicate-free, sorted list is its own menu. |
| Gallery.PopulateFilters | frontend/js/gallery.js:312-320 | Each of the three menus is duplicate-free, sorted, and holds exactly the artists, century labels or categories of the catalogue. |
| Gallery.FindById | frontend/js/gallery.js:253 | `findIndex` finds the first artwork with the id, or gives -1 when none has it. |
| Gallery.NextIndex | frontend/js/gallery.js:254-258 | For a non-empty list the next index is always valid. Inside the list it is `current + direction`. |
| Gallery.NavigationReturns | frontend/js/gallery.js:252-260 | A step forward then back, or back then forward, returns to the same index. |
| Gallery.NavigationWraps | frontend/js/gallery.js:254-258 | Past the end wraps to 0 and before the start wraps to the last index. From "not found" (-1) the steps are also valid. |
| Gallery.CheckIfFavorite | frontend/js/gallery.js:394-397 | The gallery reports a favorite iff the stored list holds the id. A missing entry counts as `[]`, and an unparsable one makes the check throw. |
| Gallery.GalleryToggleFlips | frontend/js/gallery.js:400-410 | The gallery toggle flips the id's membership and leaves every other id as it was, even on a list with duplicates. |
| Gallery.GalleryToggled | frontend/js/gallery.js:402-408 | A present id is filtered out, every copy of it. An absent id is pushed. `GalleryToggleFlips`, `GalleryToggleTwice` and `GalleryToggleRemovesAllCopies` state the effect. |
| Gallery.GalleryToggleTwice | frontend/js/gallery.js:400-410 | Two gallery toggles restore membership. From an absent id they restore the list. |
| Gallery.GalleryToggleRemovesAllCopies | frontend/js/gallery.js:402-404 | Removal through the gallery drops every copy: `[7, 7]` becomes `[]`. |
| Gallery.ToggleStoredFavorite | frontend/js/gallery.js:399-410 | The toggle rewrites the shared entry with the toggled list, unless the entry is unparsable, in which case it throws and writes nothing. |
| Gallery.GalleryState.constructor | frontend/js/gallery.js:10-20 | After loading, the whole catalogue is shown under the default criteria, and no lightbox is open. |
| Gallery.GalleryState.ApplyFilters | frontend/js/gallery.js:334-364 | The shown list becomes the catalogue filtered by the current criteria. |
| Gallery.GalleryState.SetArtistFilter | frontend/js/gallery.js:280-283 | Choosing an artist changes that criterion only and refilters. |
| Gallery.GalleryState.SetCenturyFilter | frontend/js/gallery.js:287-290 | Choosing a century changes that criterion only and refilters. |
| Gallery.GalleryState.SetCategoryFilter | frontend/js/gallery.js:294-297 | Choosing a category changes that criterion only and refilters. |
| Gallery.GalleryState.SetSearch | frontend/js/gallery.js:301-304 | The search text is stored lower-cased, and the list is refiltered. |
| Gallery.GalleryState.ResetFilters | frontend/js/gallery.js:366-382 | All four criteria return to their defaults and the whole catalogue is shown. |
| Gallery.GalleryState.OpenLightbox | frontend/js/gallery.js:155-159 | Only an id of the catalogue opens the lightbox. |
| Gallery.GalleryState.CloseLightbox | frontend/js/gallery.js:242-250 | Closing leaves no lightbox open. |
| Gallery.GalleryState.NavigateLightbox | frontend/js/gallery.js:252-261 | On a non-empty list the lightbox opens the artwork at the wrapped neighbouring index. On an empty list it is closed. |
| SharedStorage.GalleryToggleAfterAdd | frontend/js/gallery.js:399-410 | After the favorites page adds 5 and the gallery toggles 5, the entry is `[]` and the gallery reports no favorite. The page's in-memory list still holds 5 until it reloads. |
| SharedStorage.GalleryReadsWhatPageSaved | frontend/js/gallery.js:394-397 | After an add on the favorites page, the gallery's check agrees with the page's own `isFavorite`. |
| Auth.ValidateLoginForm | frontend/js/auth.js:248-263 | An email error iff the email is missing or has no `@`, and a password error iff the password is missing or shorter than 6. The email error comes first, no message repeats, and `isValid` holds iff the list is empty. |
| Auth.ValidateRegisterForm | frontend/js/auth.js:265-288 | Each of the four messages appears iff its check fails: email, username shorter than 3, password shorter than 6, confirmation different. There are at most four messages, and `isValid` holds iff there are none. |
| Auth.RegisterErrorsOrdered | frontend/js/auth.js:268-282 | The register messages come in the fixed order email, username, password, confirmation. |
| Auth.RegisterAgreesWithLogin | frontend/js/auth.js:248-288 | With a valid username and a matching confirmation, the register form reports exactly what the login form reports. |
| Auth.FinalHeaders | frontend/js/auth.js:411-414 | The merged headers hold every caller header with the caller's value, plus `Authorization: Bearer <token>` and `Content-Type: application/json` unless the caller gives those names. |
| Auth.FinalOptions | frontend/js/auth.js:402-416 | Every caller field and the body are kept. The headers are exactly the merge of the two defaults with the caller's headers: each default applies unless the caller gives that name, and a caller value always wins. |
| Auth.NoCallerHeadersMeansDefaults | frontend/js/auth.js:402-416 | Without caller headers the request carries exactly the two default headers. |
| Auth.MergeKeepsBoth | frontend/js/auth.js:411-414 | No header is lost, and a default is overridden only by a caller header of the same name. |
| Auth.AuthState.constructor | frontend/js/auth.js:10-14 | The page starts signed out, with the stored token. |
| Auth.AuthState.HasToken | frontend/js/auth.js:398 | The token is truthy: present and not the empty string. `FetchWithAuth` refuses to send without it. |
| Auth.AuthState.CheckAuthentication | frontend/js/auth.js:27-55 | With no token nothing changes. An ok answer signs the user in. A not-ok answer or a throw clears the token in memory and in storage, and leaves the signed-in flag as it was. |
| Auth.AuthState.Login | frontend/js/auth.js:91-130 | Success sets the token, the flag and the user, in memory and in storage. A failure changes nothing and returns the server's message, or `Identifiants incorrects` when there is none. |
| Auth.AuthState.Logout | frontend/js/auth.js:135-156 | A declined logout changes nothing. A confirmed one clears the flag, the user and the token, and both storage entries. |
| Auth.AuthState.FetchWithAuth | frontend/js/auth.js:397-427 | With no token it rejects with `Non authentifié` and sends nothing. Otherwise it sends one request with the merged options. A 401 runs `logout` and rejects with `Session expirée`. Any other answer is returned unchanged. |
| Auth.LoginThenLogout | frontend/js/auth.js:91-156 | After a login and a confirmed logout, the next authenticated request is refused and nothing is sent. |
| Auth.ExpiredButDeclined | frontend/js/auth.js:420-424 | A 401 whose logout dialog is declined still rejects with `Session expirée`, but the session stays open. |
| Auth.RejectedStoredToken | frontend/js/auth.js:27-55 | A stored token the server rejects is dropped, and the page stays signed out. |
| Comments.CreateRatingStars | frontend/js/comments.js:137-149 | A falsy rating gives the `Pas de note` placeholder. Otherwise the output is the five star icons followed by `(rating/5)`. |
| Comments.StarRowFilled | frontend/js/comments.js:141-147 | The i-th star is filled iff i <= rating, so exactly the first `clamp(rating, 0, 5)` stars are filled. |
| Comments.StarRowShape | frontend/js/comments.js:141-147 | The row is the filled stars followed by the empty ones: five icons in all. |
| Comments.SentRating | frontend/js/comments.js:179 | A missing or empty rating is sent as `null`. |
| Comments.SentRatingRoundTrip | frontend/js/comments.js:179 | A rating chosen from the select arrives as the number it shows. |
| Comments.SentRatingOfText | frontend/js/comments.js:179 | Text that `parseInt` cannot read is sent as `null`. |
| Comments.FindIndex | frontend/js/comments.js:231 | `findIndex` gives the first comment with the id, or -1 when none has it. |
| Comments.ReplaceFirstSpec | frontend/js/comments.js:231-234 | An update keeps the length. With no match nothing changes. Otherwise only the first comment with the id is replaced. |
| Comments.ReplaceFirst | frontend/js/comments.js:231-234 | An update keeps the number of comments. `ReplaceFirstSpec` says which one changes. |
| Comments.ReplaceFirstKeepsPlace | frontend/js/comments.js:231-234 | An edit that keeps the id leaves the comment findable at the same index. |
| Comments.WithoutCommentMembers | frontend/js/comments.js:264 | A delete removes every comment with the id, keeps every other one, and adds nothing. |
| Comments.WithoutComment | frontend/js/comments.js:264 | A delete never adds comments. `WithoutCommentMembers`, `WithoutCommentSplits` and `WithoutCommentIdempotent` state which ones go. |
| Comments.WithoutCommentSplits | frontend/js/comments.js:264 | A delete keeps the survivors in order: it works part by part. |
| Comments.WithoutCommentIdempotent | frontend/js/comments.js:264 | Deleting an id twice is the same as deleting it once. |
| Comments.CommentCounter | frontend/js/comments.js:390-397 | The counter is flagged iff the input is longer than 500. |
| Comments.CounterReadsBack | frontend/js/comments.js:391 | The counter text starts with the length, and `parseInt` reads it back. |
| Comments.AddGuardOrder | frontend/js/comments.js:155-168 | The guards run in order: no artwork, then not signed in, then blank text. A comment is sent only when all three pass. |
| Comments.AddGuard | frontend/js/comments.js:155-168 | No message iff an artwork is selected, the user is signed in and the text is not blank. Otherwise the message is one of the three guard messages. |
| Comments.CommentsState.constructor | frontend/js/comments.js:10-15 | The thread starts with no artwork, no comments and both flags off. |
| Comments.CommentsState.LoadComments | frontend/js/comments.js:35-60 | A falsy id changes nothing. Otherwise the id is recorded, an ok answer replaces the list, and a failure keeps it. |
| Comments.CommentsState.AddComment | frontend/js/comments.js:154-209 | A failing guard reports its message and changes nothing, in the thread or in the session. Otherwise one POST is sent with the merged options. A success puts the new comment at the front. Every failure keeps the list. Only a confirmed 401 ends the session, clearing the flag, user and token in memory and in storage. Otherwise the session, stored entries included, stays as it was. |
| Comments.CommentsState.UpdateComment | frontend/js/comments.js:214-243 | One PUT is sent. On success the first comment with the id is replaced. Otherwise the list is kept. The length never changes. Only a confirmed 401 ends the session, in memory and in storage. Otherwise the session stays as it was. |
| Comments.CommentsState.DeleteComment | frontend/js/comments.js:248-273 | A declined delete changes nothing. Otherwise one DELETE is sent. On success every comment with the id is removed, and otherwise the list is kept. Only a confirmed 401 ends the session, in memory and in storage. Otherwise the session stays as it was. |
| Comments.AddThenDelete | frontend/js/comments.js:154-273 | A comment added and then deleted leaves the thread as it was. |
| Comments.DeletePosted | frontend/js/comments.js:264 | Deleting the id of a comment prepended to a thread without that id gives the thread back. |
| JsText.ParseIntRoundTrip | frontend/js/gallery.js:428 | `parseInt(String(n))` is `n`. |
| JsText.ParseIntOfDecimalPrefix | frontend/js/gallery.js:428 | `parseInt` reads a number's decimal text back even when other text follows, unless that text starts with a digit or an `x`. |
| JsText.ParseInt | frontend/js/gallery.js:428 | Blank text reads as `NaN`, and only a leading minus sign gives a negative number. `ParseIntRoundTrip` and `ParseIntOfDecimalPrefix` pin the value. |
| JsText.TrimSpec | frontend/js/comments.js:165 | `trim()` gives a slice of the text, and the result is empty iff the text is all white space. |
| Lists.Dedup | frontend/js/favorites.js:313 | `[...new Set(s)]` has no duplicates and keeps exactly the values of `s`. |
| Lists.RemoveAtNoDup | frontend/js/favorites.js:256 | On a duplicate-free list, `splice` at the id's index removes that id and only that id. |
| Sorting.SortedUnique | frontend/js/favorites.js:316 | Two permutations of a list that are sorted by an antisymmetric total order are equal. |
| Sorting.SortStable | frontend/js/favorites.js:394-403 | The reference sort is stable: the elements tied with any element keep their input order, as `Array.prototype.sort` promises. |

## Left out

- Rendering is left out: cards, the lightbox markup, the counters on the page, the menus' `<option>` elements, notifications, loaders, `updateAuthUI`/`updateNavigation` and `showFormErrors`. `createRatingStars` is kept because it computes a value.
- Timers, `debounce` and asynchrony are left out. Every remote call is one atomic outcome, passed in as a parameter, and nothing interleaves. Fire-and-forget requests are recorded in `outbox` or `sent` in the order they are issued.
- `Promise.all` over artwork fetches in `loadAndDisplayFavorites` and `getFallbackArtworks` are left out. The gallery starts from a given catalogue.
- The title and artist sorts use `localeCompare`, which depends on the locale. Only the date sorts are modelled.
- `Date` parsing and formatting in comments are left out. The display order of comments by `createdAt` is not modelled.
- Export (Blob download), Web Share, the clipboard, redirects through `window.location`, and `register` (a POST followed by `login`) are left out.
- Failing storage writes are left out. `JSON.parse` of the stored entry is one of absent, a list of ids, or unparsable. A stored value that parses to something other than an array is not modelled.
- Gallery.GalleryState.SetSearch: `toLowerCase` is modelled for ASCII letters only, since Unicode case mapping is locale data.
- JsText.ParseInt: `parseInt` is modelled on unbounded integers and returns no value where JavaScript returns `NaN`. Precision loss above 2^53, exponents, and bases other than 10 and 16 are not modelled.
- String lengths and the default `sort()` order use one `char` per UTF-16 code unit. Text outside the Basic Multilingual Plane is not modelled.
- Artwork years are text. Only `parseInt`'s reading of them is modelled.
- Favorites.FavoritesEngine.SyncFavoriteToServer, UpdateServerFavorites and SyncWithServer: favorites requests are recorded in `outbox` as issued, and do not go through `fetchWithAuth` (auth.js:397-427). So a confirmed logout after a 401 during a favorites request is not modelled: the session ends there, and every later POST, DELETE or PUT would then fail with `Non authentifié` without being sent, but the model keeps recording them. `syncEnabled` is never turned off, as in the code.
- Gallery.GalleryState.NavigateLightbox: "open" is the `currentLightbox` id. The DOM check `closeLightbox` makes before it closes is the same test.
- Comments.CreateRatingStars: ratings are integers. A fractional rating from the server is not modelled.
- Auth.FinalHeaders: header names are compared exactly as the spread operator compares object keys. HTTP's case-insensitive header names are not modelled.
- Comments.CommentsState.UpdateComment: the card editor's `comment.rating === k` preselection is rendering and is not modelled.
- Auth.ValidateRegisterForm: form fields are `Option<string>`, with `None` for a missing field, so `undefined` and `null` are one value. The `!==` test of the two passwords would tell them apart. Form values read from inputs are always strings.
