/**
 * The favorites engine of the favorites page: the module-level state
 * `favoritesState`, its mutations (add, remove, toggle, clear), the
 * write-through to the shared storage entry and the merge with the server's
 * list. Remote calls are recorded, in dispatch order, in `outbox`; whether
 * they later succeed never changes the local state, so their outcome is not
 * modelled except where the code awaits it (the initial GET of a sync).
 */
module Favorites {
  import opened Wrappers
  import opened JsText
  import opened Lists
  import opened Sorting
  import opened Catalog
  import opened Storage

  // ---------------------------------------------------------------------
  // The default sort on ids
  // ---------------------------------------------------------------------

  /** `Array.prototype.sort()` without a comparator compares numbers by their decimal strings. */
  predicate IdLe(a: int, b: int) {
    StrLe(IntToDecimal(a), IntToDecimal(b))
  }

  lemma IdLeIsTotalPreorder()
    ensures IsTotalPreorder(IdLe)
  {
    forall a: int, b: int ensures IdLe(a, b) || IdLe(b, a) {
      StrLeTotal(IntToDecimal(a), IntToDecimal(b));
    }
    forall a: int, b: int, c: int | IdLe(a, b) && IdLe(b, c) ensures IdLe(a, c) {
      StrLeTransitive(IntToDecimal(a), IntToDecimal(b), IntToDecimal(c));
    }
  }

  /** Distinct numbers never compare equal: their decimal strings differ. */
  lemma IdLeAntisymmetric(a: int, b: int)
    ensures IdLe(a, b) && IdLe(b, a) ==> a == b
  {
    StrLeAntisymmetric(IntToDecimal(a), IntToDecimal(b));
    IntToDecimalInjective(a, b);
  }

  /** `ids.sort()`: the same ids, in decimal-string order. */
  function DefaultSort(ids: seq<int>): (r: seq<int>)
    ensures multiset(r) == multiset(ids)
    ensures SortedBy(r, IdLe)
  {
    IdLeIsTotalPreorder();
    SortPermutes(ids, IdLe);
    SortSorts(ids, IdLe);
    InsertionSort(ids, IdLe)
  }

  /** Any list sorted in decimal-string order is the default sort of its own values. */
  lemma DefaultSortUnique(ids: seq<int>, r: seq<int>)
    requires multiset(r) == multiset(ids)
    requires SortedBy(r, IdLe)
    ensures DefaultSort(ids) == r
  {
    forall x, y | x in r && y in r && IdLe(x, y) && IdLe(y, x) ensures x == y {
      IdLeAntisymmetric(x, y);
    }
    SortedUnique(r, DefaultSort(ids), IdLe);
  }

  // ---------------------------------------------------------------------
  // The merge of a sync
  // ---------------------------------------------------------------------

  /**
   * The list a successful sync adopts: the set of local and server ids
   * (`[...new Set([...local, ...server])]`), which the comparison that follows
   * then sorts in place.
   */
  function Merged(local: seq<int>, server: seq<int>): (r: seq<int>)
    ensures NoDup(r)
    ensures forall id :: id in r <==> id in local || id in server
    ensures SortedBy(r, IdLe)
  {
    var union := Dedup(local + server);
    var r := DefaultSort(union);
    NoDupPermutation(union, r);
    SameMultisetSameValues(union, r);
    r
  }

  /** The merge is THE duplicate-free, decimal-string-sorted list of the union. */
  lemma MergedCharacterized(local: seq<int>, server: seq<int>, r: seq<int>)
    requires NoDup(r) && SortedBy(r, IdLe)
    requires forall id :: id in r <==> id in local || id in server
    ensures Merged(local, server) == r
  {
    var union := Dedup(local + server);
    forall x ensures x in union <==> x in r {
      assert x in union <==> x in local + server;
    }
    SameValuesSameMultiset(union, r);
    DefaultSortUnique(union, r);
  }

  /** The comparison of `JSON.stringify(merged.sort())` with `JSON.stringify(server.sort())`. */
  predicate ReplaceNeeded(local: seq<int>, server: seq<int>) {
    Merged(local, server) != DefaultSort(server)
  }

  /**
   * A replace-all is sent exactly when some local id is missing on the server
   * or the server's list repeats an id.
   */
  lemma ReplaceNeededIff(local: seq<int>, server: seq<int>)
    ensures ReplaceNeeded(local, server)
        <==> (exists id :: id in local && id !in server) || !NoDup(server)
  {
    var m, s := Merged(local, server), DefaultSort(server);
    if exists id :: id in local && id !in server {
      var id :| id in local && id !in server;
      assert id in m;
      assert id !in multiset(s);
    } else if !NoDup(server) {
      NoDupPermutation(server, s);
    } else {
      assert forall id :: id in m <==> id in server;
      MergedCharacterized(local, server, s) by {
        NoDupPermutation(server, s);
        assert forall id :: id in s <==> id in multiset(server);
      }
    }
  }

  /** Syncing again with the same server list adopts the same list. */
  lemma MergeIdempotent(local: seq<int>, server: seq<int>)
    ensures Merged(Merged(local, server), server) == Merged(local, server)
  {
    var m := Merged(local, server);
    MergedCharacterized(m, server, m);
  }

  /** Syncing again with the same server list makes the same replace-all decision. */
  lemma ReplaceDecisionStable(local: seq<int>, server: seq<int>)
    ensures ReplaceNeeded(Merged(local, server), server) == ReplaceNeeded(local, server)
  {
    ReplaceNeededIff(local, server);
    ReplaceNeededIff(Merged(local, server), server);
  }

  /** Once the server holds the merged list, the next sync sends no replace-all. */
  lemma ConvergedAfterReplace(local: seq<int>, server: seq<int>)
    ensures !ReplaceNeeded(Merged(local, server), Merged(local, server))
  {
    var m := Merged(local, server);
    ReplaceNeededIff(m, m);
  }

  /** A merge that brings an id the server lacks: it is adopted and pushed. */
  lemma MergeAddsServerMissing()
    ensures Merged([10], [20]) == [10, 20] && ReplaceNeeded([10], [20])
  {
    assert IntToDecimal(10) == "10" && IntToDecimal(20) == "20";
    assert IdLe(10, 20);
    MergedCharacterized([10], [20], [10, 20]);
    ReplaceNeededIff([10], [20]);
  }

  /** Nothing stored locally, the server has [10]: the server's list is adopted and nothing is pushed. */
  lemma MergeIntoEmpty()
    ensures Merged([], [10]) == [10] && !ReplaceNeeded([], [10])
  {
    MergedCharacterized([], [10], [10]);
    ReplaceNeededIff([], [10]);
  }

  /** A merge with nothing new on either side: nothing is pushed. */
  lemma MergeInAgreement()
    ensures Merged([10], [10]) == [10] && !ReplaceNeeded([10], [10])
  {
    MergedCharacterized([10], [10], [10]);
    ReplaceNeededIff([10], [10]);
  }

  /** The union keeps each shared id once. */
  lemma MergeOverlapping()
    ensures Merged([1, 2], [2, 3]) == [1, 2, 3]
  {
    assert IntToDecimal(1) == "1" && IntToDecimal(2) == "2" && IntToDecimal(3) == "3";
    assert IdLe(1, 2) && IdLe(2, 3) && IdLe(1, 3);
    MergedCharacterized([1, 2], [2, 3], [1, 2, 3]);
  }

  /** The merged list is in decimal-string order, not numeric or insertion order. */
  lemma MergeInStringOrder()
    ensures Merged([9], [10]) == [10, 9]
  {
    assert IntToDecimal(10) == "10" && IntToDecimal(9) == "9";
    assert IdLe(10, 9);
    MergedCharacterized([9], [10], [10, 9]);
  }

  // ---------------------------------------------------------------------
  // The list updates of add, remove and toggle
  // ---------------------------------------------------------------------

  /** The list after `addFavorite(id)`: an absent id is pushed at the end. */
  function AddedTo(ids: seq<int>, id: int): (r: seq<int>)
    ensures id in r
    ensures id in ids ==> r == ids
    ensures id !in ids ==> |r| == |ids| + 1 && r[..|ids|] == ids && r[|ids|] == id
    ensures NoDup(ids) ==> NoDup(r)
  {
    if id in ids then ids else ids + [id]
  }

  /** The list after a confirmed `removeFavorite(id)`: the first occurrence is spliced out. */
  function RemovedFrom(ids: seq<int>, id: int): seq<int> {
    var k := IndexOf(ids, id);
    if k == -1 then ids else RemoveAt(ids, k)
  }

  /**
   * Removing takes out exactly one copy of the id, the first, and keeps the
   * order of the rest; an absent id changes nothing.
   */
  lemma RemovedFromSpec(ids: seq<int>, id: int)
    ensures id !in ids ==> RemovedFrom(ids, id) == ids
    ensures id in ids ==>
      var k := IndexOf(ids, id);
      var r := RemovedFrom(ids, id);
      |r| == |ids| - 1 && r[..k] == ids[..k] && r[k..] == ids[k + 1..]
    ensures multiset(RemovedFrom(ids, id)) == multiset(ids) - multiset{id}
    ensures NoDup(ids) ==>
      && NoDup(RemovedFrom(ids, id))
      && forall x :: x in RemovedFrom(ids, id) <==> x in ids && x != id
  {
    var k := IndexOf(ids, id);
    if k == -1 {
      assert id !in multiset(ids);
    } else {
      var r := RemoveAt(ids, k);
      assert r[..k] == ids[..k];
      assert r[k..] == ids[k + 1..];
      RemoveAtPermutes(ids, k);
      if NoDup(ids) {
        RemoveAtNoDup(ids, k);
      }
    }
  }

  /** The list after `toggleFavorite(id)` when the confirmation is accepted. */
  function Toggled(ids: seq<int>, id: int): seq<int> {
    if id in ids then RemovedFrom(ids, id) else AddedTo(ids, id)
  }

  /** On a duplicate-free list a toggle flips the id's membership and touches nothing else. */
  lemma ToggleFlips(ids: seq<int>, id: int)
    requires NoDup(ids)
    ensures NoDup(Toggled(ids, id))
    ensures id in Toggled(ids, id) <==> id !in ids
    ensures forall x :: x != id ==> (x in Toggled(ids, id) <==> x in ids)
  {
    RemovedFromSpec(ids, id);
  }

  /** Two accepted toggles restore membership; starting from an absent id they restore the list itself. */
  lemma ToggleTwice(ids: seq<int>, id: int)
    requires NoDup(ids)
    ensures forall x :: x in Toggled(Toggled(ids, id), id) <==> x in ids
    ensures id !in ids ==> Toggled(Toggled(ids, id), id) == ids
  {
    ToggleFlips(ids, id);
    ToggleFlips(Toggled(ids, id), id);
    if id !in ids {
      var t := ids + [id];
      assert forall i :: 0 <= i < |ids| ==> t[i] != id;
      assert IndexOf(t, id) == |ids|;
      assert RemovedFrom(t, id) == t[..|ids|];
    }
  }

  /** With a repeated id a toggle only removes one copy, so membership does not flip. */
  lemma ToggleWithDuplicateKeepsMember()
    ensures Toggled([7, 7], 7) == [7]
  {
    assert IndexOf([7, 7], 7) == 0;
  }

  // ---------------------------------------------------------------------
  // Display order of the "date" sorts
  // ---------------------------------------------------------------------

  /** `favoriteIds.indexOf(a.id)`: the position at which the artwork was added, -1 if not a favorite. */
  function Rank(ids: seq<int>, a: Artwork): int {
    IndexOf(ids, a.id)
  }

  /** `(a, b) => indexOf(a.id) - indexOf(b.id)`: `a` may come first when it was added no later. */
  function AddedNoLater(ids: seq<int>): (Artwork, Artwork) -> bool {
    (a: Artwork, b: Artwork) => Rank(ids, a) <= Rank(ids, b)
  }

  /** `(a, b) => indexOf(b.id) - indexOf(a.id)`: `a` may come first when it was added no earlier. */
  function AddedNoEarlier(ids: seq<int>): (Artwork, Artwork) -> bool {
    (a: Artwork, b: Artwork) => Rank(ids, b) <= Rank(ids, a)
  }

  /** The "date-asc" sort: the same artworks, oldest favorite first. */
  function DateAscending(artworks: seq<Artwork>, ids: seq<int>): (r: seq<Artwork>)
    ensures multiset(r) == multiset(artworks)
    ensures forall i, j :: 0 <= i < j < |r| ==> Rank(ids, r[i]) <= Rank(ids, r[j])
  {
    var le := AddedNoLater(ids);
    assert IsTotalPreorder(le);
    SortPermutes(artworks, le);
    SortSorts(artworks, le);
    InsertionSort(artworks, le)
  }

  /** The "date-desc" sort: the same artworks, newest favorite first. */
  function DateDescending(artworks: seq<Artwork>, ids: seq<int>): (r: seq<Artwork>)
    ensures multiset(r) == multiset(artworks)
    ensures forall i, j :: 0 <= i < j < |r| ==> Rank(ids, r[j]) <= Rank(ids, r[i])
  {
    var le := AddedNoEarlier(ids);
    assert IsTotalPreorder(le);
    SortPermutes(artworks, le);
    SortSorts(artworks, le);
    InsertionSort(artworks, le)
  }

  /**
   * Artworks with the same rank keep the order they were shown in under
   * "date-asc"; in particular all artworks missing from `favoriteIds`
   * (rank -1) stay in their original order.
   */
  lemma DateAscendingStable(artworks: seq<Artwork>, ids: seq<int>, p: Artwork)
    ensures TiedWith(DateAscending(artworks, ids), AddedNoLater(ids), p) == TiedWith(artworks, AddedNoLater(ids), p)
  {
    assert IsTotalPreorder(AddedNoLater(ids));
    SortStable(artworks, AddedNoLater(ids), p);
  }

  /** The same holds for "date-desc". */
  lemma DateDescendingStable(artworks: seq<Artwork>, ids: seq<int>, p: Artwork)
    ensures TiedWith(DateDescending(artworks, ids), AddedNoEarlier(ids), p) == TiedWith(artworks, AddedNoEarlier(ids), p)
  {
    assert IsTotalPreorder(AddedNoEarlier(ids));
    SortStable(artworks, AddedNoEarlier(ids), p);
  }

  /** Read backwards, the "date-asc" order is newest first. */
  lemma AscendingReversedIsDescending(artworks: seq<Artwork>, ids: seq<int>)
    ensures SortedBy(Reverse(DateAscending(artworks, ids)), AddedNoEarlier(ids))
  {
    var asc := DateAscending(artworks, ids);
    assert SortedBy(asc, AddedNoLater(ids));
    ReverseSortedBy(asc, AddedNoLater(ids), AddedNoEarlier(ids));
  }

  /** When no two shown artworks share a rank, "date-desc" is "date-asc" read backwards. */
  lemma DateDescendingReversesAscending(artworks: seq<Artwork>, ids: seq<int>)
    requires forall a, b :: a in artworks && b in artworks && Rank(ids, a) == Rank(ids, b) ==> a == b
    ensures DateDescending(artworks, ids) == Reverse(DateAscending(artworks, ids))
  {
    var back := Reverse(DateAscending(artworks, ids));
    ReversePermutes(DateAscending(artworks, ids));
    AscendingReversedIsDescending(artworks, ids);
    SameMultisetSameValues(back, artworks);
    SortedUnique(back, DateDescending(artworks, ids), AddedNoEarlier(ids));
  }

  // ---------------------------------------------------------------------
  // The engine
  // ---------------------------------------------------------------------

  /** A request to the favorites resource: POST one id, DELETE one id, or PUT the whole list. */
  datatype RemoteCall = PostFavorite(id: int) | DeletedFavorite(id: int) | PutFavorites(ids: seq<int>)

  /** `artworks.filter(a => a.id !== id)`. */
  function WithoutArtwork(artworks: seq<Artwork>, id: int): (r: seq<Artwork>)
    ensures forall a :: a in r <==> a in artworks && a.id != id
  {
    var keep := (a: Artwork) => a.id != id;
    FilterKeeps(artworks, keep);
    Filter(artworks, keep)
  }

  lemma NoDupCardinalityIf(ids: seq<int>)
    ensures NoDup(ids) ==> |set id | id in ids| == |ids|
  {
    if NoDup(ids) {
      NoDupCardinality(ids);
    }
  }

  class FavoritesEngine {
    var favoriteIds: seq<int>
    var favoriteArtworks: seq<Artwork>
    var syncEnabled: bool
    /** The remote calls dispatched so far, oldest first; none is awaited. */
    var outbox: seq<RemoteCall>
    const store: LocalStore

    constructor (store: LocalStore)
      ensures this.store == store
      ensures favoriteIds == [] && favoriteArtworks == [] && !syncEnabled && outbox == []
    {
      this.store := store;
      favoriteIds := [];
      favoriteArtworks := [];
      syncEnabled := false;
      outbox := [];
    }

    /** `isFavorite(id)`: the same test that guards a removal. */
    function IsFavorite(id: int): (r: bool)
      reads this
      ensures r <==> IndexOf(favoriteIds, id) != -1
    {
      id in favoriteIds
    }

    /** `getAll()`. */
    function GetAll(): (r: seq<int>)
      reads this
      ensures forall id :: id in r <==> IsFavorite(id)
    {
      favoriteIds
    }

    /** `getCount()`: the length of the list, which is the number of favorites when it has no duplicates. */
    function GetCount(): (n: nat)
      reads this
      ensures n == |GetAll()|
      ensures NoDup(favoriteIds) ==> n == |set id | id in favoriteIds|
    {
      NoDupCardinalityIf(favoriteIds);
      |favoriteIds|
    }

    method LoadFromLocalStorage()
      modifies this
      ensures favoriteIds == LoadedIds(store.favorites)
      ensures favoriteArtworks == old(favoriteArtworks) && syncEnabled == old(syncEnabled)
      ensures outbox == old(outbox)
    {
      favoriteIds := LoadedIds(store.favorites);
    }

    method SaveToLocalStorage()
      modifies store
      ensures store.favorites == Ids(favoriteIds)
    {
      store.favorites := Ids(favoriteIds);
    }

    /** `syncFavoriteToServer(id, action)`: dispatches a POST or a DELETE when syncing is on. */
    method SyncFavoriteToServer(id: int, add: bool)
      modifies this`outbox
      ensures outbox == old(outbox) + if syncEnabled then [if add then PostFavorite(id) else DeletedFavorite(id)] else []
    {
      if syncEnabled {
        outbox := outbox + [if add then PostFavorite(id) else DeletedFavorite(id)];
      }
    }

    /** `updateServerFavorites(ids)`: dispatches a PUT of the whole list when syncing is on. */
    method UpdateServerFavorites(ids: seq<int>)
      modifies this`outbox
      ensures outbox == old(outbox) + if syncEnabled then [PutFavorites(ids)] else []
    {
      if syncEnabled {
        outbox := outbox + [PutFavorites(ids)];
      }
    }

    method Add(id: int)
      modifies this, store
      ensures favoriteIds == AddedTo(old(favoriteIds), id)
      ensures old(id in favoriteIds) ==> unchanged(store) && outbox == old(outbox)
      ensures old(id !in favoriteIds) ==>
        && store.favorites == Ids(favoriteIds)
        && outbox == old(outbox) + if syncEnabled then [PostFavorite(id)] else []
      ensures favoriteArtworks == old(favoriteArtworks) && syncEnabled == old(syncEnabled)
    {
      if id in favoriteIds {
        return;
      }
      favoriteIds := favoriteIds + [id];
      SaveToLocalStorage();
      if syncEnabled {
        SyncFavoriteToServer(id, true);
      }
    }

    method Remove(id: int, confirmed: bool)
      modifies this, store
      ensures old(id !in favoriteIds) || !confirmed ==> unchanged(this) && unchanged(store)
      ensures old(id in favoriteIds) && confirmed ==>
        && favoriteIds == RemovedFrom(old(favoriteIds), id)
        && store.favorites == Ids(favoriteIds)
        && outbox == old(outbox) + (if syncEnabled then [DeletedFavorite(id)] else [])
        && favoriteArtworks == WithoutArtwork(old(favoriteArtworks), id)
      ensures syncEnabled == old(syncEnabled)
    {
      var index := IndexOf(favoriteIds, id);
      if index != -1 && confirmed {
        SpliceFavorite(index);
        SaveToLocalStorage();
        if syncEnabled {
          SyncFavoriteToServer(id, false);
        }
        DropShownArtwork(id);
      }
    }

    /** `favoriteIds.splice(index, 1)`. */
    method SpliceFavorite(index: nat)
      requires index < |favoriteIds|
      modifies this`favoriteIds
      ensures favoriteIds == RemoveAt(old(favoriteIds), index)
    {
      favoriteIds := RemoveAt(favoriteIds, index);
    }

    /** `favoriteArtworks = favoriteArtworks.filter(a => a.id !== id)`. */
    method DropShownArtwork(id: int)
      modifies this`favoriteArtworks
      ensures favoriteArtworks == WithoutArtwork(old(favoriteArtworks), id)
    {
      favoriteArtworks := WithoutArtwork(favoriteArtworks, id);
    }

    method Toggle(id: int, confirmed: bool)
      modifies this, store
      ensures old(id in favoriteIds) && !confirmed ==> unchanged(this) && unchanged(store)
      ensures old(id in favoriteIds) && confirmed ==> favoriteIds == Toggled(old(favoriteIds), id)
      ensures old(id !in favoriteIds) ==> favoriteIds == Toggled(old(favoriteIds), id)
      ensures old(id !in favoriteIds) || confirmed ==> store.favorites == Ids(favoriteIds)
      ensures old(id !in favoriteIds) ==>
        && outbox == old(outbox) + (if syncEnabled then [PostFavorite(id)] else [])
        && favoriteArtworks == old(favoriteArtworks)
      ensures old(id in favoriteIds) && confirmed ==>
        && outbox == old(outbox) + (if syncEnabled then [DeletedFavorite(id)] else [])
        && favoriteArtworks == WithoutArtwork(old(favoriteArtworks), id)
      ensures syncEnabled == old(syncEnabled)
    {
      if IsFavorite(id) {
        Remove(id, confirmed);
      } else {
        Add(id);
      }
    }

    /** `syncFavoritesWithServer()`, given what the GET of the server's list produced. */
    method SyncWithServer(reply: Reply<seq<int>>)
      modifies this, store
      ensures !old(syncEnabled) || !reply.Ok? ==> unchanged(this) && unchanged(store)
      ensures old(syncEnabled) && reply.Ok? ==>
        && favoriteIds == Merged(old(favoriteIds), reply.payload)
        && store.favorites == Ids(favoriteIds)
        && outbox == old(outbox) + (if ReplaceNeeded(old(favoriteIds), reply.payload) then [PutFavorites(favoriteIds)] else [])
        && syncEnabled && favoriteArtworks == old(favoriteArtworks)
    {
      if !syncEnabled {
        return;
      }
      match reply
      case Threw(_) =>
      case NotOk =>
      case Ok(serverFavorites) =>
        var mergedFavorites := Dedup(favoriteIds + serverFavorites);
        mergedFavorites := DefaultSort(mergedFavorites);
        var sortedServer := DefaultSort(serverFavorites);
        if mergedFavorites != sortedServer {
          UpdateServerFavorites(mergedFavorites);
        }
        favoriteIds := mergedFavorites;
        SaveToLocalStorage();
    }

    /** `handleClearAllFavorites()`, given the answer to the confirmation dialog. */
    method ClearAll(confirmed: bool)
      modifies this, store
      ensures old(favoriteIds) == [] || !confirmed ==> unchanged(this) && unchanged(store)
      ensures old(favoriteIds) != [] && confirmed ==>
        && favoriteIds == [] && favoriteArtworks == []
        && store.favorites == Ids([])
        && outbox == old(outbox) + (if syncEnabled then [PutFavorites([])] else [])
      ensures syncEnabled == old(syncEnabled)
    {
      if |favoriteIds| == 0 {
        return;
      }
      if !confirmed {
        return;
      }
      favoriteIds := [];
      favoriteArtworks := [];
      SaveToLocalStorage();
      if syncEnabled {
        UpdateServerFavorites([]);
      }
    }

    /** `initializeFavorites()`: load the stored list, then sync when a session is open. */
    method Initialize(authenticated: bool, reply: Reply<seq<int>>)
      modifies this, store
      ensures !authenticated ==>
        && favoriteIds == LoadedIds(old(store.favorites))
        && syncEnabled == old(syncEnabled) && outbox == old(outbox) && unchanged(store)
      ensures authenticated ==> syncEnabled
      ensures authenticated && !reply.Ok? ==>
        favoriteIds == LoadedIds(old(store.favorites)) && outbox == old(outbox) && unchanged(store)
      ensures authenticated && reply.Ok? ==>
        && favoriteIds == Merged(LoadedIds(old(store.favorites)), reply.payload)
        && store.favorites == Ids(favoriteIds)
        && outbox == old(outbox) + (if ReplaceNeeded(LoadedIds(old(store.favorites)), reply.payload) then [PutFavorites(favoriteIds)] else [])
      ensures favoriteArtworks == old(favoriteArtworks)
    {
      LoadFromLocalStorage();
      if authenticated {
        syncEnabled := true;
        SyncWithServer(reply);
      }
    }
  }

  // ---------------------------------------------------------------------
  // Sessions run end to end
  // ---------------------------------------------------------------------

  /** Stored [10, 20], no session: the list is loaded as is and nothing is sent. */
  method OfflineStart() returns (ids: seq<int>, enabled: bool, calls: seq<RemoteCall>)
    ensures ids == [10, 20] && !enabled && calls == []
  {
    var store := new LocalStore(Ids([10, 20]));
    var engine := new FavoritesEngine(store);
    engine.Initialize(false, NotOk);
    ids, enabled, calls := engine.favoriteIds, engine.syncEnabled, engine.outbox;
  }

  /** Stored [10], session open, server has [20]: [10, 20] is adopted, stored and PUT once. */
  method StartWithMissingServerId() returns (ids: seq<int>, stored: Cell, calls: seq<RemoteCall>)
    ensures ids == [10, 20] && stored == Ids([10, 20]) && calls == [PutFavorites([10, 20])]
  {
    MergeAddsServerMissing();
    var store := new LocalStore(Ids([10]));
    var engine := new FavoritesEngine(store);
    engine.Initialize(true, Ok([20]));
    ids, stored, calls := engine.favoriteIds, store.favorites, engine.outbox;
  }

  /** Stored [10], session open, server has [10]: nothing to push. */
  method StartInAgreement() returns (ids: seq<int>, calls: seq<RemoteCall>)
    ensures ids == [10] && calls == []
  {
    MergeInAgreement();
    var store := new LocalStore(Ids([10]));
    var engine := new FavoritesEngine(store);
    engine.Initialize(true, Ok([10]));
    ids, calls := engine.favoriteIds, engine.outbox;
  }

  /** A failed GET during sync leaves a locally added favorite in memory and in storage. */
  method AddSurvivesFailedSync(id: int) returns (ids: seq<int>, stored: Cell)
    ensures ids == [id] && stored == Ids([id])
  {
    var store := new LocalStore(Absent);
    var engine := new FavoritesEngine(store);
    engine.Initialize(true, Threw("network"));
    engine.Add(id);
    engine.SyncWithServer(NotOk);
    ids, stored := engine.favoriteIds, store.favorites;
  }

  /** Clearing with syncing on empties memory and storage and PUTs the empty list. */
  method ClearWhileSyncing(id: int) returns (ids: seq<int>, stored: Cell, lastCall: RemoteCall)
    ensures ids == [] && stored == Ids([]) && lastCall == PutFavorites([])
  {
    var store := new LocalStore(Ids([id]));
    var engine := new FavoritesEngine(store);
    engine.Initialize(true, Threw("network"));
    engine.ClearAll(true);
    ids, stored := engine.favoriteIds, store.favorites;
    lastCall := engine.outbox[|engine.outbox| - 1];
  }
  /**
   * Stored [10], no session: removing 10 succeeds offline and nothing is sent,
   * but the next sign-in merges the server's [10] back in and stores it, so the
   * removal is undone without any request telling the server about it.
   */
  method RemovedOfflineReturns() returns (afterRemove: seq<int>, offlineCalls: seq<RemoteCall>, afterSync: seq<int>, stored: Cell, calls: seq<RemoteCall>)
    ensures afterRemove == [] && offlineCalls == [] && afterSync == [10] && stored == Ids([10]) && calls == []
  {
    MergeIntoEmpty();
    var store := new LocalStore(Ids([10]));
    var engine := new FavoritesEngine(store);
    engine.Initialize(false, NotOk);
    assert engine.favoriteIds == [10] && !engine.syncEnabled && engine.outbox == [];
    assert RemovedFrom([10], 10) == [] by { assert IndexOf([10], 10) == 0; }
    engine.Remove(10, true);
    assert engine.favoriteIds == [] && store.favorites == Ids([]);
    afterRemove, offlineCalls := engine.favoriteIds, engine.outbox;
    assert LoadedIds(store.favorites) == [];
    engine.Initialize(true, Ok([10]));
    afterSync, stored, calls := engine.favoriteIds, store.favorites, engine.outbox;
  }
}
