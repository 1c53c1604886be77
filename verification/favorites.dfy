/**
 * The favourites list: a fixed local list shown one listing per zero-based
 * page, from which the listing on screen can be removed.
 */
module Favorites {
  import opened Wrappers
  import opened Ads
  import Seqs
  import Paging

  /** The predicate `ad => ad.id !== adId` of the removal filter. */
  function KeepOther(id: int): Advertisement -> bool
  {
    (a: Advertisement) => a.id != id
  }

  /** `prev.filter(ad => ad.id !== adId)`. */
  function RemoveById(favorites: seq<Advertisement>, id: int): (r: seq<Advertisement>)
    ensures |r| <= |favorites|
    ensures forall k :: 0 <= k < |r| ==> r[k].id != id
  {
    Seqs.Filter(favorites, KeepOther(id))
  }

  /**
   * The index after a removal, computed from the length before it: one step
   * back when the index was on (or past) the last entry and not on the first.
   */
  function StepBack(page: nat, oldLen: nat): (r: nat)
    ensures r <= page && page - r <= 1
    ensures r < page <==> page > 0 && page >= oldLen - 1
  {
    if page >= oldLen - 1 && page > 0 then page - 1 else page
  }

  /**
   * Removal drops every entry with the id and keeps every other entry, as
   * often as it occurs and in its original order.
   */
  lemma RemoveByIdExact(favorites: seq<Advertisement>, id: int)
    ensures var r := RemoveById(favorites, id);
      && Seqs.IsSubsequence(r, favorites)
      && (forall k :: 0 <= k < |r| ==> r[k].id != id)
      && (forall a :: multiset(r)[a] == if a.id != id then multiset(favorites)[a] else 0)
  {
    var p := KeepOther(id);
    var _ := Seqs.FilterIsSubsequence(favorites, p);
    forall a ensures multiset(Seqs.Filter(favorites, p))[a] == if p(a) then multiset(favorites)[a] else 0 {
      Seqs.FilterCount(favorites, p, a);
    }
  }

  /** Removing an id that no entry has leaves the list as it was. */
  lemma RemoveAbsentIsIdentity(favorites: seq<Advertisement>, id: int)
    requires forall k :: 0 <= k < |favorites| ==> favorites[k].id != id
    ensures RemoveById(favorites, id) == favorites
  {
    Seqs.FilterKeepsAll(favorites, KeepOther(id));
  }

  /**
   * Removing an absent id while on the last of two or more entries keeps
   * every entry yet still moves the index back by one.
   */
  lemma AbsentRemovalStillStepsBack(favorites: seq<Advertisement>, id: int)
    requires |favorites| >= 2
    requires forall k :: 0 <= k < |favorites| ==> favorites[k].id != id
    ensures RemoveById(favorites, id) == favorites
    ensures StepBack(|favorites| - 1, |favorites|) == |favorites| - 2
  {
    RemoveAbsentIsIdentity(favorites, id);
  }

  /** Removing the id of entry `k`, when ids are unique, cuts out exactly that entry. */
  lemma RemovePresentUnique(favorites: seq<Advertisement>, k: nat)
    requires UniqueIds(favorites) && k < |favorites|
    ensures RemoveById(favorites, favorites[k].id) == favorites[..k] + favorites[k + 1..]
    ensures |RemoveById(favorites, favorites[k].id)| == |favorites| - 1
  {
    var id := favorites[k].id;
    forall j | 0 <= j < |favorites| && j != k ensures KeepOther(id)(favorites[j]) {
      if j < k { assert favorites[j].id != favorites[k].id; }
      else { assert favorites[k].id != favorites[j].id; }
    }
    Seqs.FilterDropsOne(favorites, KeepOther(id), k);
  }

  /** The index invariant of the page: on an entry, or 0 on an empty list. */
  ghost predicate IndexValid(page: nat, favorites: seq<Advertisement>)
  {
    page < |favorites| || (favorites == [] && page == 0)
  }

  /**
   * With unique ids, removal followed by the step back keeps the index on an
   * entry, or at 0 once the list is empty.
   */
  lemma RemovalKeepsIndexValid(favorites: seq<Advertisement>, page: nat, id: int)
    requires UniqueIds(favorites) && IndexValid(page, favorites)
    ensures IndexValid(StepBack(page, |favorites|), RemoveById(favorites, id))
    ensures UniqueIds(RemoveById(favorites, id))
  {
    var p := KeepOther(id);
    var _ := Seqs.FilterIsSubsequence(favorites, p);
    SubsequenceKeepsUniqueIds(RemoveById(favorites, id), favorites);
    if k :| 0 <= k < |favorites| && favorites[k].id == id {
      RemovePresentUnique(favorites, k);
    } else {
      RemoveAbsentIsIdentity(favorites, id);
    }
  }

  /** The two favourites the page starts with once its loading delay is over. */
  const Initial: seq<Advertisement> := [
    Advertisement(
      4, "iPhone 13", 13000000, "Perfect condition, 512GB, with original box",
      "+998901234570", "Tashkent", "+998901234570",
      Some("https://via.placeholder.com/300x200?text=iPhone+13"),
      Approved, "2024-01-12T14:20:00Z", "Smartphones", "Apple", Some("seller4")),
    Advertisement(
      5, "Samsung Galaxy A54", 6500000, "Excellent condition, 256GB storage, no issues",
      "+998901234571", "Samarkand", "+998901234571",
      Some("https://via.placeholder.com/300x200?text=Galaxy+A54"),
      Approved, "2024-01-09T11:30:00Z", "Smartphones", "Samsung", Some("seller5"))
  ]

  /** The component state of the favourites page. */
  class FavoritesPage {
    var favorites: seq<Advertisement>
    var currentPage: nat
    var loading: bool

    /** Ids are unique and the index is on an entry (or 0 on an empty list); nothing is listed while loading. */
    ghost predicate Valid()
      reads this
    {
      && UniqueIds(favorites)
      && IndexValid(currentPage, favorites)
      && (loading ==> favorites == [] && currentPage == 0)
    }

    constructor ()
      ensures Valid()
      ensures favorites == [] && currentPage == 0 && loading
    {
      favorites := [];
      currentPage := 0;
      loading := true;
    }

    /** The end of the loading delay: the fixed favourites appear. */
    method FinishLoading()
      requires Valid() && loading
      modifies this`favorites, this`loading
      ensures Valid()
      ensures favorites == Initial && !loading && currentPage == old(currentPage)
    {
      favorites := Initial;
      loading := false;
    }

    /** The favourite on screen. */
    function Shown(): (r: Option<Advertisement>)
      requires Valid()
      reads this
      ensures r.Some? <==> favorites != []
      ensures r.Some? ==> r.value == favorites[currentPage]
    {
      if currentPage < |favorites| then Some(favorites[currentPage]) else None
    }

    /**
     * `handleRemoveFromFavorites`: drops the entries with the id and steps the
     * index back according to the length before the removal.
     */
    method HandleRemoveFromFavorites(adId: int)
      requires Valid()
      modifies this`favorites, this`currentPage
      ensures Valid()
      ensures favorites == RemoveById(old(favorites), adId)
      ensures currentPage == StepBack(old(currentPage), |old(favorites)|)
    {
      RemovalKeepsIndexValid(favorites, currentPage, adId);
      var oldLen := |favorites|;
      favorites := RemoveById(favorites, adId);
      if currentPage >= oldLen - 1 && currentPage > 0 {
        currentPage := currentPage - 1;
      }
    }

    /** `handlePrevious`: one entry back unless on the first. */
    method HandlePrevious()
      requires Valid()
      modifies this`currentPage
      ensures Valid()
      ensures currentPage == Paging.PrevIndex(old(currentPage))
    {
      if currentPage > 0 {
        currentPage := currentPage - 1;
      }
    }

    /** `handleNext`: one entry forward unless on the last. */
    method HandleNext()
      requires Valid()
      modifies this`currentPage
      ensures Valid()
      ensures currentPage == Paging.NextIndex(old(currentPage), |favorites|)
    {
      if currentPage < |favorites| - 1 {
        currentPage := currentPage + 1;
      }
    }
  }

  /** The starting favourites are ids 4 and 5, both approved. */
  lemma InitialShape()
    ensures |Initial| == 2 && UniqueIds(Initial)
    ensures Initial[0].id == 4 && Initial[1].id == 5
    ensures Initial[0].status == Approved && Initial[1].status == Approved
  {
  }
}
