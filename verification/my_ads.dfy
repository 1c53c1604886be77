/**
 * The management list ("my advertisements"): the user's own listings,
 * filtered by a status selector, shown ten per one-based page, with the
 * confirm-then-call "mark as sold" action.
 */
module MyAds {
  import opened Wrappers
  import opened Ads
  import Seqs
  import Paging
  import AdCard

  const AdsPerPage: nat := 10

  /** The status selector keeps everything for "all", otherwise the listings whose wire status equals it. */
  predicate MatchesStatus(selected: string, ad: Advertisement)
  {
    selected == "all" || StatusName(ad.status) == selected
  }

  /** `filteredAds`: the working set narrowed by the status selector, in its original order. */
  function FilterByStatus(ads: seq<Advertisement>, selected: string): (r: seq<Advertisement>)
    ensures |r| <= |ads|
    ensures forall k :: 0 <= k < |r| ==> MatchesStatus(selected, r[k])
  {
    Seqs.Filter(ads, (a: Advertisement) => MatchesStatus(selected, a))
  }

  /** With the selector on "all" the filtered list is the whole working set. */
  lemma FilterAllKeepsEverything(ads: seq<Advertisement>)
    ensures FilterByStatus(ads, "all") == ads
  {
    Seqs.FilterKeepsAll(ads, (a: Advertisement) => MatchesStatus("all", a));
  }

  /**
   * With the selector on a status, the filtered list is an order-preserving
   * subsequence of the working set that holds every listing with that status,
   * as often as it occurs, and nothing else.
   */
  lemma FilterByStatusExact(ads: seq<Advertisement>, s: Status)
    ensures var r := FilterByStatus(ads, StatusName(s));
      && Seqs.IsSubsequence(r, ads)
      && (forall k :: 0 <= k < |r| ==> r[k].status == s)
      && (forall k :: 0 <= k < |ads| && ads[k].status == s ==> ads[k] in r)
      && (forall a :: multiset(r)[a] == if a.status == s then multiset(ads)[a] else 0)
  {
    var p := (a: Advertisement) => MatchesStatus(StatusName(s), a);
    var _ := Seqs.FilterIsSubsequence(ads, p);
    forall a ensures multiset(Seqs.Filter(ads, p))[a] == if a.status == s then multiset(ads)[a] else 0 {
      Seqs.FilterCount(ads, p, a);
      StatusNameInjective(a.status, s);
    }
    forall k | 0 <= k < |Seqs.Filter(ads, p)| ensures Seqs.Filter(ads, p)[k].status == s {
      StatusNameInjective(Seqs.Filter(ads, p)[k].status, s);
    }
  }

  /** A selector value that names no status (and is not "all") shows nothing. */
  lemma FilterUnknownStatusIsEmpty(ads: seq<Advertisement>, selected: string)
    requires selected != "all" && forall s: Status :: StatusName(s) != selected
    ensures FilterByStatus(ads, selected) == []
  {
    Seqs.FilterDropsAll(ads, (a: Advertisement) => MatchesStatus(selected, a));
  }

  /** `currentAds`: the slice of the filtered list shown on the one-based page `page`. */
  function CurrentAds(filtered: seq<Advertisement>, page: nat): seq<Advertisement>
    requires page >= 1
  {
    Paging.Window(filtered, page, AdsPerPage)
  }

  /** Fifteen listings make two pages: items 1-10, then items 11-15; "next" on page 2 stays there. */
  lemma FifteenItemsScenario(filtered: seq<Advertisement>)
    requires |filtered| == 15
    ensures Paging.TotalPages(|filtered|, AdsPerPage) == 2
    ensures CurrentAds(filtered, 1) == filtered[..10]
    ensures CurrentAds(filtered, 2) == filtered[10..15]
    ensures Paging.NextPage(1, 2) == 2 && Paging.NextPage(2, 2) == 2
  {
    assert Paging.TotalPages(15, 10) == 2 by {
      assert Paging.TotalPages(5, 10) == 1;
    }
  }

  /** The page's own pager row is rendered only when there is more than one page. */
  predicate PagerShown(totalPages: nat)
  {
    totalPages > 1
  }

  predicate PrevDisabled(page: nat)
  {
    page == 1
  }

  predicate NextDisabled(page: nat, totalPages: nat)
  {
    page == totalPages
  }

  /** On a page within range the pager's disabled buttons are exactly the no-op steps. */
  lemma PagerAgreesWithSteps(page: nat, totalPages: nat)
    requires 1 <= page <= totalPages
    ensures PrevDisabled(page) <==> Paging.PrevPage(page) == page
    ensures NextDisabled(page, totalPages) <==> Paging.NextPage(page, totalPages) == page
  {
  }

  /** `setAds(prev => prev.map(...))`: every listing with id `id` gets status sold. */
  function MarkSold(ads: seq<Advertisement>, id: int): (r: seq<Advertisement>)
    ensures |r| == |ads|
    ensures forall k :: 0 <= k < |r| ==> r[k].id == ads[k].id && (r[k] == ads[k] || r[k].status == Sold)
  {
    seq(|ads|, k requires 0 <= k < |ads| => if ads[k].id == id then ads[k].(status := Sold) else ads[k])
  }

  /**
   * Marking sold keeps the length and the order; a listing with another id is
   * untouched, and the listing with the id differs only in its status, which is sold.
   */
  lemma MarkSoldChangesOnlyThatStatus(ads: seq<Advertisement>, id: int)
    ensures var r := MarkSold(ads, id);
      && |r| == |ads|
      && (forall k :: 0 <= k < |ads| && ads[k].id != id ==> r[k] == ads[k])
      && (forall k :: 0 <= k < |ads| && ads[k].id == id ==> r[k] == ads[k].(status := Sold))
  {
  }

  /** With unique ids and the id at position `k`, position `k` is the only one that changes. */
  lemma MarkSoldUnique(ads: seq<Advertisement>, k: nat)
    requires UniqueIds(ads) && k < |ads|
    ensures var r := MarkSold(ads, ads[k].id);
      && r == ads[k := ads[k].(status := Sold)]
      && UniqueIds(r)
  {
  }

  /** Marking the same listing sold twice is the same as marking it once. */
  lemma MarkSoldIdempotent(ads: seq<Advertisement>, id: int)
    ensures MarkSold(MarkSold(ads, id), id) == MarkSold(ads, id)
  {
  }

  /** A sold listing stays sold, whatever is marked. */
  lemma MarkSoldKeepsSold(ads: seq<Advertisement>, id: int, k: nat)
    requires k < |ads| && ads[k].status == Sold
    ensures MarkSold(ads, id)[k].status == Sold
  {
  }

  /**
   * Marking an approved listing sold is a move the workflow allows, and its
   * "sold" button is gone afterwards.
   */
  lemma MarkSoldFromButton(ads: seq<Advertisement>, k: nat)
    requires k < |ads| && AdCard.SoldButtonVisible(true, ads[k].status)
    ensures CanTransition(ads[k].status, MarkSold(ads, ads[k].id)[k].status)
    ensures !AdCard.SoldButtonVisible(true, MarkSold(ads, ads[k].id)[k].status)
  {
  }

  /**
   * As written, a sale can strand the view on a page that no longer exists:
   * eleven approved listings with the selector on "approved", page 2 showing
   * the eleventh, which is then sold. Ten listings still pass the filter, yet
   * page 2 is empty and the pager is hidden, so none of them is shown until
   * the status selector is changed.
   */
  lemma SaleStrandsLastPage(ads: seq<Advertisement>)
    requires |ads| == 11 && UniqueIds(ads)
    requires forall k :: 0 <= k < 11 ==> ads[k].status == Approved
    ensures CurrentAds(FilterByStatus(ads, "approved"), 2) == [ads[10]]
    ensures var filtered := FilterByStatus(MarkSold(ads, ads[10].id), "approved");
      && |filtered| == 10
      && CurrentAds(filtered, 2) == []
      && !PagerShown(Paging.TotalPages(|filtered|, AdsPerPage))
  {
    var p := (a: Advertisement) => MatchesStatus("approved", a);
    Seqs.FilterKeepsAll(ads, p);
    assert Paging.TotalPages(11, 10) == 2 by {
      assert Paging.TotalPages(1, 10) == 1;
    }
    var sold := MarkSold(ads, ads[10].id);
    MarkSoldUnique(ads, 10);
    forall j | 0 <= j < 11 && j != 10 ensures p(sold[j]) {
      assert sold[j] == ads[j];
    }
    Seqs.FilterDropsOne(sold, p, 10);
    assert sold[..10] == ads[..10];
  }

  /** The page index pulled back onto the last page when the page count has shrunk below it. */
  function ClampPage(page: nat, totalPages: nat): nat
  {
    if totalPages >= 1 && page > totalPages then totalPages else page
  }

  /** With the index clamped, a non-empty filtered list always shows a non-empty page. */
  lemma ClampedPageShowsItems(filtered: seq<Advertisement>, page: nat)
    requires page >= 1 && |filtered| > 0
    ensures var p := ClampPage(page, Paging.TotalPages(|filtered|, AdsPerPage));
      p >= 1 && |CurrentAds(filtered, p)| > 0
  {
  }

  /** The single listing shown when loading the user's listings fails. */
  function Fallback(username: Option<string>): (r: Advertisement)
    ensures r.id == 1 && r.status == Approved
    ensures r.username.Some? && r.username.value != ""
    ensures username.Some? && username.value != "" ==> r.username == username
  {
    Advertisement(
      1, "iPhone 14 Pro", 15000000, "Excellent condition, 256GB storage, no scratches",
      "+998901234567", "Tashkent", "+998901234567",
      Some("https://via.placeholder.com/280x200?text=iPhone+14+Pro"),
      Approved, "2024-01-15T10:30:00Z", "Smartphones", "Apple",
      // `user?.username || "user"`: an absent or empty user name becomes "user"
      Some(if username.Some? && username.value != "" then username.value else "user"))
  }

  /** The alert raised after the mark-sold call. */
  datatype SoldAlert = MarkedAsSold | MarkAsSoldError

  /** The component state of the management list. */
  class MyAdsPage {
    var ads: seq<Advertisement>
    var currentPage: nat
    var loading: bool
    var selectedStatus: string
    var loadError: bool

    /** The one-based page index never drops below 1. */
    ghost predicate Valid()
      reads this
    {
      currentPage >= 1
    }

    constructor ()
      ensures Valid()
      ensures ads == [] && currentPage == 1 && loading && selectedStatus == "all" && !loadError
    {
      ads := [];
      currentPage := 1;
      loading := true;
      selectedStatus := "all";
      loadError := false;
    }

    function Filtered(): seq<Advertisement>
      reads this
    {
      FilterByStatus(ads, selectedStatus)
    }

    function TotalPages(): nat
      reads this
    {
      Paging.TotalPages(|Filtered()|, AdsPerPage)
    }

    /** The listings on the current page: at most ten. */
    function Shown(): (r: seq<Advertisement>)
      requires Valid()
      reads this
      ensures |r| <= AdsPerPage
    {
      CurrentAds(Filtered(), currentPage)
    }

    /**
     * `loadUserAds`: without a user id (absent or 0) only the loading flag is
     * cleared. Otherwise the user's listings are requested; success replaces
     * the working set, failure sets the error and shows the fixed fallback.
     */
    method LoadUserAds(userId: Option<int>, username: Option<string>, fetched: Call<seq<Advertisement>>)
      returns (requested: Option<int>)
      requires Valid()
      modifies this
      ensures Valid() && !loading
      ensures currentPage == old(currentPage) && selectedStatus == old(selectedStatus)
      ensures userId.None? || userId.value == 0 ==>
        requested.None? && ads == old(ads) && loadError == old(loadError)
      ensures userId.Some? && userId.value != 0 ==> requested == userId
      ensures userId.Some? && userId.value != 0 && fetched.Ok? ==> ads == fetched.value && !loadError
      ensures userId.Some? && userId.value != 0 && fetched.Failed? ==> ads == [Fallback(username)] && loadError
    {
      if userId.None? || userId.value == 0 {
        loading := false;
        requested := None;
        return;
      }
      requested := userId;
      loadError := false;
      match fetched {
        case Ok(userAds) =>
          ads := userAds;
        case Failed =>
          loadError := true;
          ads := [Fallback(username)];
      }
      loading := false;
    }

    /**
     * `handleSoldClick`: after the user confirms, the mark-sold call is made
     * for `adId`; only when it succeeds is the listing's status set to sold.
     * Declining does nothing; a failed call leaves the listings as they were.
     */
    method HandleSoldClick(adId: int, confirmed: bool, outcome: Call<()>)
      returns (called: Option<int>, alert: Option<SoldAlert>)
      requires Valid()
      modifies this`ads
      ensures Valid()
      ensures !confirmed ==> called.None? && alert.None? && ads == old(ads)
      ensures confirmed ==> called == Some(adId)
      ensures confirmed && outcome.Ok? ==> ads == MarkSold(old(ads), adId) && alert == Some(MarkedAsSold)
      ensures confirmed && outcome.Failed? ==> ads == old(ads) && alert == Some(MarkAsSoldError)
    {
      called, alert := None, None;
      if confirmed {
        called := Some(adId);
        if outcome.Ok? {
          ads := MarkSold(ads, adId);
          alert := Some(MarkedAsSold);
        } else {
          alert := Some(MarkAsSoldError);
        }
      }
    }

    /** The mark-sold action with the page index clamped to the new page count afterwards. */
    method HandleSoldClickClamped(adId: int, confirmed: bool, outcome: Call<()>)
      returns (called: Option<int>, alert: Option<SoldAlert>)
      requires Valid()
      modifies this`ads, this`currentPage
      ensures Valid()
      ensures !confirmed ==> called.None? && alert.None? && ads == old(ads)
      ensures confirmed ==> called == Some(adId)
      ensures confirmed && outcome.Ok? ==> ads == MarkSold(old(ads), adId) && alert == Some(MarkedAsSold)
      ensures confirmed && outcome.Failed? ==> ads == old(ads) && alert == Some(MarkAsSoldError)
      ensures currentPage == ClampPage(old(currentPage), TotalPages())
      ensures Filtered() != [] ==> |Shown()| > 0
    {
      called, alert := HandleSoldClick(adId, confirmed, outcome);
      currentPage := ClampPage(currentPage, TotalPages());
      if Filtered() != [] {
        ClampedPageShowsItems(Filtered(), old(currentPage));
      }
    }

    /** `handlePrevious`: one page back unless on page 1. */
    method HandlePrevious()
      requires Valid()
      modifies this`currentPage
      ensures Valid()
      ensures currentPage == Paging.PrevPage(old(currentPage))
    {
      if currentPage > 1 {
        currentPage := currentPage - 1;
      }
    }

    /** `handleNext`: one page forward while below the page count. */
    method HandleNext()
      requires Valid()
      modifies this`currentPage
      ensures Valid()
      ensures currentPage == Paging.NextPage(old(currentPage), TotalPages())
    {
      if currentPage < TotalPages() {
        currentPage := currentPage + 1;
      }
    }

    /** A numbered page button: jumps to one of the pages `1..totalPages` it is drawn for. */
    method GoToPage(page: nat)
      requires Valid() && 1 <= page <= TotalPages()
      modifies this`currentPage
      ensures Valid() && currentPage == page
    {
      currentPage := page;
    }

    /** `handleStatusChange`: sets the selector and goes back to the first page. */
    method HandleStatusChange(status: string)
      requires Valid()
      modifies this`selectedStatus, this`currentPage
      ensures Valid()
      ensures selectedStatus == status && currentPage == 1
    {
      selectedStatus := status;
      currentPage := 1;
    }
  }
}
