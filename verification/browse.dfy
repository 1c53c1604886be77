/**
 * The browse list: approved listings narrowed by a case-insensitive search
 * over model and description and by a category selector, shown one listing
 * per zero-based page.
 */
module Browse {
  import opened Wrappers
  import opened Ads
  import Seqs
  import Text
  import Paging
  import PaginationControl

  /** `model` or `description`, lower-cased, contains the lower-cased search term. */
  predicate MatchesSearch(ad: Advertisement, term: string)
  {
    Text.Includes(Text.Lower(ad.model), Text.Lower(term))
    || Text.Includes(Text.Lower(ad.description), Text.Lower(term))
  }

  /** The category selector is "all" or names the listing's category. */
  predicate MatchesCategory(ad: Advertisement, category: string)
  {
    category == "all" || ad.categoryName == category
  }

  predicate Matches(ad: Advertisement, term: string, category: string)
  {
    MatchesSearch(ad, term) && MatchesCategory(ad, category)
  }

  /** `filteredAds` of the browse page. */
  function FilterAds(ads: seq<Advertisement>, term: string, category: string): (r: seq<Advertisement>)
    ensures |r| <= |ads|
    ensures forall k :: 0 <= k < |r| ==> Matches(r[k], term, category)
  {
    Seqs.Filter(ads, (a: Advertisement) => Matches(a, term, category))
  }

  /**
   * A listing passes exactly when the lower-cased term occurs in its
   * lower-cased model or in its lower-cased description, and the category
   * selector is "all" or equals its category.
   */
  lemma MatchesIff(ad: Advertisement, term: string, category: string)
    ensures Matches(ad, term, category) <==>
      && ((exists i :: Text.OccursAt(Text.Lower(ad.model), Text.Lower(term), i))
          || (exists i :: Text.OccursAt(Text.Lower(ad.description), Text.Lower(term), i)))
      && (category == "all" || ad.categoryName == category)
  {
    Text.IncludesIff(Text.Lower(ad.model), Text.Lower(term));
    Text.IncludesIff(Text.Lower(ad.description), Text.Lower(term));
  }

  /** The search ignores the case of the term: a lower-cased term finds the same listings. */
  lemma SearchIgnoresTermCase(ad: Advertisement, term: string, category: string)
    ensures Matches(ad, Text.Lower(term), category) <==> Matches(ad, term, category)
  {
    Text.LowerIdempotent(term);
  }

  /**
   * The filtered list is an order-preserving subsequence of the working set
   * holding every passing listing, as often as it occurs, and nothing else.
   */
  lemma FilterAdsExact(ads: seq<Advertisement>, term: string, category: string)
    ensures var r := FilterAds(ads, term, category);
      && Seqs.IsSubsequence(r, ads)
      && (forall k :: 0 <= k < |r| ==> Matches(r[k], term, category))
      && (forall k :: 0 <= k < |ads| && Matches(ads[k], term, category) ==> ads[k] in r)
      && (forall a :: multiset(r)[a] == if Matches(a, term, category) then multiset(ads)[a] else 0)
  {
    var p := (a: Advertisement) => Matches(a, term, category);
    var _ := Seqs.FilterIsSubsequence(ads, p);
    Seqs.FilterMembers(ads, p);
    forall a ensures multiset(Seqs.Filter(ads, p))[a] == if p(a) then multiset(ads)[a] else 0 {
      Seqs.FilterCount(ads, p, a);
    }
  }

  /** An empty search with every category keeps the whole working set. */
  lemma EmptySearchKeepsAll(ads: seq<Advertisement>)
    ensures FilterAds(ads, "", "all") == ads
  {
    forall k | 0 <= k < |ads| ensures Matches(ads[k], "", "all") {
      Text.IncludesEmpty(Text.Lower(ads[k].model));
    }
    Seqs.FilterKeepsAll(ads, (a: Advertisement) => Matches(a, "", "all"));
  }

  /** When exactly one listing passes, the filtered list is that listing alone. */
  lemma SingleMatch(ads: seq<Advertisement>, term: string, category: string, j: nat)
    requires j < |ads| && Matches(ads[j], term, category)
    requires forall k :: 0 <= k < |ads| && k != j ==> !Matches(ads[k], term, category)
    ensures FilterAds(ads, term, category) == [ads[j]]
  {
    var p := (a: Advertisement) => Matches(a, term, category);
    assert ads == ads[..j] + [ads[j]] + ads[j + 1..];
    Seqs.FilterAppend(ads[..j] + [ads[j]], ads[j + 1..], p);
    Seqs.FilterAppend(ads[..j], [ads[j]], p);
    Seqs.FilterDropsAll(ads[..j], p);
    Seqs.FilterDropsAll(ads[j + 1..], p);
  }

  /** `currentAd`: `filteredAds[currentPage]`, or nothing when the index is past the end. */
  function CurrentAd(filtered: seq<Advertisement>, page: nat): (r: Option<Advertisement>)
    ensures r.Some? <==> page < |filtered|
    ensures r.Some? ==> r.value == filtered[page] && r.value in filtered
  {
    if page < |filtered| then Some(filtered[page]) else None
  }

  /**
   * A search that a single listing passes, as on the first page: one page in
   * all, the card shows that listing and the pagination control is hidden.
   */
  lemma SingleResultScenario(ads: seq<Advertisement>, term: string, j: nat)
    requires j < |ads| && Matches(ads[j], term, "all")
    requires forall k :: 0 <= k < |ads| && k != j ==> !Matches(ads[k], term, "all")
    ensures var filtered := FilterAds(ads, term, "all");
      && |filtered| == 1
      && CurrentAd(filtered, 0) == Some(ads[j])
      && PaginationControl.Render(0, |filtered|, None).Hidden?
  {
    SingleMatch(ads, term, "all", j);
  }

  /** The three listings shown when loading fails. */
  const Fallback: seq<Advertisement> := [
    Advertisement(
      1, "iPhone 14 Pro", 15000000, "Excellent condition, 256GB storage, no scratches",
      "+998901234567", "Tashkent", "+998901234567",
      Some("https://via.placeholder.com/300x200?text=iPhone+14+Pro"),
      Approved, "2024-01-15T10:30:00Z", "Smartphones", "Apple", Some("seller1")),
    Advertisement(
      2, "Samsung Galaxy S23", 12000000, "Brand new, unopened box with warranty",
      "+998901234568", "Samarkand", "+998901234568",
      Some("https://via.placeholder.com/300x200?text=Galaxy+S23"),
      Approved, "2024-01-10T15:45:00Z", "Smartphones", "Samsung", Some("seller2")),
    Advertisement(
      3, "Xiaomi Redmi Note 12", 4500000, "Good condition, 128GB, minor scratches",
      "+998901234569", "Bukhara", "+998901234569",
      Some("https://via.placeholder.com/300x200?text=Redmi+Note+12"),
      Approved, "2024-01-08T12:20:00Z", "Smartphones", "Xiaomi", Some("seller3"))
  ]

  /** The fallback holds ids 1, 2 and 3, all approved, like what the page requests. */
  lemma FallbackShape()
    ensures |Fallback| == 3 && UniqueIds(Fallback)
    ensures forall k :: 0 <= k < 3 ==> Fallback[k].id == k + 1 && Fallback[k].status == Approved
  {
  }

  /** The component state of the browse page. */
  class BrowsePage {
    var ads: seq<Advertisement>
    var currentPage: nat
    var loading: bool
    var searchTerm: string
    var selectedCategory: string
    var loadError: bool

    constructor ()
      ensures ads == [] && currentPage == 0 && loading && searchTerm == "" && selectedCategory == "all"
      ensures !loadError
    {
      ads := [];
      currentPage := 0;
      loading := true;
      searchTerm := "";
      selectedCategory := "all";
      loadError := false;
    }

    function Filtered(): seq<Advertisement>
      reads this
    {
      FilterAds(ads, searchTerm, selectedCategory)
    }

    /** The card on screen: the filtered listing at the index, if there is one. */
    function Shown(): (r: Option<Advertisement>)
      reads this
      ensures r.Some? ==> r.value in ads
    {
      FilterAdsExact(ads, searchTerm, selectedCategory);
      CurrentAd(Filtered(), currentPage)
    }

    /**
     * `loadAdvertisements`: asks for the approved listings; success replaces
     * the working set, failure sets the error and shows the fixed fallback.
     */
    method LoadAdvertisements(fetched: Call<seq<Advertisement>>) returns (requestedStatus: string)
      modifies this`ads, this`loading, this`loadError
      ensures requestedStatus == StatusName(Approved) && !loading
      ensures fetched.Ok? ==> ads == fetched.value && !loadError
      ensures fetched.Failed? ==> ads == Fallback && loadError
    {
      requestedStatus := "approved";
      loadError := false;
      match fetched {
        case Ok(response) =>
          ads := response;
        case Failed =>
          loadError := true;
          ads := Fallback;
      }
      loading := false;
    }

    /** `handlePrevious`: one listing back unless on the first. */
    method HandlePrevious()
      modifies this`currentPage
      ensures currentPage == Paging.PrevIndex(old(currentPage))
    {
      if currentPage > 0 {
        currentPage := currentPage - 1;
      }
    }

    /** `handleNext`: one listing forward unless on the last filtered listing. */
    method HandleNext()
      modifies this`currentPage
      ensures currentPage == Paging.NextIndex(old(currentPage), |Filtered()|)
    {
      if currentPage < |Filtered()| - 1 {
        currentPage := currentPage + 1;
      }
    }

    /** Typing in the search box: the term changes, the index does not. */
    method SetSearchTerm(term: string)
      modifies this`searchTerm
      ensures searchTerm == term && currentPage == old(currentPage)
    {
      searchTerm := term;
    }

    /** Choosing a category: the selector changes, the index does not. */
    method SetCategory(category: string)
      modifies this`selectedCategory
      ensures selectedCategory == category && currentPage == old(currentPage)
    {
      selectedCategory := category;
    }

    /** Typing in the search box with the index reset to the first listing, as the management list does. */
    method SetSearchTermFromStart(term: string)
      modifies this`searchTerm, this`currentPage
      ensures searchTerm == term && currentPage == 0
      ensures Filtered() != [] ==> Shown() == Some(Filtered()[0])
    {
      searchTerm := term;
      currentPage := 0;
    }

    /** Choosing a category with the index reset to the first listing. */
    method SetCategoryFromStart(category: string)
      modifies this`selectedCategory, this`currentPage
      ensures selectedCategory == category && currentPage == 0
      ensures Filtered() != [] ==> Shown() == Some(Filtered()[0])
    {
      selectedCategory := category;
      currentPage := 0;
    }
  }

  /**
   * As written, narrowing the search keeps a stale index: three listings, the
   * third on screen, then a term only the first one passes. The filtered list
   * is not empty, yet no card is shown and the pagination control is hidden,
   * so the one result cannot be reached.
   */
  lemma StaleIndexHidesResult(ads: seq<Advertisement>, oldTerm: string, newTerm: string)
    requires |ads| == 3
    requires forall k :: 0 <= k < 3 ==> Matches(ads[k], oldTerm, "all")
    requires Matches(ads[0], newTerm, "all") && !Matches(ads[1], newTerm, "all") && !Matches(ads[2], newTerm, "all")
    ensures CurrentAd(FilterAds(ads, oldTerm, "all"), 2) == Some(ads[2])
    ensures var filtered := FilterAds(ads, newTerm, "all");
      && |filtered| == 1
      && CurrentAd(filtered, 2).None?
      && PaginationControl.Render(2, |filtered|, None).Hidden?
  {
    Seqs.FilterKeepsAll(ads, (a: Advertisement) => Matches(a, oldTerm, "all"));
    SingleMatch(ads, newTerm, "all", 0);
  }

  /**
   * With the index reset to the first listing, every filter that leaves
   * something shows its first result, and the pagination buttons agree with
   * the handlers.
   */
  lemma ResetIndexShowsResult(filtered: seq<Advertisement>, language: Option<string>)
    requires |filtered| > 0
    ensures CurrentAd(filtered, 0) == Some(filtered[0])
    ensures var v := PaginationControl.Render(0, |filtered|, language);
      v.Shown? ==> v.previousDisabled && !v.nextDisabled
  {
    PaginationControl.ControlAgreesWithSteps(0, |filtered|, language);
  }
}
