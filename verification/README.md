# Listing state of the classifieds mini-app, in Dafny

The mini-app is a Telegram Web App for buying and selling phones. Each of its
pages keeps a small piece of listing state in React component state. This
project models that state and the pure rules the pages and components decide by:

- **My advertisements** (`MyAds`): the user's own listings. A status selector
  filters them. They are shown ten per page with a one-based page index and a
  numbered pager. The page has a confirm-then-call "mark as sold" action.
- **Browse** (`Browse`): approved listings. They are narrowed by a
  case-insensitive search over model and description and by a category
  selector, and shown one per page with a zero-based index.
- **Favourites** (`Favorites`): a fixed two-item list, one entry per page. The
  entry on screen can be removed. The index then steps back by one when it was
  on the last entry and not on the first.
- **Pagination control** (`PaginationControl`) and **advertisement card**
  (`AdCard`): pure decision rules. They cover visibility, disabled buttons,
  the page label, the status badge text and colour, and the "sold" button.
- **Create listing** (`Sell`): the form reducer, the validity rule, the
  multipart payload, the submit guard and reset, and the fallback reference data.

Shared modules:

- `Ads`: the advertisement record and its four-valued status.
- `Seqs`: `Array.prototype.filter`, with its subsequence and count facts.
- `Paging`: page count, slice window and index steps.
- `Text`: ASCII lower-casing, substring search, and decimal rendering of numbers.
- `Wrappers`: `Option`, and the `Call` outcome of a remote call.

How the JavaScript is rendered:

- Every page is a `class` whose fields are its `useState` variables. Every
  handler is a method that performs one atomic step over the pre-state.
- Every remote call is an input of type `Call<T>`, either `Ok(value)` or
  `Failed`. The confirmation dialog's answer is a `bool` input.
- The Telegram user id is an `Option<int>`. JavaScript's `!user?.id` treats an
  absent id and the id 0 alike, and so does the model.

Each method's contract states its whole new state in terms of a specification
function. The lemmas beside that function prove what the page promises:
- filters are exact, order-preserving subsequences;
- the page count is the ceiling;
- the pages together are the list;
- index steps stay in range;
- removal keeps the index valid;
- the payload reads back to the form.

On the browse page, changing the search term or the category keeps the index
where it was (`src/pages/Browse.tsx:194-203`). The status selector of the
listings page, by contrast, returns to page 1 (`src/pages/MyAds.tsx:116-119`).
The model follows the code. A resetting variant is modelled beside it, and
the difference is the first finding below.

## Model

| member | source | states |
|---|---|---|
| Ads.StatusNameInjective | src/types/telegram.ts:90 | the four wire names of the status are pairwise distinct, and none of them is the selector value "all" |
| Ads.SubsequenceKeepsUniqueIds | src/pages/Favorites.tsx:58 | a list of listings drawn in order from a list with unique ids has unique ids |
| Seqs.Filter | src/pages/MyAds.tsx:93-96 | a filter result is no longer than its input, and every element it holds passes |
| Seqs.FilterMembers | src/pages/MyAds.tsx:93-96 | a filter result holds only elements of its input, and holds every input element that passes |
| Seqs.FilterIsSubsequence | src/pages/Browse.tsx:88 | a filter result is an order-preserving subsequence of its input, with an explicit increasing index embedding |
| Seqs.FilterCount | src/pages/Favorites.tsx:58 | each element occurs in a filter result as often as in the input if it passes, and not at all otherwise |
| Seqs.FilterKeepsAll | src/pages/MyAds.tsx:94 | a filter that every element passes returns the input unchanged |
| Seqs.FilterDropsAll | src/pages/Browse.tsx:117 | a filter that no element passes returns the empty list |
| Seqs.FilterAppend | src/pages/Browse.tsx:88-93 | filtering a concatenation is the concatenation of the filtered parts |
| Seqs.FilterDropsOne | src/pages/Favorites.tsx:58 | when exactly the element at k fails, the filter cuts out that element and keeps the rest in order |
| Text.LowerIdempotent | src/pages/Browse.tsx:89-90 | lower-casing twice is the same as lower-casing once |
| Text.IntValueOfDigits | src/pages/Sell.tsx:120 | a digit string, with or without a leading minus, reads back to its value or the negated value |
| Text.IncludesIff | src/pages/Browse.tsx:89-90 | `includes` holds exactly when the needle occurs at some position of the haystack |
| Text.IncludesEmpty | src/pages/Browse.tsx:89 | every string includes the empty string, so an empty search term matches everything |
| Text.NatToDecimal | src/components/Pagination.tsx:51 | the rendered page number is a non-empty string of decimal digits |
| Text.DecimalRoundTrip | src/components/Pagination.tsx:51 | reading back the decimal rendering of a natural number gives that number |
| Text.DecimalNoLeadingZero | src/components/Pagination.tsx:51 | the rendering of a number has no leading zero unless the number is 0 |
| Text.IntRoundTrip | src/pages/Sell.tsx:120 | `user.id.toString()` of any integer, negative ones included, reads back to that integer |
| Props.LanguageProp | src/components/AdCard.tsx:11-16 | an omitted `language` prop stands for "ru", as in both components' defaults |
| Paging.TotalPages | src/pages/MyAds.tsx:99 | the page count is 0 exactly for an empty list; otherwise the first t-1 pages are full and the t-th holds the rest |
| Paging.TotalPagesIsCeiling | src/pages/MyAds.tsx:99 | the page count equals the closed-form ceiling `(n + size - 1) / size` |
| Paging.Slice | src/pages/MyAds.tsx:102 | `slice` with non-negative bounds clamps both bounds to the length and is empty past the end |
| Paging.Window | src/pages/MyAds.tsx:100-102 | a page holds at most `size` items; it is the non-empty slice from `(page-1)*size` when that start is inside the list, and empty otherwise |
| Paging.WindowOnPage | src/pages/MyAds.tsx:99-102 | every page from 1 to the page count is a non-empty slice starting inside the list; every later page is empty |
| Paging.LastPageSize | src/pages/MyAds.tsx:99-102 | the last page holds `n - size*(totalPages-1)` items, between 1 and `size` |
| Paging.FirstPagesArePrefix | src/pages/MyAds.tsx:100-102 | pages 1 to k, concatenated, are the first `k*size` items (or all of them) |
| Paging.PagesCoverList | src/pages/MyAds.tsx:99-102 | all pages in order are exactly the list: paging loses and repeats nothing |
| Paging.IndexStepsStayInRange | src/pages/Browse.tsx:95-105 | from a valid zero-based index both steps stay in `[0, len-1]`; each is a no-op exactly at its end |
| Paging.PageStepsStayInRange | src/pages/MyAds.tsx:104-114 | from a page in range both one-based steps stay in range; previous is a no-op exactly on page 1, next exactly from the page count on |
| PaginationControl.TextsFor | src/components/Pagination.tsx:18-31 | "uz" gets the Uzbek texts and every other language gets the Russian ones |
| PaginationControl.Render | src/components/Pagination.tsx:11-57 | the control is hidden exactly when there is at most one page; previous is disabled exactly on index 0; next exactly on the last index; the label shows `currentPage + 1` over the page count; the button texts are those of the prop's language, "ru" when it is omitted |
| PaginationControl.ControlAgreesWithSteps | src/components/Pagination.tsx:39-57 | on a valid index, each button is disabled exactly when its handler would leave the index unchanged |
| AdCard.IsMyAdProp | src/components/AdCard.tsx:13 | an omitted `isMyAd` prop means the card is not the user's own |
| AdCard.StatusText | src/components/AdCard.tsx:26-34 | the badge shows either the raw status or that status's label in the language |
| AdCard.StatusTextTranslates | src/components/AdCard.tsx:27-32 | every status has a "ru" and a "uz" label, and the label differs from the wire name |
| AdCard.StatusTextFallsBack | src/components/AdCard.tsx:33 | an unknown status or an unknown language shows the raw status string |
| AdCard.StatusTextDistinguishes | src/components/AdCard.tsx:26-34 | in either language, distinct statuses get distinct labels |
| AdCard.StatusColor | src/components/AdCard.tsx:36-43 | green exactly for approved, red exactly for rejected, gray exactly for sold, yellow for everything else |
| AdCard.PendingIsDefaultColor | src/components/AdCard.tsx:41 | pending gets the same default colour as any unrecognised status |
| AdCard.SoldClick | src/components/AdCard.tsx:45-49 | `onSold` is called, with the card's id, exactly when it is supplied and the id is non-zero |
| AdCard.SoldButtonVisible | src/components/AdCard.tsx:131 | the "sold" button is shown exactly on the user's own approved listings |
| AdCard.SoldButtonText | src/components/AdCard.tsx:136 | the button caption is Russian for "ru" and Uzbek for every other language |
| AdCard.SoldButtonMeansLegalTransition | src/components/AdCard.tsx:131 | the "sold" button appears only on a listing that the workflow allows to become sold |
| AdCard.SoldCaptionMatchesSoldBadge | src/components/AdCard.tsx:26-136 | in "ru" and "uz", the button caption is the badge label of the sold status |
| AdCard.View | src/components/AdCard.tsx:11-136 | the card shows the "sold" button exactly on the user's own listings that may become sold, captioned in the prop's language; in "ru" and "uz" the badge never shows the raw status |
| AdCard.DefaultCardIsReadOnlyRussian | src/components/AdCard.tsx:11-16 | a card given no `isMyAd` and no `language` shows no "sold" button and a Russian badge |
| MyAds.FilterByStatus | src/pages/MyAds.tsx:93-96 | the filtered list is no longer than the working set, and every listing in it matches the selector |
| MyAds.FilterAllKeepsEverything | src/pages/MyAds.tsx:94 | with the selector on "all" the filtered list is the whole working set |
| MyAds.FilterByStatusExact | src/pages/MyAds.tsx:95 | with the selector on a status, the filtered list is an order-preserving subsequence holding exactly the listings with that status, each with its multiplicity |
| MyAds.FilterUnknownStatusIsEmpty | src/pages/MyAds.tsx:93-96 | a selector value that names no status and is not "all" shows nothing |
| MyAds.FifteenItemsScenario | src/pages/MyAds.tsx:99-114 | fifteen listings make two pages: items 1-10, then items 11-15; "next" on page 2 stays there |
| MyAds.PagerAgreesWithSteps | src/pages/MyAds.tsx:249-277 | on a page in range, the pager's previous and next buttons are disabled exactly when the handlers would not move |
| MyAds.MarkSold | src/pages/MyAds.tsx:71-75 | marking keeps the length and every id, and each listing is either untouched or now sold |
| MyAds.MarkSoldChangesOnlyThatStatus | src/pages/MyAds.tsx:71-75 | marking sold keeps the length and the order; listings with another id are untouched; the listing with the id changes only its status, to sold |
| MyAds.MarkSoldUnique | src/pages/MyAds.tsx:71-75 | with unique ids, marking the id at position k updates exactly position k, and the ids stay unique |
| MyAds.MarkSoldIdempotent | src/pages/MyAds.tsx:71-75 | marking the same id sold twice is the same as marking it once |
| MyAds.MarkSoldKeepsSold | src/pages/MyAds.tsx:71-75 | a sold listing stays sold whichever id is marked |
| MyAds.MarkSoldFromButton | src/components/AdCard.tsx:131 | marking a listing that shows the "sold" button is a legal workflow move, and the button is gone afterwards |
| MyAds.SaleStrandsLastPage | src/pages/MyAds.tsx:71-75 | with eleven approved listings under "approved", selling the one on page 2 leaves ten listings, an empty page 2 and a hidden pager, so none of them is shown until the status selector is changed |
| MyAds.ClampedPageShowsItems | src/pages/MyAds.tsx:99-102 | corrected variant: once the index is clamped to the page count, a non-empty filtered list always shows a non-empty page |
| MyAds.Fallback | src/pages/MyAds.tsx:37-53 | the one-item fallback is listing 1, approved, under the user's name when it has one and "user" otherwise |
| MyAds.MyAdsPage.constructor | src/pages/MyAds.tsx:13-17 | the page starts empty and loading, on page 1, with the selector on "all" |
| MyAds.MyAdsPage.Shown | src/pages/MyAds.tsx:102 | the current page shows at most ten listings |
| MyAds.MyAdsPage.LoadUserAds | src/pages/MyAds.tsx:21-58 | without a user id, only loading ends; with one, that id is requested; success replaces the listings; failure sets the error and shows the one-item fallback; loading always ends |
| MyAds.MyAdsPage.HandleSoldClick | src/pages/MyAds.tsx:63-90 | declining does nothing; confirming calls the service for that id; only a successful call marks it sold; a failure leaves the listings unchanged and raises the error alert |
| MyAds.MyAdsPage.HandleSoldClickClamped | src/pages/MyAds.tsx:63-90 | corrected variant: the same as the mark-sold action, with the page index then clamped to the new page count, so a non-empty filtered list always shows a non-empty page |
| MyAds.MyAdsPage.HandlePrevious | src/pages/MyAds.tsx:104-108 | the page moves back by one only when it is above 1 |
| MyAds.MyAdsPage.HandleNext | src/pages/MyAds.tsx:110-114 | the page moves forward by one only when it is below the page count |
| MyAds.MyAdsPage.GoToPage | src/pages/MyAds.tsx:260-263 | a numbered button sets the page to its number |
| MyAds.MyAdsPage.HandleStatusChange | src/pages/MyAds.tsx:116-119 | the selector takes the new value and the page returns to 1 |
| Browse.FilterAds | src/pages/Browse.tsx:88-93 | the filtered list is no longer than the loaded one, and every listing in it passes the search and the category |
| Browse.SearchIgnoresTermCase | src/pages/Browse.tsx:89-90 | a term and its lower-cased form find the same listings |
| Browse.MatchesIff | src/pages/Browse.tsx:88-93 | a listing passes exactly when the lower-cased term occurs in its lower-cased model or description, and the category is "all" or equals its own |
| Browse.FilterAdsExact | src/pages/Browse.tsx:88-93 | the filtered list is an order-preserving subsequence holding exactly the passing listings, each with its multiplicity |
| Browse.EmptySearchKeepsAll | src/pages/Browse.tsx:89-91 | an empty search with every category keeps the whole working set |
| Browse.SingleMatch | src/pages/Browse.tsx:88-93 | when exactly one listing passes, the filtered list is that listing alone |
| Browse.CurrentAd | src/pages/Browse.tsx:169-220 | a card is shown exactly when the index is inside the filtered list, and it is the listing at that index |
| Browse.SingleResultScenario | src/pages/Browse.tsx:169-234 | a search that one listing passes shows that listing on index 0, and the pagination control is hidden |
| Browse.FallbackShape | src/pages/Browse.tsx:32-78 | the fallback holds ids 1, 2 and 3, all approved and unique |
| Browse.BrowsePage.constructor | src/pages/Browse.tsx:14-19 | the page starts empty and loading, on index 0, with an empty term and category "all" |
| Browse.BrowsePage.Shown | src/pages/Browse.tsx:169 | the card on screen is always one of the loaded listings |
| Browse.BrowsePage.LoadAdvertisements | src/pages/Browse.tsx:21-83 | approved listings are requested; success replaces the listings; failure sets the error and shows the three-item fallback; loading ends |
| Browse.BrowsePage.HandlePrevious | src/pages/Browse.tsx:95-99 | the index moves back by one only when it is above 0 |
| Browse.BrowsePage.HandleNext | src/pages/Browse.tsx:101-105 | the index moves forward by one only when it is below the last filtered index |
| Browse.BrowsePage.SetSearchTerm | src/pages/Browse.tsx:194 | typing sets the term and leaves the index where it was |
| Browse.BrowsePage.SetCategory | src/pages/Browse.tsx:203 | choosing a category sets it and leaves the index where it was |
| Browse.BrowsePage.SetSearchTermFromStart | src/pages/Browse.tsx:194 | corrected variant: typing sets the term and resets the index to 0, so a non-empty result shows its first listing |
| Browse.BrowsePage.SetCategoryFromStart | src/pages/Browse.tsx:203 | corrected variant: choosing a category sets it and resets the index to 0, so a non-empty result shows its first listing |
| Browse.StaleIndexHidesResult | src/pages/Browse.tsx:194-234 | narrowing from three results to one while on the third leaves no card and a hidden control, although one result passes |
| Browse.ResetIndexShowsResult | src/pages/Browse.tsx:169-234 | corrected variant: on index 0 a non-empty filtered list shows its first listing; when the control is shown, previous is disabled and next is enabled |
| Favorites.RemoveById | src/pages/Favorites.tsx:58 | removal returns no longer a list, and no entry with the id is left |
| Favorites.StepBack | src/pages/Favorites.tsx:59-61 | the index moves back by at most one, and it moves exactly when it is above 0 and on or past the last entry of the old list |
| Favorites.RemoveByIdExact | src/pages/Favorites.tsx:58 | removal keeps an order-preserving subsequence, drops every entry with the id, and keeps every other entry as often as it occurs |
| Favorites.RemoveAbsentIsIdentity | src/pages/Favorites.tsx:58 | removing an id that no entry has leaves the list unchanged |
| Favorites.AbsentRemovalStillStepsBack | src/pages/Favorites.tsx:58-61 | removing an absent id while on the last of two or more entries keeps every entry but still moves the index back |
| Favorites.RemovePresentUnique | src/pages/Favorites.tsx:58 | with unique ids, removing the id of entry k cuts out exactly that entry, so the list shortens by one |
| Favorites.RemovalKeepsIndexValid | src/pages/Favorites.tsx:57-62 | with unique ids, removal followed by the step back (judged on the old length) keeps the index on an entry, or at 0 on an empty list |
| Favorites.InitialShape | src/pages/Favorites.tsx:18-49 | the starting favourites are ids 4 and 5, both approved |
| Favorites.FavoritesPage.constructor | src/pages/Favorites.tsx:13-15 | the page starts empty and loading, on index 0 |
| Favorites.FavoritesPage.FinishLoading | src/pages/Favorites.tsx:51-54 | the fixed favourites appear and loading ends |
| Favorites.FavoritesPage.Shown | src/pages/Favorites.tsx:130 | an entry is shown exactly when the list is not empty, and it is the entry at the index |
| Favorites.FavoritesPage.HandleRemoveFromFavorites | src/pages/Favorites.tsx:57-62 | the list becomes the filtered list, and the index steps back by the rule on the old length, keeping the index valid |
| Favorites.FavoritesPage.HandlePrevious | src/pages/Favorites.tsx:64-68 | the index moves back by one only when it is above 0, and stays valid |
| Favorites.FavoritesPage.HandleNext | src/pages/Favorites.tsx:70-74 | the index moves forward by one only when it is below the last entry, and stays valid |
| Sell.InputChange | src/pages/Sell.tsx:64-78 | the edited field takes the new value, and a category edit also empties the brand |
| Sell.InputChangeFrame | src/pages/Sell.tsx:64-78 | editing a field sets it and leaves every other field unchanged, except that a category edit also empties the brand |
| Sell.BrandQueryFor | src/pages/Sell.tsx:72-95 | only a category edit asks for brands: scoped to a non-empty category, unscoped for the empty one |
| Sell.IsFormValid | src/pages/Sell.tsx:163-164 | a valid form has a photo chosen and its reference data loaded |
| Sell.SubmitDisabled | src/pages/Sell.tsx:334 | the submit button is disabled whenever a submission is running, the reference data is loading or no photo is chosen |
| Sell.EnabledSubmitSendsCompleteForm | src/pages/Sell.tsx:119-334 | an enabled submit button means no submission is running, a photo is chosen and the payload holds eight filled-in text parts and the photo |
| Sell.ResetFormDisablesSubmit | src/pages/Sell.tsx:334 | the emptied form with no photo cannot be submitted |
| Sell.FormValidIff | src/pages/Sell.tsx:163-164 | the form is valid exactly when all seven fields are non-empty, a photo is chosen and the reference data has loaded |
| Sell.Payload | src/pages/Sell.tsx:119-131 | the payload has eight text parts under the fixed keys in order, then the photo when there is one |
| Sell.PayloadRoundTrip | src/pages/Sell.tsx:119-131 | the payload reads back to the user id, the seven fields and the photo it was built from |
| Sell.ValidFormSendsEverything | src/pages/Sell.tsx:119-131 | a valid form sends eight non-empty text parts under the expected keys, then the photo |
| Sell.FallbackShape | src/pages/Sell.tsx:44-55 | the fallback holds two categories and six brands, numbered from 1 |
| Sell.SellPage.constructor | src/pages/Sell.tsx:11-24 | the form starts empty, with no photo and no submission running, and the reference data loading |
| Sell.SellPage.LoadData | src/pages/Sell.tsx:31-62 | the fetched lists are used when both calls succeed; if either fails, both fallback lists are used; data loading ends on every path |
| Sell.SellPage.HandleInputChange | src/pages/Sell.tsx:64-97 | the form takes the reducer's result; the brand query is the one for the edit; the brand list changes only on a successful category query |
| Sell.SellPage.HandlePhotoChange | src/pages/Sell.tsx:99-103 | the first chosen file becomes the photo; choosing nothing keeps the old one |
| Sell.SellPage.HandleSubmit | src/pages/Sell.tsx:105-161 | without a user id, it alerts and sends nothing, changing no state; otherwise it sends the payload of the form; success alerts and empties the form and photo; failure alerts and keeps them; no submission is left running |

## Left out

- `src/services/api.ts` is not part of this model. Each of its calls is a `Call` input whose outcome is given, and the request a method makes is its return value.
- The Telegram bridge (`src/hooks/useTelegram.ts`): the user record becomes an optional id and name; the confirmation dialog becomes a `bool`; the alerts become returned values.
- Asynchrony is not modelled. This covers the one-second delay before the favourites appear, the `Promise.all` in the reference-data load, and React's batching of state updates. Each handler is one atomic step over the pre-state. This matches how the favourites removal reads the pre-removal length.
- Sell.SellPage.HandleSubmit: the form reset that runs when the success alert is dismissed is folded into the same step, and the navigation to the listings page is left out.
- `toLowerCase` is modelled for ASCII letters only; Unicode case mapping is out of scope.
- Lookups in JavaScript object literals are modelled as plain string comparisons. These are the language tables of the pagination control and the status table of the card. Keys that an object inherits from its prototype (for example `"constructor"`) are not modelled.
- The value of a category option is passed to `parseInt` before the brand request. The model keeps it as the string from the form.
- Rendering is not modelled. This covers JSX in general, price formatting via `toLocaleString`, date formatting, and the image `onError` diagnostics. It also covers the results-count texts, the language context and translation tables, routing, and styling.
- The floating-point (double) nature of JavaScript numbers is not modelled: ids, prices and page numbers are unbounded integers.

## Findings

| source | as written | input that shows it | evidently intended | confidence | as-written member | corrected member |
|---|---|---|---|---|---|---|
| src/pages/Browse.tsx:194-203 | changing the search term or the category keeps the zero-based index | three listings, the third on screen, then a term that only the first passes: the index stays 2, no card is shown and the pagination control is hidden, so the one result cannot be reached | reset the index to 0 on a filter change, as the status selector of the listings page does | medium, not executed | Browse.StaleIndexHidesResult | Browse.BrowsePage.SetSearchTermFromStart, Browse.BrowsePage.SetCategoryFromStart, Browse.ResetIndexShowsResult |
| src/pages/MyAds.tsx:71-75 | marking a listing sold never adjusts the page index | eleven approved listings, selector on "approved", page 2 showing the eleventh, which is then sold: ten listings still pass, yet page 2 is empty and the pager is hidden, so none of them is shown until the status selector is changed | clamp the page index to the new page count | medium, not executed | MyAds.SaleStrandsLastPage | MyAds.MyAdsPage.HandleSoldClickClamped, MyAds.ClampedPageShowsItems |
