/**
 * The decision rules of the advertisement card: the localised status badge,
 * its colour, whether the "sold" button appears and what clicking it reports.
 */
module AdCard {
  import opened Wrappers
  import opened Ads
  import Props

  /** The `isMyAd` prop, false when it is not given. */
  function IsMyAdProp(isMyAd: Option<bool>): (r: bool)
    ensures r <==> isMyAd == Some(true)
  {
    isMyAd.GetOr(false)
  }

  /** The status text table: an entry for the four wire names in "ru" and "uz", nothing otherwise. */
  function StatusLabel(status: string, language: string): Option<string>
  {
    if language == "ru" then
      (if status == "pending" then Some("На модерации")
       else if status == "approved" then Some("Одобрено")
       else if status == "rejected" then Some("Отклонено")
       else if status == "sold" then Some("Продано")
       else None)
    else if language == "uz" then
      (if status == "pending" then Some("Moderatsiyada")
       else if status == "approved" then Some("Tasdiqlangan")
       else if status == "rejected" then Some("Rad etilgan")
       else if status == "sold" then Some("Sotilgan")
       else None)
    else None
  }

  /** `getStatusText`: the table entry, or the raw status string when there is none. */
  function StatusText(status: string, language: string): (r: string)
    ensures r == status || StatusLabel(status, language) == Some(r)
  {
    StatusLabel(status, language).GetOr(status)
  }

  /** Every status of the workflow has a translation in both languages, different from its wire name. */
  lemma StatusTextTranslates(s: Status, language: string)
    requires language == "ru" || language == "uz"
    ensures StatusLabel(StatusName(s), language).Some?
    ensures StatusText(StatusName(s), language) != StatusName(s)
  {
  }

  /** An unknown status, or an unknown language, shows the raw status string. */
  lemma StatusTextFallsBack(status: string, language: string)
    requires (forall s: Status :: status != StatusName(s)) || (language != "ru" && language != "uz")
    ensures StatusText(status, language) == status
  {
    if language == "ru" || language == "uz" {
      assert status != StatusName(Pending) && status != StatusName(Approved);
      assert status != StatusName(Rejected) && status != StatusName(Sold);
    }
  }

  /** In either language the badge tells the four statuses apart. */
  lemma StatusTextDistinguishes(s: Status, t: Status, language: string)
    requires language == "ru" || language == "uz"
    requires StatusText(StatusName(s), language) == StatusText(StatusName(t), language)
    ensures s == t
  {
  }

  /** The colour classes of the badge. */
  const Green := "bg-green-100 text-green-800"
  const Red := "bg-red-100 text-red-800"
  const Gray := "bg-gray-100 text-gray-800"
  const Yellow := "bg-yellow-100 text-yellow-800"

  /** `getStatusColor`: approved green, rejected red, sold gray, anything else yellow. */
  function StatusColor(status: string): (c: string)
    ensures c == Green <==> status == "approved"
    ensures c == Red <==> status == "rejected"
    ensures c == Gray <==> status == "sold"
    ensures c == Yellow <==> status !in {"approved", "rejected", "sold"}
  {
    if status == "approved" then Green
    else if status == "rejected" then Red
    else if status == "sold" then Gray
    else Yellow
  }

  /** A pending listing shares the default colour with every unrecognised status. */
  lemma PendingIsDefaultColor(status: string)
    requires status !in {"approved", "rejected", "sold"}
    ensures StatusColor(StatusName(Pending)) == StatusColor(status)
  {
  }

  /** The "sold" button is rendered exactly for the owner's approved listings. */
  function SoldButtonVisible(isMyAd: bool, status: Status): (r: bool)
    ensures r <==> isMyAd && StatusName(status) == "approved"
  {
    isMyAd && status == Approved
  }

  /** The button's caption: "ru" gives the Russian word, every other language the Uzbek one. */
  function SoldButtonText(language: string): (r: string)
    ensures r != "" && (r == "Продано" <==> language == "ru")
  {
    if language == "ru" then "Продано" else "Sotilgan"
  }

  /**
   * `handleSoldClick`: the id reported to the `onSold` callback, if any. The
   * callback runs only when it is supplied and the id is non-zero (truthy).
   */
  function SoldClick(onSoldGiven: bool, id: int): (r: Option<int>)
    ensures r.Some? <==> onSoldGiven && id != 0
    ensures r.Some? ==> r.value == id
  {
    if onSoldGiven && id != 0 then Some(id) else None
  }

  /**
   * In both languages of the table the button's caption is the badge label of
   * a sold listing; for any other language the caption is Uzbek while the
   * badge shows the raw status.
   */
  lemma SoldCaptionMatchesSoldBadge(language: string)
    ensures language == "ru" || language == "uz" ==>
      SoldButtonText(language) == StatusText(StatusName(Sold), language)
    ensures language != "ru" && language != "uz" ==>
      SoldButtonText(language) == "Sotilgan" && StatusText(StatusName(Sold), language) == "sold"
  {
  }

  /** What the card shows of a listing's status: the badge text and colour, and the caption of the "sold" button if it has one. */
  datatype CardView = CardView(statusText: string, statusColor: string, soldButton: Option<string>)

  /** The status part of the card for the props `isMyAd` and `language`, each possibly not given. */
  function View(ad: Advertisement, isMyAd: Option<bool>, language: Option<string>): (v: CardView)
    ensures v.soldButton.Some? <==> IsMyAdProp(isMyAd) && CanTransition(ad.status, Sold)
    ensures v.soldButton.Some? ==> v.soldButton == Some(SoldButtonText(Props.LanguageProp(language)))
    ensures Props.LanguageProp(language) in {"ru", "uz"} ==> v.statusText != StatusName(ad.status)
  {
    var lang := Props.LanguageProp(language);
    CardView(
      StatusText(StatusName(ad.status), lang),
      StatusColor(StatusName(ad.status)),
      if SoldButtonVisible(IsMyAdProp(isMyAd), ad.status) then Some(SoldButtonText(lang)) else None)
  }

  /**
   * Without the optional props a card is read-only and Russian: no "sold"
   * button, and the badge in Russian.
   */
  lemma DefaultCardIsReadOnlyRussian(ad: Advertisement)
    ensures View(ad, None, None).soldButton.None?
    ensures View(ad, None, None).statusText == StatusText(StatusName(ad.status), "ru")
    ensures View(ad, None, None).statusText != StatusName(ad.status)
  {
  }

  /** The button is only offered where the workflow allows the move to sold. */
  lemma SoldButtonMeansLegalTransition(isMyAd: bool, status: Status)
    requires SoldButtonVisible(isMyAd, status)
    ensures CanTransition(status, Sold)
  {
  }
}
