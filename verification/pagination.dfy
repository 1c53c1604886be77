/**
 * The previous/next pagination control used by the one-item-per-page views
 * (browse and favourites). It is a pure function of its props.
 */
module PaginationControl {
  import opened Wrappers
  import Text
  import Paging
  import Props

  /** The three strings of the control in one language. */
  datatype PagerTexts = PagerTexts(previous: string, next: string, page: string)

  const RuTexts := PagerTexts("← Назад", "Далее →", "страница")
  const UzTexts := PagerTexts("← Orqaga", "Keyingi →", "sahifa")

  /** The text table lookup: "ru" and "uz" have their own texts, any other language falls back to "ru". */
  function TextsFor(language: string): (t: PagerTexts)
    ensures language == "uz" ==> t == UzTexts
    ensures language != "uz" ==> t == RuTexts
  {
    if language == "uz" then UzTexts else RuTexts
  }

  /** What the control renders: nothing, or the two buttons around a page label. */
  datatype PagerView =
    | Hidden
    | Shown(previousText: string, previousDisabled: bool, pageLabel: string, nextText: string, nextDisabled: bool)

  /** The label "<page word> <currentPage + 1> / <totalPages>": the page number is shown one-based. */
  function PageLabel(texts: PagerTexts, currentPage: nat, totalPages: nat): string
  {
    texts.page + " " + Text.NatToDecimal(currentPage + 1) + " / " + Text.NatToDecimal(totalPages)
  }

  /** Renders the control for a zero-based `currentPage` out of `totalPages`. */
  function Render(currentPage: nat, totalPages: nat, language: Option<string>): (v: PagerView)
    ensures v.Hidden? <==> totalPages <= 1
    ensures v.Shown? ==> (v.previousDisabled <==> currentPage == 0)
    ensures v.Shown? ==> (v.nextDisabled <==> currentPage == totalPages - 1)
    ensures v.Shown? ==> v.previousText == TextsFor(Props.LanguageProp(language)).previous
    ensures v.Shown? ==> v.nextText == TextsFor(Props.LanguageProp(language)).next
    ensures v.Shown? ==> v.pageLabel == PageLabel(TextsFor(Props.LanguageProp(language)), currentPage, totalPages)
  {
    var t := TextsFor(Props.LanguageProp(language));
    if totalPages <= 1 then Hidden
    else Shown(t.previous, currentPage == 0, PageLabel(t, currentPage, totalPages), t.next, currentPage == totalPages - 1)
  }

  /**
   * On a valid zero-based index the control and the page's handlers agree: a
   * button is disabled exactly when its handler would leave the index where it is.
   */
  lemma ControlAgreesWithSteps(currentPage: nat, len: nat, language: Option<string>)
    requires currentPage < len
    ensures var v := Render(currentPage, len, language);
      v.Shown? ==>
        && (v.previousDisabled <==> Paging.PrevIndex(currentPage) == currentPage)
        && (v.nextDisabled <==> Paging.NextIndex(currentPage, len) == currentPage)
  {
    Paging.IndexStepsStayInRange(currentPage, len);
  }
}
