/**
 * The advertisement record every page lists, and facts about collections of
 * advertisements that the pages share.
 */
module Ads {
  import opened Wrappers
  import Seqs

  /** The four workflow states of a listing. */
  datatype Status = Pending | Approved | Rejected | Sold

  /** One listing as the catalogue service returns it; optional properties are Options. */
  datatype Advertisement = Advertisement(
    id: int,
    model: string,
    price: int,
    description: string,
    phone: string,
    city: string,
    contactPhone: string,
    photoPath: Option<string>,
    status: Status,
    createdAt: string,
    categoryName: string,
    brandName: string,
    username: Option<string>)

  /** The wire name of a status, the string the status selectors compare against. */
  function StatusName(s: Status): string
  {
    match s
    case Pending => "pending"
    case Approved => "approved"
    case Rejected => "rejected"
    case Sold => "sold"
  }

  /** Distinct statuses have distinct wire names, none of which is the selector value "all". */
  lemma StatusNameInjective(s: Status, t: Status)
    ensures StatusName(s) == StatusName(t) <==> s == t
    ensures StatusName(s) != "all"
  {
  }

  /**
   * The listing workflow: pending becomes approved or rejected, approved
   * becomes sold; sold and rejected are terminal.
   */
  predicate CanTransition(from: Status, to: Status)
  {
    (from == Pending && (to == Approved || to == Rejected)) || (from == Approved && to == Sold)
  }

  /** No two listings of a working set share an id. */
  ghost predicate UniqueIds(ads: seq<Advertisement>)
  {
    forall i, j :: 0 <= i < j < |ads| ==> ads[i].id != ads[j].id
  }

  /** Dropping listings from a working set keeps its ids unique. */
  lemma SubsequenceKeepsUniqueIds(r: seq<Advertisement>, s: seq<Advertisement>)
    requires UniqueIds(s) && Seqs.IsSubsequence(r, s)
    ensures UniqueIds(r)
  {
    var idx :| Seqs.IsEmbedding(idx, r, s);
    forall i, j | 0 <= i < j < |r| ensures r[i].id != r[j].id {
      assert idx[i] < idx[j];
    }
  }
}
