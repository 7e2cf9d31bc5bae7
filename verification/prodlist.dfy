/**
 * The product-list page of the web client (`vite-react/src/components/Prodlist.tsx`):
 * its page state and the first / previous / next / last buttons. Every change of
 * `page` fetches that page, and a successful answer overwrites the state.
 */
module Prodlist {
  import opened Wrappers
  import opened Paging
  import opened Products

  datatype Button = First | Prev | Next | Last

  /** The page after one press of a navigation button. */
  function Press(page: int, totpage: int, b: Button): (p: int)
    ensures 1 <= page <= totpage ==> 1 <= p <= totpage
  {
    match b
    case First => 1
    case Prev => if page > 1 then page - 1 else page
    case Next => if page < totpage then page + 1 else page
    case Last => totpage
  }

  /** "Next" then "previous" comes back, except from the last page; and the other way round except from page 1. */
  lemma NextPrevInverse(page: int, totpage: int)
    ensures 1 <= page < totpage ==> Press(Press(page, totpage, Next), totpage, Prev) == page
    ensures 1 < page <= totpage ==> Press(Press(page, totpage, Prev), totpage, Next) == page
    ensures page == totpage ==> Press(page, totpage, Next) == page
    ensures page <= 1 ==> Press(page, totpage, Prev) == page
  {
  }

  /** The page after a sequence of presses, with no fetch in between. */
  function After(page: int, totpage: int, presses: seq<Button>): int
    decreases |presses|
  {
    if presses == [] then page else After(Press(page, totpage, presses[0]), totpage, presses[1..])
  }

  class ProductTable {
    var page: int
    var totpage: int
    var totalrecs: int
    var products: seq<Source>

    /** The page shown is one the server reported. */
    ghost predicate InRange()
      reads this
    {
      1 <= page <= totpage
    }

    constructor ()
      ensures page == 1 && totpage == 0 && totalrecs == 0 && products == []
    {
      page, totpage, totalrecs, products := 1, 0, 0, [];
    }

    method FirstPage()
      modifies this
      ensures page == Press(old(page), totpage, First) == 1
      ensures totpage == old(totpage) && totalrecs == old(totalrecs) && products == old(products)
      ensures old(InRange()) ==> InRange()
    {
      page := 1;
    }

    method NextPage()
      modifies this
      ensures page == Press(old(page), totpage, Next)
      ensures totpage == old(totpage) && totalrecs == old(totalrecs) && products == old(products)
      ensures old(InRange()) ==> InRange()
      ensures page <= old(page) + 1 && (old(page) < totpage ==> page <= totpage)
    {
      if page < totpage {
        page := page + 1;
      }
    }

    method PrevPage()
      modifies this
      ensures page == Press(old(page), totpage, Prev)
      ensures totpage == old(totpage) && totalrecs == old(totalrecs) && products == old(products)
      ensures old(InRange()) ==> InRange()
      ensures page >= old(page) - 1 && (old(page) > 1 ==> page >= 1)
    {
      if page > 1 {
        page := page - 1;
      }
    }

    /** Goes to the reported last page, which is page 0 while nothing has been counted. */
    method LastPage()
      modifies this
      ensures page == Press(old(page), totpage, Last) == totpage
      ensures totpage == old(totpage) && totalrecs == old(totalrecs) && products == old(products)
      ensures totpage >= 1 ==> InRange()
    {
      page := totpage;
    }

    /** The answer to a fetch: a listing overwrites the state, a failure only logs. */
    method Fetched(reply: PageReply<Source>)
      modifies this
      ensures reply.Listed? ==>
        && page == reply.listing.page && totpage == reply.listing.totpage
        && totalrecs == reply.listing.totalrecords && products == reply.listing.products
      ensures reply.Refused? ==>
        page == old(page) && totpage == old(totpage) && totalrecs == old(totalrecs) && products == old(products)
    {
      if reply.Listed? {
        products := reply.listing.products;
        totpage := reply.listing.totpage;
        totalrecs := reply.listing.totalrecords;
        page := reply.listing.page;
      }
    }
  }

  /**
   * Clicking "last" before any product was counted asks the server for page 0; the
   * server serves page 1 and reports it, so the client moves on to page 1.
   */
  lemma LastOnEmptyListRecovers(page: int)
    ensures Press(page, 0, Last) == 0
    ensures PageNumber(DecimalString(Press(page, 0, Last))) == 1
  {
    PageZeroServedAsOne();
  }

  /** Within range, a sequence of button presses never leaves the range. */
  lemma {:induction false} ButtonsKeepRange(page: int, totpage: int, presses: seq<Button>)
    requires 1 <= page <= totpage
    decreases |presses|
    ensures 1 <= After(page, totpage, presses) <= totpage
  {
    if presses != [] {
      ButtonsKeepRange(Press(page, totpage, presses[0]), totpage, presses[1..]);
    }
  }

}
