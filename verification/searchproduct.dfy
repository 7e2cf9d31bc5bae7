/**
 * The product search (`prods/searchproduct.go`): a match query on `descriptions`
 * with the key lower-cased and wrapped in '*', paged like the listing; every hit
 * is decoded into a `dto.Products`, and an empty page is a 404.
 */
module ProductSearch {
  import opened Wrappers
  import opened Records
  import opened Http
  import opened Text
  import opened Paging
  import opened Products

  /** The gin Recovery middleware's answer to a panicking handler: 500 with no body. */
  const Recovered: Reply := PlainText(500, "")

  function SearchKey(param: string): (key: string)
    ensures |key| == |param| + 2 && key[0] == '*' && key[|key| - 1] == '*'
    ensures key[1..|key| - 1] == Lower(param)
  {
    "*" + Lower(param) + "*"
  }

  /** The key does not depend on the letter case of the parameter. */
  lemma SearchKeyIgnoresCase(param: string)
    ensures SearchKey(Lower(param)) == SearchKey(param)
  {
    LowerIdempotent(param);
  }

  /** The decoding loop: one product per hit, in hit order, decode errors ignored. */
  method DecodeAll(hits: seq<Option<Source>>) returns (prods: seq<Product>)
    ensures |prods| == |hits|
    ensures forall k | 0 <= k < |hits| :: prods[k] == DecodeProduct(hits[k])
  {
    prods := [];
    for i := 0 to |hits|
      invariant |prods| == i
      invariant forall k | 0 <= k < i :: prods[k] == DecodeProduct(hits[k])
    {
      var prod := DecodeProduct(hits[i]);
      prods := prods + [prod];
    }
  }

  /**
   * The handler. `search` is the store, asked with the key, the offset and the page
   * size. The unchecked type assertions on `hits` panic when it is malformed.
   */
  method ProductSearch(pageParam: string, keyParam: string, search: (string, int, int) -> EsAnswer)
    returns (r: PageReply<Product>)
    ensures var pg := PageNumber(pageParam);
      match search(SearchKey(keyParam), Offset(pg), PerPage)
      case TransportFailed(e) => r == Refused(Message(500, e))
      case Unparsable => r == Refused(Message(500, "Error parsing response"))
      case NoHitsObject => r == Refused(Recovered)
      case NoHitsList => r == Refused(Recovered)
      case Answer(hits, total) =>
        if hits == [] then r == Refused(Message(404, "products not found."))
        else
          && r.Listed? && r.listing.page == pg
          && r.listing.totpage == TotalPages(total) && r.listing.totalrecords == total
          && |r.listing.products| == |hits|
          && forall k | 0 <= k < |hits| :: r.listing.products[k] == DecodeProduct(hits[k])
  {
    var key := "*" + Lower(keyParam) + "*";
    var page := Atoi(pageParam);
    if page < 1 {
      page := 1;
    }
    var from := Wrap64((page - 1) * PerPage);
    var answer := search(key, from, PerPage);
    match answer
    case TransportFailed(e) =>
      return Refused(Message(500, e));
    case Unparsable =>
      return Refused(Message(500, "Error parsing response"));
    case NoHitsObject =>
      return Refused(Recovered);
    case NoHitsList =>
      return Refused(Recovered);
    case Answer(hits, total) =>
      var prods := DecodeAll(hits);
      if |prods| == 0 {
        return Refused(Message(404, "products not found."));
      }
      return Listed(Listing(page, TotalPages(total), total, prods));
  }

  /** Stored products come back unchanged, one for one, in hit order. */
  lemma StoredProductsComeBack(stored: seq<Product>, hits: seq<Option<Source>>)
    requires |hits| == |stored| && forall k | 0 <= k < |hits| :: hits[k] == Some(EncodeProduct(stored[k]))
    ensures forall k | 0 <= k < |hits| :: DecodeProduct(hits[k]) == stored[k]
  {
    forall k | 0 <= k < |hits| ensures DecodeProduct(hits[k]) == stored[k] {
      DecodeEncodeProduct(stored[k]);
    }
  }
}
