/**
 * What the product handlers get from the `products` index and what they answer.
 * A hit's `_source` is a JSON object (`Some`) or anything else (`None`); numbers
 * that are float64 in the source are whole numbers here.
 */
module Products {
  import opened Wrappers
  import opened Records
  import opened Http

  type Source = map<string, Value>

  /** The outcome of one search request, as far as the handlers look into it. */
  datatype EsAnswer =
    | TransportFailed(message: string)   // the client call returned an error
    | Unparsable                         // the body is not JSON
    | NoHitsObject                       // `hits` is not an object
    | NoHitsList                         // `hits.hits` is not an array
    | Answer(hits: seq<Option<Source>>, total: nat)

  /** The body of a successful page: `page`, `totpage`, `totalrecords`, `products`. */
  datatype Listing<P> = Listing(page: int, totpage: int, totalrecords: int, products: seq<P>)

  datatype PageReply<P> = Listed(listing: Listing<P>) | Refused(reply: Reply)

  /** `dto.Products`. */
  datatype Product = Product(
    id: string, category: string, descriptions: string, qty: int, unit: string,
    costprice: int, sellprice: int, saleprice: int, productpicture: Option<string>,
    alertstocks: int, criticalstocks: int)

  function TextOf(src: Source, key: string): string {
    if key in src && src[key].Str? then src[key].s else ""
  }

  function NumberOf(src: Source, key: string): int {
    if key in src && src[key].Num? then src[key].n else 0
  }

  function RefOf(src: Source, key: string): Option<string> {
    if key in src && src[key].Str? then Some(src[key].s) else None
  }

  /**
   * `json.Unmarshal` of a `_source` into `dto.Products`, its error ignored: a field
   * of the wrong JSON type is skipped and keeps its zero value, and a source that
   * is not an object gives the zero product.
   */
  function DecodeProduct(src: Option<Source>): (p: Product)
    ensures src.None? ==> p == Product("", "", "", 0, "", 0, 0, 0, None, 0, 0)
  {
    match src
    case None => Product("", "", "", 0, "", 0, 0, 0, None, 0, 0)
    case Some(s) =>
      Product(TextOf(s, "id"), TextOf(s, "category"), TextOf(s, "descriptions"), NumberOf(s, "qty"),
              TextOf(s, "unit"), NumberOf(s, "costprice"), NumberOf(s, "sellprice"), NumberOf(s, "saleprice"),
              RefOf(s, "productpicture"), NumberOf(s, "alertstocks"), NumberOf(s, "criticalstocks"))
  }

  /** The `_source` a `dto.Products` is stored as. */
  function EncodeProduct(p: Product): Source {
    map["id" := Str(p.id), "category" := Str(p.category), "descriptions" := Str(p.descriptions),
        "qty" := Num(p.qty), "unit" := Str(p.unit), "costprice" := Num(p.costprice),
        "sellprice" := Num(p.sellprice), "saleprice" := Num(p.saleprice),
        "productpicture" := (if p.productpicture.Some? then Str(p.productpicture.value) else Null),
        "alertstocks" := Num(p.alertstocks), "criticalstocks" := Num(p.criticalstocks)]
  }

  /** A stored product decodes back to itself. */
  lemma DecodeEncodeProduct(p: Product)
    ensures DecodeProduct(Some(EncodeProduct(p))) == p
  {
  }
}
