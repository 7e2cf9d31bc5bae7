/**
 * The product listing (`prods/getproductlist.go`): one page of five products from
 * the catalogue sorted by description, each object `_source` numbered with its
 * running position, starting after the page's offset.
 */
module ProductList {
  import opened Wrappers
  import opened Records
  import opened Http
  import opened Paging
  import opened Products

  /** The hits whose `_source` is an object, in hit order. */
  function Present(hits: seq<Option<Source>>): (sources: seq<Source>)
    ensures |sources| <= |hits|
    ensures (forall k | 0 <= k < |hits| :: hits[k].Some?) ==>
      |sources| == |hits| && forall k | 0 <= k < |hits| :: sources[k] == hits[k].value
  {
    if hits == [] then []
    else
      var init := Present(hits[..|hits| - 1]);
      match hits[|hits| - 1]
      case Some(s) => init + [s]
      case None => init
  }

  /** Stepping Go's `counter++` once wraps the same way as adding one to the unwrapped value. */
  lemma WrapStep(x: int)
    ensures Wrap64(Wrap64(x) + 1) == Wrap64(x + 1)
  {
    var m := 0x1_0000_0000_0000_0000;
    var y := x - MinInt64;
    var q, r := y / m, y % m;
    assert y == q * m + r;
    assert (r + 1) % m == (y + 1) % m by {
      assert y + 1 == q * m + (r + 1);
      if r + 1 == m {
        assert y + 1 == (q + 1) * m;
      }
    }
  }

  /**
   * The numbering loop: every object `_source` gets `id` set to the running counter,
   * which starts at `offset + 1` and advances only when a product is taken.
   */
  method NumberProducts(hits: seq<Option<Source>>, offset: int) returns (products: seq<Source>)
    ensures |products| == |Present(hits)|
    ensures forall k | 0 <= k < |products| ::
      products[k] == Present(hits)[k]["id" := Num(Wrap64(offset + 1 + k))]
  {
    var counter := Wrap64(offset + 1);
    ghost var next := offset + 1;
    products := [];
    var i := 0;
    while i < |hits|
      invariant 0 <= i <= |hits|
      invariant counter == Wrap64(next) && next == offset + 1 + |products|
      invariant |products| == |Present(hits[..i])|
      invariant forall k | 0 <= k < |products| ::
        products[k] == Present(hits[..i])[k]["id" := Num(Wrap64(offset + 1 + k))]
    {
      assert hits[..i + 1][..i] == hits[..i];
      if hits[i].Some? {
        var source := hits[i].value;
        source := source["id" := Num(counter)];
        products := products + [source];
        WrapStep(next);
        counter := Wrap64(counter + 1);
        next := next + 1;
      }
      i := i + 1;
    }
    assert hits[..i] == hits;
  }

  method GetProductList(pageParam: string, search: (int, int) -> EsAnswer) returns (r: PageReply<Source>)
    ensures var pg := PageNumber(pageParam);
      match search(Offset(pg), PerPage)
      case TransportFailed(_) => r == Refused(Error(500, "ES Search failed"))
      case Unparsable => r == Refused(Error(500, "Decode failed"))
      case NoHitsObject => r == Refused(Error(500, "Invalid ES response structure"))
      case NoHitsList => r == Refused(Error(500, "No hits found"))
      case Answer(hits, total) =>
        && r.Listed? && r.listing.page == pg
        && r.listing.totpage == TotalPages(total) && r.listing.totalrecords == total
        && |r.listing.products| == |Present(hits)|
        && forall k | 0 <= k < |r.listing.products| ::
             r.listing.products[k] == Present(hits)[k]["id" := Num(Wrap64(Offset(pg) + 1 + k))]
  {
    var pg := Atoi(pageParam);
    if pg < 1 {
      pg := 1;
    }
    var offset := Wrap64((pg - 1) * PerPage);
    var answer := search(offset, PerPage);
    match answer
    case TransportFailed(_) =>
      return Refused(Error(500, "ES Search failed"));
    case Unparsable =>
      return Refused(Error(500, "Decode failed"));
    case NoHitsObject =>
      return Refused(Error(500, "Invalid ES response structure"));
    case NoHitsList =>
      return Refused(Error(500, "No hits found"));
    case Answer(hits, total) =>
      var products := NumberProducts(hits, offset);
      return Listed(Listing(pg, TotalPages(total), total, products));
  }

  /** A search over a catalogue already sorted by description: the `size` entries from `from`. */
  function Window(catalogue: seq<Source>, from: int, size: nat): (answer: EsAnswer)
    requires 0 <= from
    ensures answer.Answer? && answer.total == |catalogue|
    ensures |answer.hits| == if from >= |catalogue| then 0 else if from + size <= |catalogue| then size else |catalogue| - from
    ensures forall k | 0 <= k < |answer.hits| :: answer.hits[k] == Some(catalogue[from + k])
  {
    var end := if from >= |catalogue| then from else if from + size <= |catalogue| then from + size else |catalogue|;
    Answer(seq(end - from, k requires 0 <= k < end - from => Some(catalogue[from + k])), |catalogue|)
  }

  /**
   * Served from a catalogue, the product at position k of page pg is catalogue entry
   * `(pg - 1) * 5 + k` with `id` set to its 1-based place in the whole catalogue, so
   * the ids run on from page to page.
   */
  lemma {:induction false} GlobalNumbering(catalogue: seq<Source>, pg: int, k: int)
    requires 1 <= pg <= MaxPage && |catalogue| <= MaxInt64
    requires 0 <= k < |Window(catalogue, Offset(pg), PerPage).hits|
    ensures var hits := Window(catalogue, Offset(pg), PerPage).hits;
      && |Present(hits)| == |hits| && k < PerPage
      && Present(hits)[k]["id" := Num(Wrap64(Offset(pg) + 1 + k))]
           == catalogue[(pg - 1) * PerPage + k]["id" := Num((pg - 1) * PerPage + k + 1)]
  {
    OffsetExact(pg);
    var hits := Window(catalogue, Offset(pg), PerPage).hits;
    assert forall j | 0 <= j < |hits| :: hits[j].Some?;
  }

  /** Every catalogue entry is listed on exactly the page its position falls in. */
  lemma EntryListedOnItsPage(catalogue: seq<Source>, i: int)
    requires 0 <= i < |catalogue| && |catalogue| <= MaxInt64
    ensures var pg := i / PerPage + 1;
      && 1 <= pg <= TotalPages(|catalogue|)
      && var hits := Window(catalogue, Offset(pg), PerPage).hits;
         0 <= i - Offset(pg) < |hits| && hits[i - Offset(pg)] == Some(catalogue[i])
  {
    RecordOnSomePage(|catalogue|, i);
    OffsetExact(i / PerPage + 1);
  }
}
