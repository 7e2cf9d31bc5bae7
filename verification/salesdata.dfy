/**
 * Monthly sales bucketing behind the bar chart (`prods/salesdata.go`): the sales
 * that decode are summed per calendar month, keyed by the month's three-letter
 * name, and the chart has one bar per month from January to December.
 * Amounts are whole numbers here; the chart image itself is not modelled.
 */
module SalesData {
  import opened Wrappers
  import opened Records
  import opened Http

  type Month = m: int | 1 <= m <= 12 witness 1

  /** A decoded `models.Sale`: its amount and the calendar month of its date. */
  datatype Sale = Sale(amount: int, month: Month)

  /** The search over the `sales` index: failed, an undecodable body, or the hits (`None` when `_source` does not decode). */
  datatype SalesAnswer = SearchFailed | Undecodable | Hits(sources: seq<Option<Sale>>)

  datatype ChartValue = ChartValue(caption: string, value: int)

  datatype ChartReply = Chart(values: seq<ChartValue>) | Failed(reply: Reply)

  /** What `Format("Jan")` gives for each month, in calendar order. */
  const MonthKeys: seq<string> := ["Jan", "Feb", "Mar", "Apr", "May", "Jun", "Jul", "Aug", "Sep", "Oct", "Nov", "Dec"]

  lemma MonthKeysDistinct()
    ensures |MonthKeys| == 12
    ensures forall i, j | 0 <= i < j < 12 :: MonthKeys[i] != MonthKeys[j]
  {
  }

  /** The sum of the amounts of the decoded sales dated in month `m`. */
  function MonthTotal(hits: seq<Option<Sale>>, m: int): int {
    if hits == [] then 0
    else
      var last := hits[|hits| - 1];
      MonthTotal(hits[..|hits| - 1], m) + (if last.Some? && last.value.month == m then last.value.amount else 0)
  }

  /** Some decoded sale is dated in month `m`. */
  predicate HasSale(hits: seq<Option<Sale>>, m: int) {
    exists k | 0 <= k < |hits| :: hits[k].Some? && hits[k].value.month == m
  }

  /** A month with no sale totals 0. */
  lemma {:induction false} NoSaleNoTotal(hits: seq<Option<Sale>>, m: int)
    requires !HasSale(hits, m)
    ensures MonthTotal(hits, m) == 0
  {
    if hits != [] {
      var init := hits[..|hits| - 1];
      assert !HasSale(init, m) by {
        forall k | 0 <= k < |init| ensures !(init[k].Some? && init[k].value.month == m) {
          assert init[k] == hits[k];
        }
      }
      NoSaleNoTotal(init, m);
    }
  }

  /** Extending a prefix of the hits by one hit adds that hit's sale, if it decodes, to its month. */
  lemma PrefixStep(hits: seq<Option<Sale>>, n: int)
    requires 0 <= n < |hits|
    ensures forall i :: HasSale(hits[..n + 1], i) <==> HasSale(hits[..n], i) || (hits[n].Some? && hits[n].value.month == i)
    ensures forall i :: MonthTotal(hits[..n + 1], i) == MonthTotal(hits[..n], i) +
                                                       (if hits[n].Some? && hits[n].value.month == i then hits[n].value.amount else 0)
  {
    var prefix := hits[..n + 1];
    assert prefix[..n] == hits[..n];
    forall i ensures HasSale(prefix, i) <==> HasSale(hits[..n], i) || (hits[n].Some? && hits[n].value.month == i) {
      if HasSale(prefix, i) {
        var k :| 0 <= k < |prefix| && prefix[k].Some? && prefix[k].value.month == i;
        if k < n {
          assert hits[..n][k] == prefix[k];
        }
      }
      if HasSale(hits[..n], i) {
        var k :| 0 <= k < n && hits[..n][k].Some? && hits[..n][k].value.month == i;
        assert prefix[k] == hits[..n][k];
      }
      if hits[n].Some? && hits[n].value.month == i {
        assert prefix[n] == hits[n];
      }
    }
  }

  /** The month key a decoded sale is summed under. */
  function KeyOf(sale: Sale): string {
    MonthKeys[sale.month - 1]
  }

  /** The month map the accumulation loop builds from the hits, one hit at a time. */
  function Buckets(hits: seq<Option<Sale>>): map<string, int> {
    if hits == [] then map[]
    else
      var m := Buckets(hits[..|hits| - 1]);
      var last := hits[|hits| - 1];
      if last.None? then m
      else m[KeyOf(last.value) := (if KeyOf(last.value) in m then m[KeyOf(last.value)] else 0) + last.value.amount]
  }

  /** Every key of the month map is a month name. */
  lemma {:induction false} BucketsKeys(hits: seq<Option<Sale>>)
    ensures forall key | key in Buckets(hits) :: key in MonthKeys
  {
    if hits != [] {
      BucketsKeys(hits[..|hits| - 1]);
    }
  }

  /** The month map has a key exactly for the months with a sale, and holds each such month's total. */
  lemma {:induction false} BucketsMeaning(hits: seq<Option<Sale>>)
    ensures forall i | 0 <= i < 12 :: (MonthKeys[i] in Buckets(hits) <==> HasSale(hits, i + 1))
    ensures forall i | 0 <= i < 12 && MonthKeys[i] in Buckets(hits) :: Buckets(hits)[MonthKeys[i]] == MonthTotal(hits, i + 1)
  {
    if hits != [] {
      var n := |hits| - 1;
      assert hits[..n + 1] == hits;
      var m := Buckets(hits[..n]);
      BucketsMeaning(hits[..n]);
      PrefixStep(hits, n);
      MonthKeysDistinct();
      forall i | 0 <= i < 12
        ensures MonthKeys[i] in Buckets(hits) <==> HasSale(hits, i + 1)
        ensures MonthKeys[i] in Buckets(hits) ==> Buckets(hits)[MonthKeys[i]] == MonthTotal(hits, i + 1)
      {
        if hits[n].Some? {
          var sale := hits[n].value;
          assert MonthKeys[i] == KeyOf(sale) <==> i + 1 == sale.month;
          if KeyOf(sale) !in m {
            NoSaleNoTotal(hits[..n], sale.month);
          }
        }
      }
    }
  }

  /**
   * The accumulation loop: `salesMap[month] += amount` for every sale that decodes,
   * so a month is a key exactly when some sale falls in it.
   */
  method Accumulate(hits: seq<Option<Sale>>) returns (salesMap: map<string, int>)
    ensures forall key | key in salesMap :: key in MonthKeys
    ensures forall i | 0 <= i < 12 :: (MonthKeys[i] in salesMap <==> HasSale(hits, i + 1))
    ensures forall i | 0 <= i < 12 && MonthKeys[i] in salesMap :: salesMap[MonthKeys[i]] == MonthTotal(hits, i + 1)
  {
    salesMap := map[];
    for n := 0 to |hits|
      invariant salesMap == Buckets(hits[..n])
    {
      assert hits[..n + 1][..n] == hits[..n];
      if hits[n].Some? {
        var sale := hits[n].value;
        var month := MonthKeys[sale.month - 1];
        var old_ := if month in salesMap then salesMap[month] else 0;
        salesMap := salesMap[month := old_ + sale.amount];
      }
    }
    assert hits[..|hits|] == hits;
    BucketsKeys(hits);
    BucketsMeaning(hits);
  }

  /** `GetSalesChart`: twelve bars in calendar order, each its month's total. */
  method GetSalesChart(answer: SalesAnswer) returns (r: ChartReply)
    ensures answer.SearchFailed? ==> r == Failed(Error(500, "ES search failed"))
    ensures answer.Undecodable? ==> r == Failed(PlainText(500, ""))
    ensures answer.Hits? ==>
      && r.Chart? && |r.values| == 12
      && forall i | 0 <= i < 12 :: r.values[i] == ChartValue(MonthKeys[i], MonthTotal(answer.sources, i + 1))
  {
    if answer.SearchFailed? {
      return Failed(Error(500, "ES search failed"));
    }
    if answer.Undecodable? {
      return Failed(PlainText(500, ""));
    }
    var salesMap := Accumulate(answer.sources);
    var chartValues: seq<ChartValue> := [];
    for i := 0 to 12
      invariant |chartValues| == i
      invariant forall j | 0 <= j < i :: chartValues[j] == ChartValue(MonthKeys[j], MonthTotal(answer.sources, j + 1))
    {
      var m := MonthKeys[i];
      if m !in salesMap {
        NoSaleNoTotal(answer.sources, i + 1);
      }
      var value := if m in salesMap then salesMap[m] else 0;
      chartValues := chartValues + [ChartValue(m, value)];
    }
    return Chart(chartValues);
  }

  lemma {:induction false} MonthTotalAppend(a: seq<Option<Sale>>, b: seq<Option<Sale>>, m: int)
    ensures MonthTotal(a + b, m) == MonthTotal(a, m) + MonthTotal(b, m)
    decreases |b|
  {
    if b != [] {
      assert (a + b)[..|a + b| - 1] == a + b[..|b| - 1];
      MonthTotalAppend(a, b[..|b| - 1], m);
    } else {
      assert a + b == a;
    }
  }

  /** Taking one hit out of the sequence takes its sale out of its month's total. */
  lemma MonthTotalRemove(b: seq<Option<Sale>>, j: int, m: int)
    requires 0 <= j < |b|
    ensures MonthTotal(b, m) == MonthTotal(b[..j] + b[j + 1..], m) + MonthTotal([b[j]], m)
  {
    assert b == b[..j] + [b[j]] + b[j + 1..];
    MonthTotalAppend(b[..j] + [b[j]], b[j + 1..], m);
    MonthTotalAppend(b[..j], [b[j]], m);
    MonthTotalAppend(b[..j], b[j + 1..], m);
  }

  /** Taking one hit out of the sequence takes one copy of it out of the multiset. */
  lemma MultisetRemove(b: seq<Option<Sale>>, j: int)
    requires 0 <= j < |b|
    ensures multiset(b[..j] + b[j + 1..]) == multiset(b) - multiset{b[j]}
  {
    assert b == b[..j] + [b[j]] + b[j + 1..];
  }

  /** The totals do not depend on the order of the hits. */
  lemma {:induction false} OrderIndependent(a: seq<Option<Sale>>, b: seq<Option<Sale>>, m: int)
    requires multiset(a) == multiset(b)
    ensures MonthTotal(a, m) == MonthTotal(b, m)
    decreases |a|
  {
    if a == [] {
      assert |b| == |multiset(b)| == 0;
    } else {
      var x := a[|a| - 1];
      var a' := a[..|a| - 1];
      assert a == a' + [x];
      assert multiset(a') == multiset(a) - multiset{x};
      assert x in multiset(b);
      var j :| 0 <= j < |b| && b[j] == x;
      MultisetRemove(b, j);
      OrderIndependent(a', b[..j] + b[j + 1..], m);
      MonthTotalRemove(b, j, m);
      MonthTotalAppend(a', [x], m);
    }
  }

  /** The sum of the decoded amounts. */
  function GrandTotal(hits: seq<Option<Sale>>): int {
    if hits == [] then 0
    else
      var last := hits[|hits| - 1];
      GrandTotal(hits[..|hits| - 1]) + (if last.Some? then last.value.amount else 0)
  }

  /** The totals of months 1 to n. */
  function MonthsUpTo(hits: seq<Option<Sale>>, n: nat): int {
    if n == 0 then 0 else MonthsUpTo(hits, n - 1) + MonthTotal(hits, n)
  }

  lemma {:induction false} MonthsUpToStep(hits: seq<Option<Sale>>, n: nat)
    requires hits != []
    ensures var last := hits[|hits| - 1];
      MonthsUpTo(hits, n) == MonthsUpTo(hits[..|hits| - 1], n)
        + (if last.Some? && last.value.month <= n then last.value.amount else 0)
  {
    if n > 0 {
      MonthsUpToStep(hits, n - 1);
    }
  }

  lemma {:induction false} MonthsUpToNone(hits: seq<Option<Sale>>, n: nat)
    requires hits == []
    ensures MonthsUpTo(hits, n) == 0
  {
    if n > 0 {
      MonthsUpToNone(hits, n - 1);
    }
  }

  /** Every decoded sale lands in exactly one month: the twelve totals add up to all the sales. */
  lemma {:induction false} Conservation(hits: seq<Option<Sale>>)
    ensures MonthsUpTo(hits, 12) == GrandTotal(hits)
  {
    if hits != [] {
      var init, last := hits[..|hits| - 1], hits[|hits| - 1];
      MonthsUpToStep(hits, 12);
      Conservation(init);
      assert GrandTotal(hits) == GrandTotal(init) + (if last.Some? then last.value.amount else 0);
      assert last.Some? ==> last.value.month <= 12;
    } else {
      MonthsUpToNone(hits, 12);
    }
  }
}
