/**
 * The sales pie chart (`prods/linechart.go`): the same monthly totals as the bar
 * chart, but only the months with a positive total get a slice, labelled with the
 * month's name, ": ", and the total as `humanize.Commaf` formats it.
 */
module LineChart {
  import opened Wrappers
  import opened Http
  import opened SalesData

  /** The months from 1 to n with a positive total, in calendar order. */
  function PieMonths(hits: seq<Option<Sale>>, n: nat): (ms: seq<int>)
    requires n <= 12
    ensures |ms| <= n
    ensures forall k | 0 <= k < |ms| :: 1 <= ms[k] <= n
  {
    if n == 0 then []
    else PieMonths(hits, n - 1) + (if MonthTotal(hits, n) > 0 then [n] else [])
  }

  /** Every pie month has a positive total, and the pie months are in increasing order. */
  lemma {:induction false} PieMonthsSorted(hits: seq<Option<Sale>>, n: nat)
    requires n <= 12
    ensures forall k | 0 <= k < |PieMonths(hits, n)| :: MonthTotal(hits, PieMonths(hits, n)[k]) > 0
    ensures forall k, l | 0 <= k < l < |PieMonths(hits, n)| :: PieMonths(hits, n)[k] < PieMonths(hits, n)[l]
  {
    if n > 0 {
      PieMonthsSorted(hits, n - 1);
      var months := PieMonths(hits, n - 1);
      assert forall k | 0 <= k < |months| :: PieMonths(hits, n)[k] == months[k];
    }
  }

  /** Every month up to n with a positive total is a pie month. */
  lemma {:induction false} PieMonthsComplete(hits: seq<Option<Sale>>, n: nat)
    requires n <= 12
    ensures forall m | 1 <= m <= n && MonthTotal(hits, m) > 0 :: m in PieMonths(hits, n)
  {
    if n > 0 {
      PieMonthsComplete(hits, n - 1);
      var months := PieMonths(hits, n - 1);
      assert forall m | m in months :: m in PieMonths(hits, n);
    }
  }

  /** The slice for month `m`; `commaf` stands for `humanize.Commaf`. */
  function PieEntry(hits: seq<Option<Sale>>, m: int, commaf: int -> string): (v: ChartValue)
    requires 1 <= m <= 12
    ensures v.value == MonthTotal(hits, m)
    ensures |v.caption| >= |MonthKeys[m - 1]| + 2 && v.caption[..|MonthKeys[m - 1]| + 2] == MonthKeys[m - 1] + ": "
  {
    var caption := MonthKeys[m - 1] + ": " + commaf(MonthTotal(hits, m));
    assert caption[..|MonthKeys[m - 1]| + 2] == MonthKeys[m - 1] + ": ";
    ChartValue(caption, MonthTotal(hits, m))
  }

  /** The slices for months 1 to n, one per month with a positive total. */
  function Pie(hits: seq<Option<Sale>>, n: nat, commaf: int -> string): seq<ChartValue>
    requires n <= 12
  {
    if n == 0 then []
    else Pie(hits, n - 1, commaf) + (if MonthTotal(hits, n) > 0 then [PieEntry(hits, n, commaf)] else [])
  }

  /** The slices are the entries of the months with a positive total, in calendar order. */
  lemma {:induction false} PieIsEntries(hits: seq<Option<Sale>>, n: nat, commaf: int -> string)
    requires n <= 12
    ensures |Pie(hits, n, commaf)| == |PieMonths(hits, n)|
    ensures forall k | 0 <= k < |PieMonths(hits, n)| :: Pie(hits, n, commaf)[k] == PieEntry(hits, PieMonths(hits, n)[k], commaf)
  {
    if n > 0 {
      PieIsEntries(hits, n - 1, commaf);
      var slices, months := Pie(hits, n - 1, commaf), PieMonths(hits, n - 1);
      var tail := if MonthTotal(hits, n) > 0 then [n] else [];
      assert PieMonths(hits, n) == months + tail;
      forall k | 0 <= k < |PieMonths(hits, n)|
        ensures Pie(hits, n, commaf)[k] == PieEntry(hits, PieMonths(hits, n)[k], commaf)
      {
        if k < |months| {
          assert PieMonths(hits, n)[k] == months[k];
        }
      }
    }
  }

  method GetLineChart(answer: SalesAnswer, commaf: int -> string) returns (r: ChartReply)
    ensures answer.SearchFailed? ==> r == Failed(Error(500, "ES search failed"))
    ensures answer.Undecodable? ==> r == Failed(PlainText(500, ""))
    ensures answer.Hits? ==>
      var months := PieMonths(answer.sources, 12);
      && r.Chart? && r.values == Pie(answer.sources, 12, commaf) && |r.values| == |months|
      && forall k | 0 <= k < |months| :: r.values[k] == PieEntry(answer.sources, months[k], commaf)
  {
    if answer.SearchFailed? {
      return Failed(Error(500, "ES search failed"));
    }
    if answer.Undecodable? {
      return Failed(PlainText(500, ""));
    }
    var hits := answer.sources;
    var salesMap := Accumulate(hits);
    var chartValues: seq<ChartValue> := [];
    for i := 0 to 12
      invariant chartValues == Pie(hits, i, commaf)
    {
      var m := MonthKeys[i];
      if m !in salesMap {
        NoSaleNoTotal(hits, i + 1);
      }
      if m in salesMap && salesMap[m] > 0 {
        var val := salesMap[m];
        chartValues := chartValues + [ChartValue(m + ": " + commaf(val), val)];
      }
    }
    PieIsEntries(hits, 12, commaf);
    return Chart(chartValues);
  }

  /** The sum of the values of the slices. */
  function SliceSum(values: seq<ChartValue>): int {
    if values == [] then 0 else SliceSum(values[..|values| - 1]) + values[|values| - 1].value
  }

  lemma {:induction false} TotalNonNegative(hits: seq<Option<Sale>>, m: int)
    requires forall k | 0 <= k < |hits| && hits[k].Some? :: hits[k].value.amount >= 0
    ensures MonthTotal(hits, m) >= 0
  {
    if hits != [] {
      var init := hits[..|hits| - 1];
      assert forall k | 0 <= k < |init| :: init[k] == hits[k];
      TotalNonNegative(init, m);
    }
  }

  /** With no negative amounts, dropping the empty months loses nothing: the slices add up to the bars' totals. */
  lemma {:induction false} PieCoversAll(hits: seq<Option<Sale>>, n: nat, commaf: int -> string)
    requires n <= 12
    requires forall k | 0 <= k < |hits| && hits[k].Some? :: hits[k].value.amount >= 0
    ensures SliceSum(Pie(hits, n, commaf)) == MonthsUpTo(hits, n)
  {
    if n > 0 {
      PieCoversAll(hits, n - 1, commaf);
      TotalNonNegative(hits, n);
      var before := Pie(hits, n - 1, commaf);
      if MonthTotal(hits, n) > 0 {
        assert (before + [PieEntry(hits, n, commaf)])[..|before|] == before;
      } else {
        assert before + [] == before;
      }
    }
  }

  /** With no negative amounts, the pie the handler draws adds up to all the decoded sales. */
  lemma ChartCoversAllSales(hits: seq<Option<Sale>>, commaf: int -> string)
    requires forall k | 0 <= k < |hits| && hits[k].Some? :: hits[k].value.amount >= 0
    ensures SliceSum(Pie(hits, 12, commaf)) == GrandTotal(hits)
  {
    PieCoversAll(hits, 12, commaf);
    Conservation(hits);
  }
}
