/**
 * The home page: headline counts, revenue and delivery time of the filtered
 * orders, the monthly order trend, the status distribution and the five
 * busiest customer cities and states.
 */
module HomePage {
  import opened Wrappers
  import opened Series
  import opened Ranking
  import opened Measures
  import opened Table

  /** The mean `delivery_time` of the filtered rows: NaN exactly when no row has one. */
  function AverageDeliveryTime(f: Filtered): (m: Option<real>)
    ensures m.None? <==> forall i :: 0 <= i < |f.cityState| ==> f.cityState[i].deliveryTime.None?
  {
    CountZero(Col(f.cityState, DeliveryTime));
    Mean(Col(f.cityState, DeliveryTime))
  }

  /** When every delivery time lies in [lo, hi], so does their mean. */
  lemma AverageDeliveryTimeWithin(f: Filtered, lo: real, hi: real)
    requires forall i :: 0 <= i < |f.cityState| && f.cityState[i].deliveryTime.Some? ==> lo <= f.cityState[i].deliveryTime.value <= hi
    requires AverageDeliveryTime(f).Some?
    ensures lo <= AverageDeliveryTime(f).value <= hi
  {
    MeanBounds(Col(f.cityState, DeliveryTime), lo, hi);
  }

  /** Orders per month: each month of the filtered rows with the number of its rows. */
  function OrderTrend(f: Filtered): (e: seq<(int, nat)>)
    ensures KeysOf(e) == Keys(Col(f.cityState, YearMonthKey))
    ensures forall i :: 0 <= i < |e| ==> 0 < e[i].1 == |RowsWith(f.cityState, YearMonthKey, e[i].0)|
  {
    CountByKey(f.cityState, YearMonthKey)
  }

  /** The monthly counts add up to the number of filtered rows that have a month. */
  lemma OrderTrendTotal(f: Filtered)
    ensures TotalCount(OrderTrend(f)) == |Where(f.cityState, HasValue(YearMonthKey))|
  {
    CountByKeyTotal(f.cityState, YearMonthKey);
  }

  /** Orders per status; the order page draws the same counts. */
  function StatusCounts(f: Filtered): (e: seq<(string, nat)>)
    ensures KeysOf(e) == Keys(Col(f.cityState, StatusKey))
    ensures forall i :: 0 <= i < |e| ==> 0 < e[i].1 == |RowsWith(f.cityState, StatusKey, e[i].0)|
  {
    CountByKey(f.cityState, StatusKey)
  }

  /** The status counts add up to the number of filtered rows that have a status. */
  lemma StatusCountsTotal(f: Filtered)
    ensures TotalCount(StatusCounts(f)) == |Where(f.cityState, HasValue(StatusKey))|
  {
    CountByKeyTotal(f.cityState, StatusKey);
  }

  /**
   * The five customer cities with the most date-filtered rows (the city and
   * state choice is not applied): at most five, largest first, each with its
   * number of rows, and no city left out has more rows than one listed.
   */
  function TopCities(f: Filtered): (r: seq<(string, real)>)
    ensures Ranked(r, Keys(Col(f.date, CityKey)), 5, RowCount(f.date, CityKey))
  {
    TopCounts(f.date, CityKey, 5)
  }

  /** The five customer states with the most date-filtered rows, as for the cities. */
  function TopStates(f: Filtered): (r: seq<(string, real)>)
    ensures Ranked(r, Keys(Col(f.date, StateKey)), 5, RowCount(f.date, StateKey))
  {
    TopCounts(f.date, StateKey, 5)
  }

  /**
   * `order_id.nunique()`: the number of distinct order ids of the filtered
   * rows, at most the number of rows, and 0 only without rows.
   */
  function TotalOrders(f: Filtered): (n: nat)
    ensures n == |Keys(Col(f.cityState, OrderIdKey))|
    ensures n <= |f.cityState|
    ensures n == 0 <==> f.cityState == []
  {
    var n := DistinctCount(f.cityState, OrderIdKey);
    assert f.cityState != [] ==> OrderIdKey(f.cityState[0]).Some?;
    n
  }

  /**
   * `customer_unique_id.nunique()`: the number of distinct customers of the
   * filtered rows, at most the number of rows, and 0 only without rows.
   */
  function TotalCustomers(f: Filtered): (n: nat)
    ensures n == |Keys(Col(f.cityState, CustomerKey))|
    ensures n <= |f.cityState|
    ensures n == 0 <==> f.cityState == []
  {
    var n := DistinctCount(f.cityState, CustomerKey);
    assert f.cityState != [] ==> CustomerKey(f.cityState[0]).Some?;
    n
  }

  /**
   * `seller_id.nunique()`: the number of distinct sellers of the filtered
   * rows, at most the number of rows, and 0 exactly when no row has a seller.
   */
  function TotalSellers(f: Filtered): (n: nat)
    ensures n == |Keys(Col(f.cityState, SellerKey))|
    ensures n <= |f.cityState|
    ensures n == 0 <==> forall i :: 0 <= i < |f.cityState| ==> f.cityState[i].sellerId.None?
  {
    DistinctCount(f.cityState, SellerKey)
  }

  /**
   * Total revenue: the sum of `payment_value` over the filtered rows, missing
   * values skipped; it is also the total of the revenue of each customer state.
   */
  function TotalRevenue(f: Filtered): (r: real)
    ensures r == TotalSum(SumByKey(f.cityState, StateKey, PaymentValue))
  {
    SumByKeyTotal(f.cityState, StateKey, PaymentValue);
    Sum(Col(f.cityState, PaymentValue))
  }
}
