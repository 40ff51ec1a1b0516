/**
 * The sellers page: distinct sellers, the mean seller shipping time in days,
 * the seller retention rate between the latest month and the months before
 * it, the five sellers with the most orders and with the most distinct
 * products, and distinct sellers per seller state.
 */
module SellerPage {
  import opened Wrappers
  import opened Series
  import opened Ranking
  import opened Measures
  import opened Table
  import opened Durations

  /**
   * `seller_delivery_time`: days from approval to hand-over to the carrier
   * (seconds over 86400), NaN when either timestamp is NaT.
   */
  function ShippingDays(r: Row): (d: Option<real>)
    ensures d.Some? <==> r.approvedAt.Some? && r.deliveredCarrierDate.Some?
    ensures d.Some? ==> d.value * 86400.0 == (r.deliveredCarrierDate.value - r.approvedAt.value) as real
  {
    if r.approvedAt.Some? && r.deliveredCarrierDate.Some? then
      Some((r.deliveredCarrierDate.value - r.approvedAt.value) as real / 86400.0)
    else None
  }

  /** The mean shipping time of each seller, NaN for a seller without one. */
  function ShippingBySeller(f: Filtered): (e: seq<(string, Option<real>)>)
    ensures KeysOf(e) == Keys(Col(f.cityState, SellerKey))
    ensures forall i :: 0 <= i < |e| ==> e[i].1 == Mean(Col(RowsWith(f.cityState, SellerKey, e[i].0), ShippingDays))
  {
    MeanByKey(f.cityState, SellerKey, ShippingDays)
  }

  /**
   * The mean of the per-seller means, each seller weighing the same; NaN
   * exactly when no filtered row has both a seller and a shipping time.
   */
  function MeanShippingDays(f: Filtered): (m: Option<real>)
    ensures m.None? <==> forall i :: 0 <= i < |f.cityState| ==> f.cityState[i].sellerId.None? || ShippingDays(f.cityState[i]).None?
  {
    MeanOfMeansNone(f.cityState, SellerKey, ShippingDays);
    Mean(Values(ShippingBySeller(f)))
  }

  /** The mean of the per-seller means lies between the fastest and the slowest shipment. */
  lemma MeanShippingWithin(f: Filtered, lo: real, hi: real)
    requires forall i :: 0 <= i < |f.cityState| && ShippingDays(f.cityState[i]).Some? ==> lo <= ShippingDays(f.cityState[i]).value <= hi
    requires MeanShippingDays(f).Some?
    ensures lo <= MeanShippingDays(f).value <= hi
  {
    MeanOfMeansBounds(f.cityState, SellerKey, ShippingDays, lo, hi);
  }

  /**
   * The average seller delivery read-out: "N/A" exactly when there is no mean;
   * hours in 0..23 and minutes in 0..59; for a non-negative mean the days are
   * its whole part and the parts fall short of it by less than a minute.
   */
  function AverageSellerDelivery(f: Filtered): (d: Duration)
    ensures d.NotAvailable? <==> MeanShippingDays(f).None?
    ensures d.Dhm? ==> 0 <= d.hours <= 23 && 0 <= d.minutes <= 59
    ensures d.Dhm? && MeanShippingDays(f).value >= 0.0 ==> d.days == MeanShippingDays(f).value.Floor
    ensures d.Dhm? && MeanShippingDays(f).value >= 0.0 ==>
              var total := d.days as real + d.hours as real / 24.0 + d.minutes as real / 1440.0;
              total <= MeanShippingDays(f).value < total + 1.0 / 1440.0
  {
    FormatDays(MeanShippingDays(f))
  }

  /** `year_month.max()`: NaN (`None`) when no row has a month. */
  function LatestMonth(rows: seq<Row>): (m: Option<int>)
    ensures m.None? <==> forall i :: 0 <= i < |rows| ==> rows[i].yearMonth.None?
    ensures m.Some? ==> exists i :: 0 <= i < |rows| && rows[i].yearMonth == m
    ensures m.Some? ==> forall i :: 0 <= i < |rows| && rows[i].yearMonth.Some? ==> rows[i].yearMonth.value <= m.value
  {
    if rows == [] then None
    else
      var n := |rows| - 1;
      var rest := LatestMonth(rows[..n]);
      var last := rows[n].yearMonth;
      assert forall i :: 0 <= i < n ==> rows[..n][i] == rows[i];
      if rest.Some? && (last.None? || last.value <= rest.value) then rest
      else if last.Some? then last
      else None
  }

  /** `year_month >= latest`: false when either side is NaN. */
  function InLatestMonth(latest: Option<int>): Row -> bool
  {
    (x: Row) => latest.Some? && x.yearMonth.Some? && x.yearMonth.value >= latest.value
  }

  /** `year_month < latest`: false when either side is NaN. */
  function BeforeLatestMonth(latest: Option<int>): Row -> bool
  {
    (x: Row) => latest.Some? && x.yearMonth.Some? && x.yearMonth.value < latest.value
  }

  /** The distinct sellers of the latest month and of the months before it. */
  datatype SellerCohorts = SellerCohorts(active: nat, initial: nat)

  /**
   * Distinct sellers with a row in the latest month, and distinct sellers
   * with a row in an earlier month; neither exceeds the rows it counts over.
   */
  function Cohorts(f: Filtered): (c: SellerCohorts)
    ensures c.active == |Keys(Col(Where(f.cityState, InLatestMonth(LatestMonth(f.cityState))), SellerKey))|
    ensures c.initial == |Keys(Col(Where(f.cityState, BeforeLatestMonth(LatestMonth(f.cityState))), SellerKey))|
    ensures c.active <= |Where(f.cityState, InLatestMonth(LatestMonth(f.cityState)))|
    ensures c.initial <= |Where(f.cityState, BeforeLatestMonth(LatestMonth(f.cityState)))|
  {
    var latest := LatestMonth(f.cityState);
    var recent := Where(f.cityState, InLatestMonth(latest));
    var earlier := Where(f.cityState, BeforeLatestMonth(latest));
    NUniqueBound(Col(recent, SellerKey));
    NUniqueBound(Col(earlier, SellerKey));
    SellerCohorts(NUnique(Col(recent, SellerKey)), NUnique(Col(earlier, SellerKey)))
  }

  /** The rows in or after the latest month are exactly the rows of that month. */
  lemma LatestMonthOnly(rows: seq<Row>)
    ensures forall x :: x in Where(rows, InLatestMonth(LatestMonth(rows))) <==>
                          x in rows && x.yearMonth.Some? && x.yearMonth == LatestMonth(rows)
  {
    var latest := LatestMonth(rows);
    forall i | 0 <= i < |rows| ensures InLatestMonth(latest)(rows[i]) <==> rows[i].yearMonth.Some? && rows[i].yearMonth == latest {
    }
  }

  /** The rows of the latest month and the rows before it are, between them, all the rows that have a month. */
  lemma LatestMonthSplit(rows: seq<Row>)
    ensures |Where(rows, InLatestMonth(LatestMonth(rows)))| + |Where(rows, BeforeLatestMonth(LatestMonth(rows)))|
            == |Where(rows, HasValue(YearMonthKey))|
  {
    var latest := LatestMonth(rows);
    var recent := InLatestMonth(latest);
    var earlier := BeforeLatestMonth(latest);
    var dated := HasValue(YearMonthKey);
    forall i | 0 <= i < |rows| ensures dated(rows[i]) == (recent(rows[i]) || earlier(rows[i])) {
    }
    WherePartition(rows, recent, earlier, dated);
  }

  /**
   * The seller retention rate: latest-month sellers as a percentage of
   * earlier-month sellers, 0 when there were none earlier. It is never
   * negative, is 0 exactly when one of the two cohorts is empty, and can
   * exceed 100.
   */
  function SellerRetentionRate(f: Filtered): (rate: real)
    ensures rate >= 0.0
    ensures Cohorts(f).initial == 0 ==> rate == 0.0
    ensures rate == 0.0 <==> Cohorts(f).initial == 0 || Cohorts(f).active == 0
    ensures Cohorts(f).active <= Cohorts(f).initial ==> rate <= 100.0
  {
    var c := Cohorts(f);
    if c.initial > 0 then
      Percentage(c.active, c.initial);
      (c.active as real / c.initial as real) * 100.0
    else
      0.0
  }

  /** A seller's number of rows with an order id, `groupby(seller_id)[order_id].count()`. */
  function OrderCount(rows: seq<Row>): string -> real
  {
    (s: string) => Count(Col(RowsWith(rows, SellerKey, s), OrderIdKey)) as real
  }

  /** A seller's number of distinct products, `groupby(seller_id)[product_id].nunique()`. */
  function ProductCount(rows: seq<Row>): string -> real
  {
    (s: string) => NUnique(Col(RowsWith(rows, SellerKey, s), ProductKey)) as real
  }

  /**
   * The five sellers with the most orders: at most five, largest first, each
   * with its order count, and no seller left out has more orders than one listed.
   */
  function TopSellersByOrders(f: Filtered): (r: seq<(string, real)>)
    ensures Ranked(r, Keys(Col(f.cityState, SellerKey)), 5, OrderCount(f.cityState))
  {
    TopOf(CountValuesByKey(f.cityState, SellerKey, OrderIdKey), 5, OrderCount(f.cityState))
  }

  /** The five sellers with the most distinct products, as for orders. */
  function TopSellersByProducts(f: Filtered): (r: seq<(string, real)>)
    ensures Ranked(r, Keys(Col(f.cityState, SellerKey)), 5, ProductCount(f.cityState))
  {
    TopOf(DistinctValuesByKey(f.cityState, SellerKey, ProductKey), 5, ProductCount(f.cityState))
  }

  /** Distinct sellers per seller state over the date-filtered rows (the city and state choice is not applied). */
  function SellersByState(f: Filtered): (e: seq<(string, nat)>)
    ensures KeysOf(e) == Keys(Col(f.date, SellerStateKey))
    ensures forall i :: 0 <= i < |e| ==> e[i].1 == NUnique(Col(RowsWith(f.date, SellerStateKey, e[i].0), SellerKey))
    ensures forall i :: 0 <= i < |e| ==> e[i].1 <= |RowsWith(f.date, SellerStateKey, e[i].0)|
  {
    DistinctValuesByKey(f.date, SellerStateKey, SellerKey)
  }
}
