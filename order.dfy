/**
 * The orders page: delivered and canceled totals, the mean processing time
 * and the mean lateness as days, hours and minutes, the late-order table with
 * whole days late, and per-month and per-state figures.
 */
module OrderPage {
  import opened Wrappers
  import opened Series
  import opened Measures
  import opened Table
  import opened Durations

  /** The delivered and the canceled totals. */
  datatype StatusTotals = StatusTotals(delivered: nat, canceled: nat)

  /**
   * `total_delivered` and `total_canceled`: the filtered rows whose status is
   * exactly "delivered", and exactly "canceled". No row is both, so together
   * they never exceed the filtered rows.
   */
  function DeliveredAndCanceled(f: Filtered): (t: StatusTotals)
    ensures t.delivered == Occurrences(Col(f.cityState, StatusKey), "delivered")
    ensures t.canceled == Occurrences(Col(f.cityState, StatusKey), "canceled")
    ensures t.delivered + t.canceled <= |f.cityState|
  {
    var rows := f.cityState;
    OccurrencesRows(rows, StatusKey, "delivered");
    OccurrencesRows(rows, StatusKey, "canceled");
    WhereDisjoint(rows, KeyIs(StatusKey, "delivered"), KeyIs(StatusKey, "canceled"));
    StatusTotals(|RowsWith(rows, StatusKey, "delivered")|, |RowsWith(rows, StatusKey, "canceled")|)
  }

  /** `processing_time`: seconds from purchase to approval, NaN when the approval is NaT. */
  function ProcessingSeconds(r: Row): Option<real>
  {
    if r.approvedAt.Some? then Some((r.approvedAt.value - r.purchaseTimestamp) as real) else None
  }

  /**
   * The average processing time read-out: "N/A" exactly when no filtered row
   * was approved; otherwise days, hours in 0..23 and minutes in 0..59 within
   * one minute of the mean.
   */
  function AverageProcessingTime(f: Filtered): (d: Duration)
    ensures d.NotAvailable? <==> forall i :: 0 <= i < |f.cityState| ==> f.cityState[i].approvedAt.None?
    ensures d.Dhm? ==> 0 <= d.hours <= 23 && 0 <= d.minutes <= 59
    ensures d.Dhm? ==> var total := (d.days * 86400 + d.hours * 3600 + d.minutes * 60) as real;
                       var mean := Mean(Col(f.cityState, ProcessingSeconds));
                       mean.Some? && total <= mean.value < total + 60.0
  {
    CountZero(Col(f.cityState, ProcessingSeconds));
    FormatSeconds(Mean(Col(f.cityState, ProcessingSeconds)))
  }

  /** The mean delivery time per month of the filtered rows, NaN for a month without one. */
  function DeliveryTrend(f: Filtered): (e: seq<(int, Option<real>)>)
    ensures KeysOf(e) == Keys(Col(f.cityState, YearMonthKey))
    ensures forall i :: 0 <= i < |e| ==> e[i].1 == Mean(Col(RowsWith(f.cityState, YearMonthKey, e[i].0), DeliveryTime))
  {
    MeanByKey(f.cityState, YearMonthKey, DeliveryTime)
  }

  /** `late_delivery`: delivered strictly after the estimate; a NaT on either side is not late. */
  predicate IsLate(r: Row)
  {
    r.deliveredCustomerDate.Some? && r.estimatedDeliveryDate.Some? &&
    r.deliveredCustomerDate.value > r.estimatedDeliveryDate.value
  }

  /** `late_orders`: the filtered rows that are late, in order. */
  function LateOrders(f: Filtered): (r: seq<Row>)
    ensures forall x :: x in r <==> x in f.cityState && IsLate(x)
    ensures |r| <= |f.cityState|
  {
    Where(f.cityState, IsLate)
  }

  /** `late_days`: whole days between the estimate and the delivery, rounded down, never negative. */
  function LateDays(r: Row): (d: int)
    requires IsLate(r)
    ensures d >= 0
    ensures d * 86400 <= r.deliveredCustomerDate.value - r.estimatedDeliveryDate.value < (d + 1) * 86400
  {
    (r.deliveredCustomerDate.value - r.estimatedDeliveryDate.value) / 86400
  }

  /** The late-order table: each late order with its days late. */
  function LateTable(f: Filtered): (t: seq<(Row, int)>)
    ensures |t| == |LateOrders(f)|
    ensures forall i :: 0 <= i < |t| ==> t[i].0 == LateOrders(f)[i] && IsLate(t[i].0)
    ensures forall i :: 0 <= i < |t| ==> t[i].1 >= 0 && t[i].1 == LateDays(t[i].0)
  {
    var late := LateOrders(f);
    assert forall i :: 0 <= i < |late| ==> late[i] in late;
    seq(|late|, i requires 0 <= i < |late| => (late[i], LateDays(late[i])))
  }

  /** Seconds a late order came after its estimate. */
  function LateSeconds(r: Row): Option<real>
  {
    if r.deliveredCustomerDate.Some? && r.estimatedDeliveryDate.Some? then
      Some((r.deliveredCustomerDate.value - r.estimatedDeliveryDate.value) as real)
    else None
  }

  /** Every late order is at least one second late, so the mean lateness is at least one second. */
  lemma LateMeanPositive(f: Filtered)
    requires LateOrders(f) != []
    ensures Count(Col(LateOrders(f), LateSeconds)) > 0
    ensures Mean(Col(LateOrders(f), LateSeconds)).value >= 1.0
  {
    var late := LateOrders(f);
    var secs := Col(late, LateSeconds);
    assert late[0] in late;
    CountZero(secs);
    forall i | 0 <= i < |secs| && secs[i].Some? ensures 1.0 <= secs[i].value {
      assert late[i] in late;
    }
    MeanAtLeast(secs, 1.0);
  }

  /**
   * The average late time read-out: "N/A" exactly when no order is late;
   * otherwise the late orders' mean lateness, truncated to whole minutes, as a
   * non-negative number of days, hours in 0..23 and minutes in 0..59.
   */
  function AverageLateTime(f: Filtered): (d: Duration)
    ensures d.NotAvailable? <==> LateOrders(f) == []
    ensures d.Dhm? ==> d.days >= 0 && 0 <= d.hours <= 23 && 0 <= d.minutes <= 59
    ensures d.Dhm? ==> var total := (d.days * 86400 + d.hours * 3600 + d.minutes * 60) as real;
                       var mean := Mean(Col(LateOrders(f), LateSeconds));
                       mean.Some? && total <= mean.value < total + 60.0
  {
    var secs := Col(LateOrders(f), LateSeconds);
    if LateOrders(f) == [] then
      FormatSeconds(Mean(secs))
    else
      LateMeanPositive(f);
      FormatSeconds(Mean(secs))
  }

  /** Distinct orders per customer state over the date-filtered rows (the city and state choice is not applied). */
  function OrdersByState(f: Filtered): (e: seq<(string, nat)>)
    ensures KeysOf(e) == Keys(Col(f.date, StateKey))
    ensures forall i :: 0 <= i < |e| ==> e[i].1 == NUnique(Col(RowsWith(f.date, StateKey, e[i].0), OrderIdKey))
    ensures forall i :: 0 <= i < |e| ==> e[i].1 <= |RowsWith(f.date, StateKey, e[i].0)|
  {
    DistinctValuesByKey(f.date, StateKey, OrderIdKey)
  }

  /** The mean delivery time per customer state over the date-filtered rows. */
  function DeliveryByState(f: Filtered): (e: seq<(string, Option<real>)>)
    ensures KeysOf(e) == Keys(Col(f.date, StateKey))
    ensures forall i :: 0 <= i < |e| ==> e[i].1 == Mean(Col(RowsWith(f.date, StateKey, e[i].0), DeliveryTime))
  {
    MeanByKey(f.date, StateKey, DeliveryTime)
  }
}
