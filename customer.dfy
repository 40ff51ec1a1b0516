/**
 * The customers page: repeat customers and the retention rate, the mean
 * amount a customer spent, the segment distribution, and customers and mean
 * payment per state.
 */
module CustomerPage {
  import opened Wrappers
  import opened Series
  import opened Measures
  import opened Table

  /** The customers of a frame who occur in more than one of its rows. */
  function Repeats(rows: seq<Row>): string -> bool
  {
    (c: string) => |RowsWith(rows, CustomerKey, c)| > 1
  }

  /**
   * `(value_counts() > 1).sum()`: the number of distinct customers with two or
   * more filtered rows.
   */
  function ActiveCustomers(f: Filtered): (n: nat)
    ensures n == |Where(Keys(Col(f.cityState, CustomerKey)), Repeats(f.cityState))|
    ensures n <= NUnique(Col(f.cityState, CustomerKey))
  {
    var e := CountByKey(f.cityState, CustomerKey);
    CountAbove(e, 1, Repeats(f.cityState));
    |Where(e, Above(1))|
  }

  /**
   * The customer retention rate: repeat customers as a percentage of all
   * distinct customers, 0 when there are none. It lies in [0, 100], and it
   * is 0 exactly when no customer repeats.
   */
  function RetentionRate(f: Filtered): (rate: real)
    ensures 0.0 <= rate <= 100.0
    ensures NUnique(Col(f.cityState, CustomerKey)) == 0 ==> rate == 0.0
    ensures rate == 0.0 <==> ActiveCustomers(f) == 0
  {
    var active := ActiveCustomers(f);
    var total := NUnique(Col(f.cityState, CustomerKey));
    if total > 0 then
      Percentage(active, total);
      (active as real / total as real) * 100.0
    else
      0.0
  }

  /** What each customer spent: the sum of `payment_value` over the customer's filtered rows. */
  function SpendPerCustomer(f: Filtered): (e: seq<(string, real)>)
    ensures KeysOf(e) == Keys(Col(f.cityState, CustomerKey))
    ensures forall i :: 0 <= i < |e| ==> e[i].1 == Sum(Col(RowsWith(f.cityState, CustomerKey, e[i].0), PaymentValue))
  {
    SumByKey(f.cityState, CustomerKey, PaymentValue)
  }

  /**
   * The average monetary value: the mean of the per-customer sums, NaN
   * without rows. It is the total payment value of the filtered rows divided
   * by the number of distinct customers.
   */
  function AverageMonetaryValue(f: Filtered): (m: Option<real>)
    ensures m.None? <==> f.cityState == []
    ensures m.Some? ==> NUnique(Col(f.cityState, CustomerKey)) > 0 &&
                        m.value == Sum(Col(f.cityState, PaymentValue)) / NUnique(Col(f.cityState, CustomerKey)) as real
  {
    var e := SpendPerCustomer(f);
    ValuesOfSum(e);
    if f.cityState == [] then Mean(ValuesOf(e))
    else
      MeanOfSums(f.cityState, CustomerKey, PaymentValue);
      Mean(ValuesOf(e))
  }

  /** Rows per customer segment; the counts add up as `SegmentCountsTotal` states. */
  function SegmentCounts(f: Filtered): (e: seq<(string, nat)>)
    ensures KeysOf(e) == Keys(Col(f.cityState, SegmentKey))
    ensures forall i :: 0 <= i < |e| ==> 0 < e[i].1 == |RowsWith(f.cityState, SegmentKey, e[i].0)|
  {
    CountByKey(f.cityState, SegmentKey)
  }

  /** The segment counts add up to the number of filtered rows that have a segment. */
  lemma SegmentCountsTotal(f: Filtered)
    ensures TotalCount(SegmentCounts(f)) == |Where(f.cityState, HasValue(SegmentKey))|
  {
    CountByKeyTotal(f.cityState, SegmentKey);
  }

  /** Distinct customers per customer state over the date-filtered rows. */
  function CustomersByState(f: Filtered): (e: seq<(string, nat)>)
    ensures KeysOf(e) == Keys(Col(f.date, StateKey))
    ensures forall i :: 0 <= i < |e| ==> e[i].1 == NUnique(Col(RowsWith(f.date, StateKey, e[i].0), CustomerKey))
    ensures forall i :: 0 <= i < |e| ==> e[i].1 <= |RowsWith(f.date, StateKey, e[i].0)|
  {
    DistinctValuesByKey(f.date, StateKey, CustomerKey)
  }

  /** The mean payment value per customer state over the date-filtered rows. */
  function PaymentByState(f: Filtered): (e: seq<(string, Option<real>)>)
    ensures KeysOf(e) == Keys(Col(f.date, StateKey))
    ensures forall i :: 0 <= i < |e| ==> e[i].1 == Mean(Col(RowsWith(f.date, StateKey, e[i].0), PaymentValue))
  {
    MeanByKey(f.date, StateKey, PaymentValue)
  }
}
