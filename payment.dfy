/**
 * The payments page: the mean payment and the mean number of installments,
 * the most used payment method and the distribution of methods, the monthly
 * revenue per method, and the total payment per customer state for the
 * methods chosen in a multiselect.
 */
module PaymentPage {
  import opened Wrappers
  import opened Series
  import opened Measures
  import opened Table

  /** `payment_value.mean()`: NaN exactly when no filtered row has a payment value. */
  function AveragePayment(f: Filtered): (m: Option<real>)
    ensures m.None? <==> forall i :: 0 <= i < |f.cityState| ==> f.cityState[i].paymentValue.None?
  {
    CountZero(Col(f.cityState, PaymentValue));
    Mean(Col(f.cityState, PaymentValue))
  }

  /** When every payment value lies in [lo, hi], so does their mean. */
  lemma AveragePaymentWithin(f: Filtered, lo: real, hi: real)
    requires forall i :: 0 <= i < |f.cityState| && f.cityState[i].paymentValue.Some? ==> lo <= f.cityState[i].paymentValue.value <= hi
    requires AveragePayment(f).Some?
    ensures lo <= AveragePayment(f).value <= hi
  {
    MeanBounds(Col(f.cityState, PaymentValue), lo, hi);
  }

  /** `payment_installments.mean()`: NaN exactly when no filtered row has a number of installments. */
  function AverageInstallments(f: Filtered): (m: Option<real>)
    ensures m.None? <==> forall i :: 0 <= i < |f.cityState| ==> f.cityState[i].paymentInstallments.None?
  {
    CountZero(Col(f.cityState, Installments));
    Mean(Col(f.cityState, Installments))
  }

  /** When every number of installments lies in [lo, hi], so does their mean. */
  lemma AverageInstallmentsWithin(f: Filtered, lo: int, hi: int)
    requires forall i :: 0 <= i < |f.cityState| && f.cityState[i].paymentInstallments.Some? ==> lo <= f.cityState[i].paymentInstallments.value <= hi
    requires AverageInstallments(f).Some?
    ensures lo as real <= AverageInstallments(f).value <= hi as real
  {
    MeanBounds(Col(f.cityState, Installments), lo as real, hi as real);
  }

  /**
   * `payment_type.value_counts().idxmax()`: a method used by the most
   * filtered rows; `None` (pandas raises an error) exactly when no filtered
   * row has a payment type.
   */
  function MostUsedMethod(f: Filtered): (m: Option<string>)
    ensures m.None? <==> forall i :: 0 <= i < |f.cityState| ==> f.cityState[i].paymentType.None?
    ensures m.Some? ==> Some(m.value) in Col(f.cityState, PaymentTypeKey)
    ensures m.Some? ==> forall t :: Some(t) in Col(f.cityState, PaymentTypeKey) ==> |RowsWith(f.cityState, PaymentTypeKey, t)| <= |RowsWith(f.cityState, PaymentTypeKey, m.value)|
  {
    MostFrequent(f.cityState, PaymentTypeKey)
  }

  /** The pie chart: each payment method of the filtered rows with its number of rows. */
  function PaymentDistribution(f: Filtered): (e: seq<(string, nat)>)
    ensures KeysOf(e) == Keys(Col(f.cityState, PaymentTypeKey))
    ensures forall i :: 0 <= i < |e| ==> 0 < e[i].1 == |RowsWith(f.cityState, PaymentTypeKey, e[i].0)|
  {
    CountByKey(f.cityState, PaymentTypeKey)
  }

  /** The slices of the pie add up to the filtered rows that have a payment type. */
  lemma PaymentDistributionTotal(f: Filtered)
    ensures TotalCount(PaymentDistribution(f)) == |Where(f.cityState, HasValue(PaymentTypeKey))|
  {
    CountByKeyTotal(f.cityState, PaymentTypeKey);
  }

  /** The pair key (year_month, payment_type) of a two-column groupby; missing when either part is. */
  function MonthMethod(r: Row): Option<(int, string)>
  {
    if r.yearMonth.Some? && r.paymentType.Some? then Some((r.yearMonth.value, r.paymentType.value)) else None
  }

  /** The monthly revenue per method: each (month, method) pair of the filtered rows with the sum of its payments. */
  function MonthlyRevenueTrend(f: Filtered): (e: seq<((int, string), real)>)
    ensures KeysOf(e) == Keys(Col(f.cityState, MonthMethod))
    ensures forall i :: 0 <= i < |e| ==> e[i].1 == Sum(Col(RowsWith(f.cityState, MonthMethod, e[i].0), PaymentValue))
  {
    SumByKey(f.cityState, MonthMethod, PaymentValue)
  }

  /**
   * The monthly revenue of all methods adds up to the payments of the
   * filtered rows that have both a month and a payment type.
   */
  lemma MonthlyRevenueTotal(f: Filtered)
    ensures TotalSum(MonthlyRevenueTrend(f)) == Sum(Col(Where(f.cityState, HasValue(MonthMethod)), PaymentValue))
  {
    SumByKeyKeyed(f.cityState, MonthMethod, PaymentValue);
  }

  /** The multiselect's choices: each payment type of the date-filtered rows once, in order of first appearance. */
  function PaymentOptions(f: Filtered): (opts: seq<string>)
    ensures Distinct(opts)
    ensures forall t :: t in opts <==> exists i :: 0 <= i < |f.date| && f.date[i].paymentType == Some(t)
  {
    var col := Col(f.date, PaymentTypeKey);
    assert forall t :: Some(t) in col <==> exists i :: 0 <= i < |f.date| && f.date[i].paymentType == Some(t);
    Keys(col)
  }

  /** The mask `payment_type.isin(chosen)`: a missing payment type is in no list. */
  function MethodIn(chosen: seq<string>): Row -> bool
  {
    (x: Row) => x.paymentType.Some? && x.paymentType.value in chosen
  }

  /** `filtered_payment_data`: the date-filtered rows whose payment type was chosen, in order. */
  function SelectByMethod(f: Filtered, chosen: seq<string>): (r: seq<Row>)
    ensures forall x :: x in r <==> x in f.date && x.paymentType.Some? && x.paymentType.value in chosen
  {
    Where(f.date, MethodIn(chosen))
  }

  /** With the default choice (every option), the selection keeps exactly the rows that have a payment type. */
  lemma DefaultSelectionKeepsPaid(f: Filtered)
    ensures SelectByMethod(f, PaymentOptions(f)) == Where(f.date, HasValue(PaymentTypeKey))
  {
    var opts := PaymentOptions(f);
    forall i | 0 <= i < |f.date| ensures MethodIn(opts)(f.date[i]) == HasValue(PaymentTypeKey)(f.date[i]) {
      if f.date[i].paymentType.Some? {
        assert f.date[i].paymentType.value in opts;
      }
    }
    WhereSame(f.date, MethodIn(opts), HasValue(PaymentTypeKey));
  }

  /** The choropleth: each customer state of the selected rows with the sum of their payments. */
  function TotalsByState(f: Filtered, chosen: seq<string>): (e: seq<(string, real)>)
    ensures KeysOf(e) == Keys(Col(SelectByMethod(f, chosen), StateKey))
    ensures forall i :: 0 <= i < |e| ==> e[i].1 == Sum(Col(RowsWith(SelectByMethod(f, chosen), StateKey, e[i].0), PaymentValue))
  {
    SumByKey(SelectByMethod(f, chosen), StateKey, PaymentValue)
  }

  /** Every row has a customer state, so the state totals add up to all payments of the selected rows. */
  lemma TotalsByStateTotal(f: Filtered, chosen: seq<string>)
    ensures TotalSum(TotalsByState(f, chosen)) == Sum(Col(SelectByMethod(f, chosen), PaymentValue))
  {
    SumByKeyTotal(SelectByMethod(f, chosen), StateKey, PaymentValue);
  }
}
