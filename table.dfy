/**
 * One row of the merged order table and the filter that every page applies
 * first: keep the rows purchased inside the stored date range, then narrow to
 * the stored customer city and customer state unless either is "All".
 * Timestamps are whole seconds; a missing timestamp (NaT) or value (NaN) is
 * `None`.
 */
module Table {
  import opened Wrappers
  import opened Series

  /** The columns of the table that the pages read. */
  datatype Row = Row(
    orderId: string,
    customerUniqueId: string,
    customerCity: string,
    customerState: string,
    sellerId: Option<string>,
    sellerState: Option<string>,
    productId: Option<string>,
    productCategory: Option<string>,
    orderItemId: Option<int>,
    orderStatus: Option<string>,
    purchaseTimestamp: int,
    approvedAt: Option<int>,
    deliveredCarrierDate: Option<int>,
    deliveredCustomerDate: Option<int>,
    estimatedDeliveryDate: Option<int>,
    yearMonth: Option<int>,
    deliveryTime: Option<real>,
    paymentType: Option<string>,
    paymentValue: Option<real>,
    paymentInstallments: Option<int>,
    reviewId: Option<string>,
    reviewScore: Option<int>,
    reviewCommentMessage: Option<string>,
    customerSegment: Option<string>
  )

  /** The word that switches the city or the state filter off. */
  const All := "All"

  /** A stored date range; an end is `None` when it is NaT (the table was empty). */
  datatype DateRange = DateRange(start: Option<int>, end: Option<int>)

  /** What a page reads from the session: the date range, the city and the state. */
  datatype Selection = Selection(range: DateRange, city: string, state: string)

  /** `start <= purchase <= end`, both ends inclusive; any comparison with NaT is false. */
  predicate InDateRange(range: DateRange, r: Row)
  {
    range.start.Some? && range.end.Some? &&
    range.start.value <= r.purchaseTimestamp <= range.end.value
  }

  /** The row is in the city unless the city is "All", and in the state unless the state is "All". */
  predicate MatchesLocation(city: string, state: string, r: Row)
  {
    (city == All || r.customerCity == city) && (state == All || r.customerState == state)
  }

  /** The mask `start <= purchase <= end`. */
  function DateMask(range: DateRange): Row -> bool
  {
    (x: Row) => InDateRange(range, x)
  }

  /** The mask `customer_city == city`. */
  function CityIs(city: string): Row -> bool
  {
    (x: Row) => x.customerCity == city
  }

  /** The mask `customer_state == state`. */
  function StateIs(state: string): Row -> bool
  {
    (x: Row) => x.customerState == state
  }

  /** The mask of the whole shared filter. */
  function SharedMask(sel: Selection): Row -> bool
  {
    (x: Row) => InDateRange(sel.range, x) && MatchesLocation(sel.city, sel.state, x)
  }

  /** The two frames a page works on: `filtered_date` and `filtered_city_state`. */
  datatype Filtered = Filtered(date: seq<Row>, cityState: seq<Row>)

  /** `filtered_date`: the rows purchased inside the range. */
  function FilterDate(rows: seq<Row>, range: DateRange): (r: seq<Row>)
    ensures forall x :: x in r <==> x in rows && InDateRange(range, x)
  {
    Where(rows, DateMask(range))
  }

  /** `filtered_city_state`: the date-filtered rows narrowed by city, then by state. */
  function FilterCityState(dated: seq<Row>, city: string, state: string): (r: seq<Row>)
    ensures forall x :: x in r <==> x in dated && MatchesLocation(city, state, x)
  {
    var byCity := if city != All then Where(dated, CityIs(city)) else dated;
    if state != All then Where(byCity, StateIs(state)) else byCity
  }

  /** The shared filter of every page. */
  function SharedFilter(rows: seq<Row>, sel: Selection): (f: Filtered)
    ensures forall x :: x in f.date <==> x in rows && InDateRange(sel.range, x)
    ensures forall x :: x in f.cityState <==> x in rows && InDateRange(sel.range, x) && MatchesLocation(sel.city, sel.state, x)
    ensures |f.cityState| <= |f.date| <= |rows|
  {
    var dated := FilterDate(rows, sel.range);
    var narrowed := FilterCityState(dated, sel.city, sel.state);
    FilterCityStateShrinks(dated, sel.city, sel.state);
    Filtered(dated, narrowed)
  }

  lemma FilterCityStateShrinks(dated: seq<Row>, city: string, state: string)
    ensures |FilterCityState(dated, city, state)| <= |dated|
  {
  }

  /**
   * The shared filter keeps exactly the rows that are in the range and match
   * the location, in their original order: it is one mask over the table.
   */
  lemma SharedFilterIsOneMask(rows: seq<Row>, sel: Selection)
    ensures SharedFilter(rows, sel).cityState
         == Where(rows, SharedMask(sel))
  {
    var inRange := DateMask(sel.range);
    if sel.city != All && sel.state != All {
      var cityOnly := SharedMask(Selection(sel.range, sel.city, All));
      WhereThen(rows, inRange, CityIs(sel.city), cityOnly);
      WhereThen(rows, cityOnly, StateIs(sel.state), SharedMask(sel));
    } else if sel.city != All {
      WhereThen(rows, inRange, CityIs(sel.city), SharedMask(sel));
    } else if sel.state != All {
      WhereThen(rows, inRange, StateIs(sel.state), SharedMask(sel));
    } else {
      WhereSame(rows, inRange, SharedMask(sel));
    }
  }

  /** With city and state both "All", `filtered_city_state` is `filtered_date`. */
  lemma AllLocationsKeepDate(rows: seq<Row>, sel: Selection)
    requires sel.city == All && sel.state == All
    ensures SharedFilter(rows, sel).cityState == SharedFilter(rows, sel).date
  {
  }

  // The columns the pages read, as functions of a row (a missing value is None).

  function OrderIdKey(r: Row): Option<string> { Some(r.orderId) }
  function CustomerKey(r: Row): Option<string> { Some(r.customerUniqueId) }
  function CityKey(r: Row): Option<string> { Some(r.customerCity) }
  function StateKey(r: Row): Option<string> { Some(r.customerState) }
  function SellerKey(r: Row): Option<string> { r.sellerId }
  function SellerStateKey(r: Row): Option<string> { r.sellerState }
  function ProductKey(r: Row): Option<string> { r.productId }
  function CategoryKey(r: Row): Option<string> { r.productCategory }
  function OrderItemKey(r: Row): Option<int> { r.orderItemId }
  function StatusKey(r: Row): Option<string> { r.orderStatus }
  function YearMonthKey(r: Row): Option<int> { r.yearMonth }
  function PaymentTypeKey(r: Row): Option<string> { r.paymentType }
  function SegmentKey(r: Row): Option<string> { r.customerSegment }
  function ReviewIdKey(r: Row): Option<string> { r.reviewId }
  function ReviewScoreKey(r: Row): Option<int> { r.reviewScore }
  function DeliveryTime(r: Row): Option<real> { r.deliveryTime }
  function PaymentValue(r: Row): Option<real> { r.paymentValue }

  /** `payment_installments` as a float column. */
  function Installments(r: Row): Option<real>
  {
    if r.paymentInstallments.Some? then Some(r.paymentInstallments.value as real) else None
  }

  /** `review_score` as a float column. */
  function ReviewScore(r: Row): Option<real>
  {
    if r.reviewScore.Some? then Some(r.reviewScore.value as real) else None
  }
}
