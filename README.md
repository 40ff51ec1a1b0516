# Brazilian e-commerce dashboard: a verified model of its data pipeline

The dashboard has an entry script and seven pages: home, orders, customers,
sellers, products, payments and reviews.

- **Entry script.** It keeps a filter selection in the session: a purchase-date
  range, a customer city and a customer state. It sets each one's default on the
  first run and replaces all three, asking for a rerun, whenever the sidebar's
  choice differs.
- **Pages.** Every page first narrows the merged order table in two steps:
  - `filtered_date` keeps the rows purchased inside the range;
  - `filtered_city_state` then keeps the rows in the chosen city and state,
    unless a choice is "All".

  Each page then computes its figures from one of these two frames: counts,
  distinct counts, group-by counts, sums and means, top-5 rankings, arg-max
  picks, retention rates, multiselect narrowing and day/hour/minute read-outs.

This project models those computations in Dafny and proves what each figure
means. It has three kinds of module.

**Shared modules**

- `Table`: the row and the shared filter.
- `Series`: pandas column operations.
- `Measures`: group-by aggregates.
- `Ranking`: sorting, `nlargest`/`head` and arg-max.
- `Text`: string order and `" ".join`.
- `Durations`: the D/H/M read-outs.

**Entry script**

- `Dashboard`: the session and its update rule, as a class whose methods update
  its fields.

**One module per page**

- `HomePage`, `OrderPage`, `CustomerPage`, `SellerPage`, `ProductPage`,
  `PaymentPage` and `ReviewPage`.

**Modelling choices**

- Timestamps are whole seconds.
- A missing value (NaN/NaT) is `None`.
- A frame is a sequence of rows.
- A group-by result is a sequence of (key, value) pairs, one per distinct
  non-missing key.
- Widget input (the date range, the selectboxes, the multiselects) enters as
  parameters.

## Model

| member | source | states |
|---|---|---|
| Dashboard.EarliestPurchase | dashboard/dashboard-brazilian-ecommerce.py:33 | the earliest purchase time of the table: attained by some row, at most every row's; NaT exactly for an empty table |
| Dashboard.LatestPurchase | dashboard/dashboard-brazilian-ecommerce.py:34 | the latest purchase time: attained, at least every row's; NaT exactly for an empty table |
| Dashboard.DefaultRangeKeepsAll | dashboard/dashboard-brazilian-ecommerce.py:33-38 | the default range (min, max) admits every row of the table |
| Dashboard.Midnight | dashboard/app_pages/dashboard-home.py:23-24 | `pd.to_datetime` of a picked calendar date: the midnight at or before the timestamp, less than a day before it |
| Dashboard.PickedDefaultDropsLastDay | dashboard/app_pages/dashboard-home.py:23-29 | with the default range as the picker returns it, some row is filtered out exactly when the latest purchase is not at midnight |
| Dashboard.Options | dashboard/dashboard-brazilian-ecommerce.py:75 | "All" first, then the distinct values in strictly ascending order, exactly the values of the column |
| Dashboard.CityOptions | dashboard/dashboard-brazilian-ecommerce.py:75 | the city box lists "All", then each customer city of the table once, ascending |
| Dashboard.StateOptions | dashboard/dashboard-brazilian-ecommerce.py:79 | the state box lists "All", then each customer state once, ascending |
| Dashboard.Update | dashboard/dashboard-brazilian-ecommerce.py:88-96 | a rerun is asked for exactly when range, city or state differs; then all three become the choice, otherwise nothing changes |
| Dashboard.UpdateIdempotent | dashboard/dashboard-brazilian-ecommerce.py:88-95 | updating twice with the same choice equals updating once, and the second update asks for no rerun |
| Dashboard.OrDefault | dashboard/dashboard-brazilian-ecommerce.py:37-44 | a session value once set, its default otherwise |
| Dashboard.FilterSession.constructor | dashboard/dashboard-brazilian-ecommerce.py:37-44 | a new session holds none of the three keys |
| Dashboard.FilterSession.InitDefaults | dashboard/dashboard-brazilian-ecommerce.py:37-44 | each missing key gets its default ((min, max) range, "All", "All"); a key already set keeps its value |
| Dashboard.FilterSession.Apply | dashboard/dashboard-brazilian-ecommerce.py:88-96 | the session's new state and the rerun flag are those of the update rule applied to the old state |
| Dashboard.FilterSession.Run | dashboard/dashboard-brazilian-ecommerce.py:37-96 | one run: the warning shows exactly when both city and state are chosen, the choice is stored unaltered, and a rerun happens exactly when it differs from the (defaulted) stored selection |
| Dashboard.FilterSession.PageSelection | dashboard/app_pages/dashboard-home.py:17-24 | a page reads the stored range, and the city and state with "All" for a missing key; without a range it cannot filter |
| Dashboard.FirstRun | dashboard/dashboard-brazilian-ecommerce.py:37-96 | after a first run the pages filter with exactly the choice, and a rerun happens unless the choice is the default |
| Table.FilterDate | dashboard/app_pages/dashboard-home.py:26-29 | keeps exactly the rows with start <= purchase <= end, both ends inclusive, a NaT end admitting nothing |
| Table.FilterCityState | dashboard/app_pages/dashboard-home.py:31-39 | keeps exactly the rows of the city unless "All" and of the state unless "All" |
| Table.SharedFilter | dashboard/app_pages/dashboard-order.py:25-38 | both frames: the date frame holds the rows in range, the city/state frame those also in the location; sizes shrink |
| Table.SharedFilterIsOneMask | dashboard/app_pages/dashboard-customer.py:25-38 | the two-step filter is one mask over the table: kept rows stay in their original order |
| Table.AllLocationsKeepDate | dashboard/app_pages/dashboard-seller.py:31-39 | with city and state both "All", `filtered_city_state` is `filtered_date` |
| Series.Where | dashboard/app_pages/dashboard-product.py:26-29 | a boolean mask keeps exactly the rows that pass it, never more rows than it had |
| Series.WhereConcat | dashboard/app_pages/dashboard-home.py:34-39 | a mask filters concatenated frames piecewise, so the order of rows is kept |
| Series.WhereWhere | dashboard/app_pages/dashboard-home.py:34-39 | filtering by one mask and then another is filtering by both at once |
| Series.Keys | dashboard/app_pages/dashboard-payment.py:110 | `dropna().unique()`: each non-missing value once, exactly the values present, no more than the non-missing count |
| Series.Unique | dashboard/app_pages/dashboard-review.py:62 | `unique()`: each value once, NaN included, exactly the values present |
| Series.NUniqueBound | dashboard/app_pages/dashboard-home.py:82-86 | `nunique()` is at most the non-missing count, at most the rows, and 0 exactly when all values are missing |
| Series.CountRows | dashboard/app_pages/dashboard-review.py:45 | `count()` is the number of rows where the column is not missing |
| Series.Mean | dashboard/app_pages/dashboard-home.py:42 | `mean()` is NaN exactly when no value is present |
| Series.MeanBounds | dashboard/app_pages/dashboard-payment.py:42 | a mean of values that all lie in [lo, hi] lies in [lo, hi] |
| Series.ValueCountsTotal | dashboard/app_pages/dashboard-home.py:53 | the counts of `value_counts()` add up to the non-missing values |
| Series.GroupSumTotal | dashboard/app_pages/dashboard-payment.py:117-118 | the per-key sums add up to the sum of the values whose key is present |
| Series.Percentage | dashboard/app_pages/dashboard-customer.py:50 | part/whole*100 is non-negative, 0 exactly for a zero part, at most 100 when part <= whole |
| Measures.CountByKey | dashboard/app_pages/dashboard-home.py:45 | `groupby(key).size()`: exactly the keys present, each with the positive number of its rows |
| Measures.CountByKeyTotal | dashboard/app_pages/dashboard-home.py:45 | the per-key counts add up to the rows that have a key |
| Measures.DistinctCount | dashboard/app_pages/dashboard-seller.py:42 | `nunique()` is at most the rows and 0 exactly when no row has the column |
| Measures.TopCounts | dashboard/app_pages/dashboard-home.py:59 | `value_counts().nlargest(n)`: min(n, number of keys) different keys of the frame, descending, each with its row count, none left out with more rows |
| Measures.TopOf | dashboard/app_pages/dashboard-seller.py:72-73 | `sort_values(ascending=False).head(n)` of a per-key count frame: min(n, keys) different keys, descending by count, none left out counting more |
| Measures.BestOf | dashboard/app_pages/dashboard-product.py:42-44 | `sort_values(ascending=False).iloc[0]`: a key with the highest count; an error (None) exactly on an empty frame |
| Measures.BestMean | dashboard/app_pages/dashboard-product.py:49-51 | a key with the highest mean, NaN means sorted last; an error (None) exactly when no row has a key |
| Measures.MostFrequent | dashboard/app_pages/dashboard-payment.py:45-47 | `value_counts().idxmax()`: a present value with the most rows; an error (None) exactly when none is present |
| Measures.CountValuesByKey | dashboard/app_pages/dashboard-seller.py:72 | `groupby(key)[val].count()`: per present key, the non-missing values among its rows |
| Measures.DistinctValuesByKey | dashboard/app_pages/dashboard-seller.py:100 | `groupby(key)[val].nunique()`: per present key, the distinct values among its rows, at most its rows |
| Measures.SumByKey | dashboard/app_pages/dashboard-customer.py:45 | `groupby(key)[val].sum()`: per present key, the sum over its rows |
| Measures.SumByKeyTotal | dashboard/app_pages/dashboard-payment.py:117-118 | when every row has a key, the per-key sums add up to the sum over all rows |
| Measures.SumByKeyKeyed | dashboard/app_pages/dashboard-payment.py:65-66 | the per-key sums add up to the sum over the rows whose key is present |
| Measures.MeanOfSums | dashboard/app_pages/dashboard-customer.py:45 | the mean of the per-key sums is the total over the number of distinct keys |
| Measures.MeanByKey | dashboard/app_pages/dashboard-order.py:66 | `groupby(key)[val].mean()`: per present key, the mean over its rows, NaN without values |
| Measures.CountAbove | dashboard/app_pages/dashboard-customer.py:41-42 | `(counts > t).sum()` counts the keys whose count exceeds t |
| Measures.MeanOfMeansNone | dashboard/app_pages/dashboard-seller.py:51 | the mean of per-key means is NaN exactly when no row has both a key and a value |
| Measures.MeanOfMeansBounds | dashboard/app_pages/dashboard-seller.py:51 | the mean of per-key means of values in [lo, hi] lies in [lo, hi] |
| Ranking.SortDescending | dashboard/app_pages/dashboard-seller.py:73 | `sort_values(ascending=False)`: a descending permutation of the frame |
| Ranking.TopN | dashboard/app_pages/dashboard-seller.py:73 | `.head(n)` of the sorted frame: min(n, size) entries drawn from the frame, descending, no entry left out scoring more than one kept |
| Ranking.TopBy | dashboard/app_pages/dashboard-product.py:83-84 | on a frame with one entry per key, scored by its keys: min(n, keys) different keys, descending, none left out scoring more |
| Ranking.RankedKeys | dashboard/app_pages/dashboard-product.py:64 | `.nlargest(n).index`: exactly min(n, keys) different keys, all of the frame, none left out scoring more than one kept |
| Ranking.ArgMax | dashboard/app_pages/dashboard-product.py:44 | `.iloc[0]` after a descending sort: an entry with the highest score; None exactly on an empty frame |
| Ranking.ArgMaxSkipNaN | dashboard/app_pages/dashboard-product.py:51 | the same with NaN scores sorted last: a NaN entry is chosen only when every score is NaN |
| Text.SortedUnique | dashboard/dashboard-brazilian-ecommerce.py:75 | `sorted(unique())`: strictly ascending (Python's `str` order), exactly the values |
| Text.JoinWithSpace | dashboard/app_pages/dashboard-review.py:92 | `" ".join(words)`: empty for no words; otherwise its length is the words' characters plus one space between neighbours |
| Text.JoinSpacedOut | dashboard/app_pages/dashboard-review.py:92 | `" ".join(words)` lays the words out in order: word i starts after the earlier words and one space behind each, and a space follows every word but the last |
| Text.JoinConcat | dashboard/app_pages/dashboard-review.py:92 | joining two lists is joining each with one space between |
| Durations.FloorDiv | dashboard/app_pages/dashboard-order.py:51 | Python's float `//` by a positive divisor: q*d <= x < q*d + d |
| Durations.FloorMod | dashboard/app_pages/dashboard-order.py:52-53 | Python's float `%` by a positive divisor: in [0, d), and x = (x // d)*d + x % d |
| Durations.Trunc | dashboard/app_pages/dashboard-seller.py:55 | `int(x)` truncates toward zero |
| Durations.SplitWholeSeconds | dashboard/app_pages/dashboard-order.py:51-54 | hours in 0..23, minutes in 0..59, and the parts are within one minute below the seconds |
| Durations.SplitSeconds | dashboard/app_pages/dashboard-order.py:51-53 | the float `//` and `%` split of a mean equals the integer split of its whole seconds: hours 0..23, minutes 0..59, the parts falling short of the mean by less than a minute |
| Durations.SplitSecondsOfFloor | dashboard/app_pages/dashboard-order.py:51-53 | each float part (days, hours, minutes) equals the integer part computed from the whole seconds |
| Durations.FormatSeconds | dashboard/app_pages/dashboard-order.py:50-56 | "N/A" exactly for NaN; otherwise hours 0..23, minutes 0..59, within a minute of the mean |
| Durations.SplitDays | dashboard/app_pages/dashboard-seller.py:55-57 | hours 0..23 and minutes 0..59 always; for x >= 0 the days are floor(x) and the parts are within a minute of x |
| Durations.SplitDaysNegative | dashboard/app_pages/dashboard-seller.py:55-57 | for a negative non-whole mean the days come out one above its floor |
| Durations.FormatDays | dashboard/app_pages/dashboard-seller.py:54-60 | "N/A" exactly for NaN; otherwise hours 0..23, minutes 0..59; for a non-negative mean, whole days and the parts within one minute (1/1440 day) below the mean |
| HomePage.AverageDeliveryTime | dashboard/app_pages/dashboard-home.py:42 | NaN exactly when no filtered row has a delivery time |
| HomePage.AverageDeliveryTimeWithin | dashboard/app_pages/dashboard-home.py:42 | when every delivery time lies in [lo, hi], so does the mean delivery time |
| HomePage.OrderTrend | dashboard/app_pages/dashboard-home.py:45 | each month of the filtered rows with its positive number of rows |
| HomePage.OrderTrendTotal | dashboard/app_pages/dashboard-home.py:45 | the monthly counts add up to the filtered rows with a month |
| HomePage.StatusCounts | dashboard/app_pages/dashboard-home.py:53 | each status with its positive number of rows |
| HomePage.StatusCountsTotal | dashboard/app_pages/dashboard-home.py:53 | the status counts add up to the filtered rows with a status |
| HomePage.TopCities | dashboard/app_pages/dashboard-home.py:59 | top 5 (or all, when fewer) different cities of the date-filtered rows by rows, descending, no city left out with more |
| HomePage.TopStates | dashboard/app_pages/dashboard-home.py:68 | top 5 (or all, when fewer) different states of the date-filtered rows by rows, descending, no state left out with more |
| HomePage.TotalOrders | dashboard/app_pages/dashboard-home.py:82 | the number of distinct order ids of the filtered rows, at most the rows, 0 only without rows |
| HomePage.TotalCustomers | dashboard/app_pages/dashboard-home.py:84 | the number of distinct customer unique ids of the filtered rows, at most the rows, 0 only without rows |
| HomePage.TotalSellers | dashboard/app_pages/dashboard-home.py:86 | the number of distinct seller ids of the filtered rows, at most the rows, 0 exactly when no row has a seller; the sellers page's count (dashboard-seller.py:42) is the same expression |
| HomePage.TotalRevenue | dashboard/app_pages/dashboard-home.py:90 | total revenue, the NaN-skipping sum of `payment_value` over the filtered rows, equals the total of the per-customer-state revenue sums |
| OrderPage.DeliveredAndCanceled | dashboard/app_pages/dashboard-order.py:41-42 | rows whose status is exactly "delivered" / "canceled"; together at most the filtered rows |
| OrderPage.AverageProcessingTime | dashboard/app_pages/dashboard-order.py:45-56 | "N/A" exactly when no row was approved; otherwise D/H/M in range, within a minute of the mean approval delay |
| OrderPage.DeliveryTrend | dashboard/app_pages/dashboard-order.py:66 | each month with the mean delivery time of its rows |
| OrderPage.LateOrders | dashboard/app_pages/dashboard-order.py:73-74 | exactly the filtered rows delivered strictly after the estimate (NaT is never late) |
| OrderPage.LateDays | dashboard/app_pages/dashboard-order.py:77-78 | whole days late, rounded down, never negative |
| OrderPage.LateTable | dashboard/app_pages/dashboard-order.py:77-84 | each late order, in order, with its non-negative days late |
| OrderPage.LateMeanPositive | dashboard/app_pages/dashboard-order.py:86 | with a late order, the mean lateness exists and is at least one second |
| OrderPage.AverageLateTime | dashboard/app_pages/dashboard-order.py:86-94 | "N/A" exactly when nothing is late; otherwise the late orders' mean lateness truncated to whole minutes, as non-negative days, hours 0..23, minutes 0..59 |
| OrderPage.OrdersByState | dashboard/app_pages/dashboard-order.py:101 | distinct orders per state over the date-filtered rows, at most the state's rows |
| OrderPage.DeliveryByState | dashboard/app_pages/dashboard-order.py:112 | mean delivery time per state over the date-filtered rows |
| CustomerPage.ActiveCustomers | dashboard/app_pages/dashboard-customer.py:41-42 | the customers with more than one filtered row, at most all distinct customers |
| CustomerPage.RetentionRate | dashboard/app_pages/dashboard-customer.py:48-50 | in [0, 100]; 0 without customers; 0 exactly when no customer repeats |
| CustomerPage.SpendPerCustomer | dashboard/app_pages/dashboard-customer.py:45 | each customer with the sum of their payments |
| CustomerPage.AverageMonetaryValue | dashboard/app_pages/dashboard-customer.py:45 | NaN exactly without rows; otherwise total payments over distinct customers |
| CustomerPage.SegmentCounts | dashboard/app_pages/dashboard-customer.py:65 | each segment with its positive number of rows |
| CustomerPage.SegmentCountsTotal | dashboard/app_pages/dashboard-customer.py:65 | the segment counts add up to the rows with a segment |
| CustomerPage.CustomersByState | dashboard/app_pages/dashboard-customer.py:75 | distinct customers per state over the date-filtered rows |
| CustomerPage.PaymentByState | dashboard/app_pages/dashboard-customer.py:87 | mean payment per state over the date-filtered rows |
| SellerPage.ShippingDays | dashboard/app_pages/dashboard-seller.py:46-48 | (carrier - approved) seconds / 86400, present exactly when both dates are |
| SellerPage.ShippingBySeller | dashboard/app_pages/dashboard-seller.py:51 | each seller with the mean shipping days of its rows |
| SellerPage.MeanShippingDays | dashboard/app_pages/dashboard-seller.py:51 | the mean of the per-seller means is NaN exactly when no row has both a seller and shipping days |
| SellerPage.MeanShippingWithin | dashboard/app_pages/dashboard-seller.py:51 | shipping days within [lo, hi] keep that mean within [lo, hi] |
| SellerPage.AverageSellerDelivery | dashboard/app_pages/dashboard-seller.py:54-60 | "N/A" exactly without a mean; hours/minutes in range; for a non-negative mean, whole days and the parts within one minute below the mean shipping days |
| SellerPage.LatestMonth | dashboard/app_pages/dashboard-seller.py:63 | the largest month present; NaN exactly when no row has a month |
| SellerPage.LatestMonthOnly | dashboard/app_pages/dashboard-seller.py:66 | `year_month >= max` keeps exactly the rows of the latest month |
| SellerPage.LatestMonthSplit | dashboard/app_pages/dashboard-seller.py:66-67 | the latest-month rows and the earlier rows together are the rows with a month |
| SellerPage.Cohorts | dashboard/app_pages/dashboard-seller.py:66-67 | the active count is the number of distinct sellers with a row in the latest month, the initial count those with a row in an earlier month; each at most its cohort's rows |
| SellerPage.SellerRetentionRate | dashboard/app_pages/dashboard-seller.py:68 | non-negative; 0 without initial sellers; 0 exactly when either cohort is empty; at most 100 when active <= initial |
| SellerPage.TopSellersByOrders | dashboard/app_pages/dashboard-seller.py:72-73 | top 5 (or all, when fewer) different sellers by order count, descending, no seller left out with more |
| SellerPage.TopSellersByProducts | dashboard/app_pages/dashboard-seller.py:85-86 | top 5 (or all, when fewer) different sellers by distinct products, descending, no seller left out with more |
| SellerPage.SellersByState | dashboard/app_pages/dashboard-seller.py:100 | distinct sellers per seller state over the date-filtered rows |
| ProductPage.NoKeysNoEntries | dashboard/app_pages/dashboard-product.py:42-44 | a per-category frame is empty exactly when no row has a category |
| ProductPage.TopSellingCategory | dashboard/app_pages/dashboard-product.py:42-46 | a category with the most orders and its count; an error (None) exactly when no row has a category |
| ProductPage.TopRatedCategory | dashboard/app_pages/dashboard-product.py:49-53 | a category with the highest mean score (NaN last); an error exactly when no row has a category |
| ProductPage.MostReviewedCategory | dashboard/app_pages/dashboard-product.py:56-60 | a category with the most review ids; an error exactly when no row has a category |
| ProductPage.TopCategoryItems | dashboard/app_pages/dashboard-product.py:64 | the 5 (or all, when fewer) different categories with the most order items, descending, none left out with more |
| ProductPage.TopCategories | dashboard/app_pages/dashboard-product.py:64 | exactly min(5, categories) different categories present, none left out with more items than one kept |
| ProductPage.KeptPairRows | dashboard/app_pages/dashboard-product.py:67 | narrowing to the listed categories keeps every row of a pair whose category is listed |
| ProductPage.TrendOfListed | dashboard/app_pages/dashboard-product.py:67-68 | the (month, category) pairs are exactly those of listed categories, each with its item count over all rows |
| ProductPage.MonthlySalesTrend | dashboard/app_pages/dashboard-product.py:67-68 | the trend holds exactly the (month, category) pairs of the top categories, with their item counts |
| ProductPage.TopCategoriesByRevenue | dashboard/app_pages/dashboard-product.py:83-84 | top 5 (or all, when fewer) different categories by revenue, descending, none left out earning more |
| ProductPage.TopProducts | dashboard/app_pages/dashboard-product.py:97-100 | top 5 (or all, when fewer) different products by order items, descending, none left out selling more |
| PaymentPage.AveragePayment | dashboard/app_pages/dashboard-payment.py:42 | NaN exactly when no filtered row has a payment value |
| PaymentPage.AveragePaymentWithin | dashboard/app_pages/dashboard-payment.py:42 | payments within [lo, hi] keep their mean within [lo, hi] |
| PaymentPage.AverageInstallments | dashboard/app_pages/dashboard-payment.py:50 | NaN exactly when no filtered row has installments |
| PaymentPage.AverageInstallmentsWithin | dashboard/app_pages/dashboard-payment.py:50 | installments within [lo, hi] keep their mean within [lo, hi] |
| PaymentPage.MostUsedMethod | dashboard/app_pages/dashboard-payment.py:45-47 | a method with the most rows; an error (None) exactly when no row has a method |
| PaymentPage.PaymentDistribution | dashboard/app_pages/dashboard-payment.py:54 | each method with its positive number of rows |
| PaymentPage.PaymentDistributionTotal | dashboard/app_pages/dashboard-payment.py:54 | the method counts add up to the rows with a method |
| PaymentPage.MonthlyRevenueTrend | dashboard/app_pages/dashboard-payment.py:65-66 | each (month, method) pair with the sum of its payments |
| PaymentPage.MonthlyRevenueTotal | dashboard/app_pages/dashboard-payment.py:65-66 | the monthly revenue adds up to the payments of rows with both a month and a method |
| PaymentPage.PaymentOptions | dashboard/app_pages/dashboard-payment.py:110 | each method of the date-filtered rows once |
| PaymentPage.SelectByMethod | dashboard/app_pages/dashboard-payment.py:114 | exactly the date-filtered rows whose method was chosen (NaN never matches) |
| PaymentPage.DefaultSelectionKeepsPaid | dashboard/app_pages/dashboard-payment.py:110-114 | the default choice drops exactly the rows without a method |
| PaymentPage.TotalsByState | dashboard/app_pages/dashboard-payment.py:117-118 | each state of the selected rows with the sum of its payments |
| PaymentPage.TotalsByStateTotal | dashboard/app_pages/dashboard-payment.py:117-118 | the state totals add up to all payments of the selected rows |
| ReviewPage.AverageReviewScore | dashboard/app_pages/dashboard-review.py:42 | NaN exactly when no filtered row has a score |
| ReviewPage.AverageReviewScoreWithin | dashboard/app_pages/dashboard-review.py:42 | scores within [lo, hi] keep their mean within [lo, hi] |
| ReviewPage.TotalReviews | dashboard/app_pages/dashboard-review.py:45 | the filtered rows with a score; 0 exactly when none has one |
| ReviewPage.SegmentOptions | dashboard/app_pages/dashboard-review.py:62 | each segment of the city/state rows once, NaN included |
| ReviewPage.SelectSegments | dashboard/app_pages/dashboard-review.py:67-68 | exactly the rows whose segment was chosen, NaN matching NaN |
| ReviewPage.DefaultSegmentsKeepAll | dashboard/app_pages/dashboard-review.py:62-67 | the default choice keeps every city/state row |
| ReviewPage.ScoreDistribution | dashboard/app_pages/dashboard-review.py:71 | each score of the chosen rows with its positive number of rows |
| ReviewPage.ScoreDistributionTotal | dashboard/app_pages/dashboard-review.py:71 | the score counts add up to the chosen rows with a score |
| ReviewPage.Comments | dashboard/app_pages/dashboard-review.py:86-89 | the comments of the chosen rows that are present and not "NoComment", in row order |
| ReviewPage.CommentText | dashboard/app_pages/dashboard-review.py:92 | empty without comments; otherwise the comments in row order, each at its start, one space after every comment but the last, and nothing else (by length) |
| ReviewPage.ReviewByState | dashboard/app_pages/dashboard-review.py:107 | mean score per state over the date-filtered rows of the chosen segments |
| ReviewPage.ReviewByStateWithin | dashboard/app_pages/dashboard-review.py:107 | scores within [lo, hi] keep every state's mean within [lo, hi] |

## Left out

- Streamlit widgets, layout, metrics, navigation and logos are not modelled. The sidebar's and multiselects' choices are parameters, and `st.rerun` is a returned flag.
- Plotly charts, choropleths, the GeoJSON fetched over the network, and matplotlib are not modelled, because they are display and network I/O.
- The word cloud (`WordCloud(...).generate`, `STOPWORDS`) is not modelled, because it is a foreign library. Only the joined text it receives is modelled.
- CSV loading, `pd.to_datetime` and `st.cache_data` are not modelled. Rows are given already parsed, with timestamps in whole seconds.
- The RFM scatter plot on the customer page only displays columns and computes nothing, so it is not modelled.
- Page scripts started without `cust_df` in the session crash, so that path is not modelled.
- `date_input` can return a one-date tuple while a range is being picked; the model always has two ends (possibly NaT).
- Table.Row: the order id, customer unique id, customer city, customer state and purchase timestamp are present on every row. The table is built around orders and their customers, so these columns are the join keys. pandas' handling of NaN in them is not modelled: NaN dropped from `unique()` and `nunique()`, a NaT purchase date failing both ends of the date mask, and NaN rows dropped from a group-by on city or state.
- Dates are compared as whole-second timestamps. A calendar date from the picker is taken as midnight of that day (Dashboard.Midnight). The picker returns calendar dates, so the pages end the range at midnight of the last day, not at the latest purchase. Dashboard.DefaultRangeKeepsAll is about the stored (min, max) default only. Dashboard.PickedDefaultDropsLastDay shows that the range the pages use drops a row exactly when the latest purchase is not at midnight. The picked dates differ from the stored timestamps, so the first run normally stores them and reruns. Because the model equates a date with its midnight, when the earliest and latest purchases both fall at midnight the picked default equals the stored one, and Dashboard.FirstRun asks for no rerun. The pages filter the same either way. Time zones are not modelled.
- Floating-point rounding, `.mean()` precision and f-string formatting (thousands separators, `.2f`, `.0f`, `.1f/5`) are not modelled. Values are exact reals.
- pandas orders a group-by result by its sorted keys and a `value_counts()` result by count, descending. The model keeps the order of first appearance. The keys and their values are the same.
- pandas breaks ties in `idxmax` and `nlargest` by position, and that position follows the group-by's key order (or the count order of `value_counts`). `sort_values` with its default quicksort leaves tied entries in no promised order. Because the model keeps first-appearance order, it cannot reproduce the tie-break. Ranking.TopN, Ranking.ArgMax, Ranking.ArgMaxSkipNaN and the members built on them state only that the chosen entries are maximal.
- Durations.SplitDaysNegative: for a negative mean of shipping days (carrier date before approval), `int()` truncates the days toward zero while `%` counts the hours up from the floor. The model reproduces this as written rather than correcting it.
- Dashboard.FilterSession.Run: the warning is a returned flag. The message text is not modelled.
