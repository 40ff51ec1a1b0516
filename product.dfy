/**
 * The products page: the category with the most orders, the best rated and
 * the most reviewed category, the five categories that sold the most items
 * and their monthly sales, and the five categories and products with the
 * highest revenue and sales.
 */
module ProductPage {
  import opened Wrappers
  import opened Series
  import opened Ranking
  import opened Measures
  import opened Table

  /** A category's number of rows with an order id, `groupby(category)[order_id].count()`. */
  function OrdersIn(rows: seq<Row>): string -> real
  {
    (c: string) => Count(Col(RowsWith(rows, CategoryKey, c), OrderIdKey)) as real
  }

  /** A category's number of rows with a review id. */
  function ReviewsIn(rows: seq<Row>): string -> real
  {
    (c: string) => Count(Col(RowsWith(rows, CategoryKey, c), ReviewIdKey)) as real
  }

  /** A category's number of rows with an order item, `groupby(category)[order_item_id].count()`. */
  function ItemsIn(rows: seq<Row>): string -> real
  {
    (c: string) => Count(Col(RowsWith(rows, CategoryKey, c), OrderItemKey)) as real
  }

  /** A category's revenue, `groupby(category)[payment_value].sum()`. */
  function RevenueIn(rows: seq<Row>): string -> real
  {
    (c: string) => Sum(Col(RowsWith(rows, CategoryKey, c), PaymentValue))
  }

  /** A product's number of rows with an order item. */
  function ItemsOf(rows: seq<Row>): string -> real
  {
    (p: string) => Count(Col(RowsWith(rows, ProductKey, p), OrderItemKey)) as real
  }

  /** The frame has no entry exactly when no row has a key. */
  lemma NoKeysNoEntries<K>(rows: seq<Row>, key: Row -> Option<string>, e: seq<(string, K)>)
    requires KeysOf(e) == Keys(Col(rows, key))
    ensures e == [] <==> forall i :: 0 <= i < |rows| ==> key(rows[i]).None?
  {
    var n := DistinctCount(rows, key);
    assert |e| == |KeysOf(e)|;
  }

  /**
   * The best-selling category: a category with the most orders and its
   * count; `None` (pandas raises an error) exactly when no filtered row has
   * a category.
   */
  function TopSellingCategory(f: Filtered): (r: Option<(string, real)>)
    ensures r.None? <==> forall i :: 0 <= i < |f.cityState| ==> f.cityState[i].productCategory.None?
    ensures r.Some? ==> IsBest(r.value, Keys(Col(f.cityState, CategoryKey)), OrdersIn(f.cityState))
  {
    var e := CountValuesByKey(f.cityState, CategoryKey, OrderIdKey);
    NoKeysNoEntries(f.cityState, CategoryKey, e);
    BestOf(e, OrdersIn(f.cityState))
  }

  /**
   * The top rated category: a category with the highest mean review score
   * (a category without scores ranks last) and that mean; `None` exactly
   * when no filtered row has a category.
   */
  function TopRatedCategory(f: Filtered): (r: Option<(string, Option<real>)>)
    ensures r.None? <==> forall i :: 0 <= i < |f.cityState| ==> f.cityState[i].productCategory.None?
    ensures r.Some? ==> IsBestSkipNaN(r.value, Keys(Col(f.cityState, CategoryKey)), MeanOf(f.cityState, CategoryKey, ReviewScore))
  {
    BestMean(f.cityState, CategoryKey, ReviewScore)
  }

  /**
   * The most reviewed category: a category with the most review ids and
   * its count; `None` exactly when no filtered row has a category.
   */
  function MostReviewedCategory(f: Filtered): (r: Option<(string, real)>)
    ensures r.None? <==> forall i :: 0 <= i < |f.cityState| ==> f.cityState[i].productCategory.None?
    ensures r.Some? ==> IsBest(r.value, Keys(Col(f.cityState, CategoryKey)), ReviewsIn(f.cityState))
  {
    var e := CountValuesByKey(f.cityState, CategoryKey, ReviewIdKey);
    NoKeysNoEntries(f.cityState, CategoryKey, e);
    BestOf(e, ReviewsIn(f.cityState))
  }

  /** The five categories that sold the most items, with their item counts, ranked. */
  function TopCategoryItems(f: Filtered): (r: seq<(string, real)>)
    ensures Ranked(r, Keys(Col(f.cityState, CategoryKey)), 5, ItemsIn(f.cityState))
  {
    TopOf(CountValuesByKey(f.cityState, CategoryKey, OrderItemKey), 5, ItemsIn(f.cityState))
  }

  /** `nlargest(5).index`: the names of those five categories, as ranked. */
  function TopCategories(f: Filtered): (top: seq<string>)
    ensures |top| == if 5 < |Keys(Col(f.cityState, CategoryKey))| then 5 else |Keys(Col(f.cityState, CategoryKey))|
    ensures Distinct(top)
    ensures forall c :: c in top ==> c in Keys(Col(f.cityState, CategoryKey))
    ensures forall c, d :: c in Keys(Col(f.cityState, CategoryKey)) && c !in top && d in top ==> ItemsIn(f.cityState)(c) <= ItemsIn(f.cityState)(d)
  {
    var r := TopCategoryItems(f);
    RankedKeys(r, Keys(Col(f.cityState, CategoryKey)), 5, ItemsIn(f.cityState));
    KeysOf(r)
  }

  /** The mask `category.isin(top)`: a missing category is in no list. */
  function InCategories(top: seq<string>): Row -> bool
  {
    (x: Row) => x.productCategory.Some? && x.productCategory.value in top
  }

  /** The pair key (year_month, category) of a two-column groupby; missing when either part is. */
  function MonthCategory(r: Row): Option<(int, string)>
  {
    if r.yearMonth.Some? && r.productCategory.Some? then Some((r.yearMonth.value, r.productCategory.value)) else None
  }

  /** Narrowing to the listed categories keeps every row of a pair whose category is listed. */
  lemma KeptPairRows(rows: seq<Row>, top: seq<string>, k: (int, string))
    requires k.1 in top
    ensures RowsWith(Where(rows, InCategories(top)), MonthCategory, k) == RowsWith(rows, MonthCategory, k)
  {
    var pair := KeyIs(MonthCategory, k);
    forall i | 0 <= i < |rows| ensures pair(rows[i]) == (InCategories(top)(rows[i]) && pair(rows[i])) {
      if pair(rows[i]) {
        assert MonthCategory(rows[i]) == Some(k);
      }
    }
    WhereThen(rows, InCategories(top), pair, pair);
  }

  /**
   * The item counts per (month, category) over the rows of the listed
   * categories: the pairs are exactly those of the rows whose category is
   * listed, and each count is that of all rows holding the pair.
   */
  lemma TrendOfListed(rows: seq<Row>, top: seq<string>)
    ensures var e := CountValuesByKey(Where(rows, InCategories(top)), MonthCategory, OrderItemKey);
            forall k: (int, string) :: k in KeysOf(e) <==> k.1 in top && Some(k) in Col(rows, MonthCategory)
    ensures var e := CountValuesByKey(Where(rows, InCategories(top)), MonthCategory, OrderItemKey);
            forall i :: 0 <= i < |e| ==> e[i].1 == Count(Col(RowsWith(rows, MonthCategory, e[i].0), OrderItemKey))
  {
    var kept := Where(rows, InCategories(top));
    var e := CountValuesByKey(kept, MonthCategory, OrderItemKey);
    forall k: (int, string) | k in KeysOf(e) ensures k.1 in top && Some(k) in Col(rows, MonthCategory) {
      var j :| 0 <= j < |kept| && Col(kept, MonthCategory)[j] == Some(k);
      assert kept[j] in kept;
      var m :| 0 <= m < |rows| && rows[m] == kept[j];
    }
    forall k: (int, string) | k.1 in top && Some(k) in Col(rows, MonthCategory) ensures k in KeysOf(e) {
      var m :| 0 <= m < |rows| && Col(rows, MonthCategory)[m] == Some(k);
      assert rows[m] in rows;
      var j :| 0 <= j < |kept| && kept[j] == rows[m];
      assert Col(kept, MonthCategory)[j] == Some(k);
    }
    forall i | 0 <= i < |e| ensures e[i].1 == Count(Col(RowsWith(rows, MonthCategory, e[i].0), OrderItemKey)) {
      assert e[i].0 in KeysOf(e);
      KeptPairRows(rows, top, e[i].0);
    }
  }

  /**
   * The monthly sales of the five top categories: one entry per (month,
   * category) pair of the filtered rows whose category is among the five,
   * with the number of order items of the rows holding that pair.
   */
  function MonthlySalesTrend(f: Filtered): (e: seq<((int, string), nat)>)
    ensures forall k: (int, string) :: k in KeysOf(e) <==> k.1 in TopCategories(f) && Some(k) in Col(f.cityState, MonthCategory)
    ensures forall i :: 0 <= i < |e| ==> e[i].1 == Count(Col(RowsWith(f.cityState, MonthCategory, e[i].0), OrderItemKey))
  {
    TrendOfListed(f.cityState, TopCategories(f));
    CountValuesByKey(Where(f.cityState, InCategories(TopCategories(f))), MonthCategory, OrderItemKey)
  }

  /** The five categories with the highest revenue, with their revenue, ranked. */
  function TopCategoriesByRevenue(f: Filtered): (r: seq<(string, real)>)
    ensures Ranked(r, Keys(Col(f.cityState, CategoryKey)), 5, RevenueIn(f.cityState))
  {
    var e := SumByKey(f.cityState, CategoryKey, PaymentValue);
    assert ScoredBy(e, RevenueIn(f.cityState));
    TopBy(e, 5, RevenueIn(f.cityState))
  }

  /** The five products that sold the most items, with their item counts, ranked. */
  function TopProducts(f: Filtered): (r: seq<(string, real)>)
    ensures Ranked(r, Keys(Col(f.cityState, ProductKey)), 5, ItemsOf(f.cityState))
  {
    TopOf(CountValuesByKey(f.cityState, ProductKey, OrderItemKey), 5, ItemsOf(f.cityState))
  }
}
