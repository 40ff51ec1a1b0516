/**
 * The entry script's filter state. The session holds a date range, a city and
 * a state; each is set to its default the first time the script runs, and all
 * three are replaced together (with a rerun) whenever the sidebar's choice
 * differs from what is stored. The widgets themselves are not modelled: the
 * choice read from them is a parameter.
 */
module Dashboard {
  import opened Wrappers
  import opened Series
  import opened Text
  import opened Table

  /** `order_purchase_timestamp.min()`: NaT (`None`) for an empty table. */
  function EarliestPurchase(rows: seq<Row>): (t: Option<int>)
    ensures t.None? <==> rows == []
    ensures t.Some? ==> exists i :: 0 <= i < |rows| && rows[i].purchaseTimestamp == t.value
    ensures t.Some? ==> forall i :: 0 <= i < |rows| ==> t.value <= rows[i].purchaseTimestamp
  {
    if rows == [] then None
    else
      var n := |rows| - 1;
      var rest := EarliestPurchase(rows[..n]);
      var last := rows[n].purchaseTimestamp;
      if rest.Some? && rest.value <= last then
        assert forall i :: 0 <= i < n ==> rows[..n][i] == rows[i];
        Some(rest.value)
      else
        assert forall i :: 0 <= i < n ==> rows[..n][i] == rows[i];
        Some(last)
  }

  /** `order_purchase_timestamp.max()`: NaT (`None`) for an empty table. */
  function LatestPurchase(rows: seq<Row>): (t: Option<int>)
    ensures t.None? <==> rows == []
    ensures t.Some? ==> exists i :: 0 <= i < |rows| && rows[i].purchaseTimestamp == t.value
    ensures t.Some? ==> forall i :: 0 <= i < |rows| ==> rows[i].purchaseTimestamp <= t.value
  {
    if rows == [] then None
    else
      var n := |rows| - 1;
      var rest := LatestPurchase(rows[..n]);
      var last := rows[n].purchaseTimestamp;
      if rest.Some? && last <= rest.value then
        assert forall i :: 0 <= i < n ==> rows[..n][i] == rows[i];
        Some(rest.value)
      else
        assert forall i :: 0 <= i < n ==> rows[..n][i] == rows[i];
        Some(last)
  }

  /** The default date range: from the earliest to the latest purchase in the table. */
  function DefaultRange(rows: seq<Row>): DateRange
  {
    DateRange(EarliestPurchase(rows), LatestPurchase(rows))
  }

  /** On a non-empty table the default range admits every row. */
  lemma DefaultRangeKeepsAll(rows: seq<Row>)
    ensures forall i :: 0 <= i < |rows| ==> InDateRange(DefaultRange(rows), rows[i])
  {
  }

  /** Seconds in a day. */
  const DaySeconds := 86400

  /**
   * `pd.to_datetime` of a calendar date from the date picker: midnight
   * starting the day the timestamp falls in.
   */
  function Midnight(t: int): (m: int)
    ensures m <= t < m + DaySeconds
    ensures m % DaySeconds == 0
  {
    t - t % DaySeconds
  }

  /** The range the pages filter with once the picker has turned the stored range into calendar dates. */
  function PickedRange(range: DateRange): DateRange
  {
    DateRange(
      if range.start.Some? then Some(Midnight(range.start.value)) else None,
      if range.end.Some? then Some(Midnight(range.end.value)) else None)
  }

  /**
   * The default range as the picker returns it ends at midnight of the last
   * day, so it drops some row exactly when the latest purchase is not itself
   * at midnight.
   */
  lemma PickedDefaultDropsLastDay(rows: seq<Row>)
    ensures (exists i :: 0 <= i < |rows| && !InDateRange(PickedRange(DefaultRange(rows)), rows[i]))
            <==> LatestPurchase(rows).Some? && LatestPurchase(rows).value % DaySeconds != 0
  {
    var latest := LatestPurchase(rows);
    if latest.Some? && latest.value % DaySeconds != 0 {
      var i :| 0 <= i < |rows| && rows[i].purchaseTimestamp == latest.value;
      assert !InDateRange(PickedRange(DefaultRange(rows)), rows[i]);
    }
  }

  /** The city of a row. */
  function CityOf(r: Row): string
  {
    r.customerCity
  }

  /** The state of a row. */
  function StateOf(r: Row): string
  {
    r.customerState
  }

  /** `["All"] + sorted(column.unique())`: "All" first, then each value once, ascending. */
  function Options(values: seq<string>): (opts: seq<string>)
    ensures |opts| >= 1 && opts[0] == All
    ensures StrictlyAscending(opts[1..])
    ensures forall v :: v in opts[1..] <==> v in values
  {
    [All] + SortedUnique(values)
  }

  /** The choices of the city box: "All", then every customer city of the table once, ascending. */
  function CityOptions(rows: seq<Row>): (opts: seq<string>)
    ensures |opts| >= 1 && opts[0] == All
    ensures StrictlyAscending(opts[1..])
    ensures forall c :: c in opts[1..] <==> exists i :: 0 <= i < |rows| && rows[i].customerCity == c
  {
    var cities := Col(rows, CityOf);
    assert forall c :: c in cities <==> exists i :: 0 <= i < |rows| && rows[i].customerCity == c;
    Options(cities)
  }

  /** The choices of the state box: "All", then every customer state of the table once, ascending. */
  function StateOptions(rows: seq<Row>): (opts: seq<string>)
    ensures |opts| >= 1 && opts[0] == All
    ensures StrictlyAscending(opts[1..])
    ensures forall s :: s in opts[1..] <==> exists i :: 0 <= i < |rows| && rows[i].customerState == s
  {
    var states := Col(rows, StateOf);
    assert forall s :: s in states <==> exists i :: 0 <= i < |rows| && rows[i].customerState == s;
    Options(states)
  }

  /**
   * The change rule: when the choice differs from the stored selection in the
   * range, the city or the state, all three are stored and a rerun is asked
   * for; otherwise nothing changes and the script goes on. Either way the
   * stored selection ends up equal to the choice.
   */
  function Update(stored: Selection, chosen: Selection): (r: (Selection, bool))
    ensures r.1 <==> stored.range != chosen.range || stored.city != chosen.city || stored.state != chosen.state
    ensures r.1 ==> r.0 == chosen
    ensures !r.1 ==> r.0 == stored
  {
    if stored.range != chosen.range || stored.city != chosen.city || stored.state != chosen.state then
      (chosen, true)
    else
      (stored, false)
  }

  /** Updating twice with the same choice is updating once, and the second time asks for no rerun. */
  lemma UpdateIdempotent(stored: Selection, chosen: Selection)
    ensures Update(Update(stored, chosen).0, chosen) == (Update(stored, chosen).0, false)
    ensures Update(stored, chosen).0 == chosen
  {
  }

  /** A stored value once set, or else its default. */
  function OrDefault<T>(v: Option<T>, default: T): (r: T)
    ensures v.Some? ==> r == v.value
    ensures v.None? ==> r == default
  {
    if v.Some? then v.value else default
  }

  /** The three session values the sidebar works with. */
  class FilterSession {
    var dateRange: Option<DateRange>
    var city: Option<string>
    var state: Option<string>

    /** A new session has none of the three keys. */
    constructor()
      ensures dateRange.None? && city.None? && state.None?
    {
      dateRange, city, state := None, None, None;
    }

    /** All three keys are set. */
    predicate Ready()
      reads this
    {
      dateRange.Some? && city.Some? && state.Some?
    }

    /** The stored selection. */
    function Stored(): Selection
      reads this
      requires Ready()
    {
      Selection(dateRange.value, city.value, state.value)
    }

    /**
     * First-run defaults: each key that is not yet set gets its default (the
     * table's purchase range, "All", "All"); a key already set keeps its value.
     */
    method InitDefaults(rows: seq<Row>)
      modifies this
      ensures Ready()
      ensures Stored() == Selection(OrDefault(old(dateRange), DefaultRange(rows)), OrDefault(old(city), All), OrDefault(old(state), All))
    {
      if dateRange.None? {
        dateRange := Some(DefaultRange(rows));
      }
      if city.None? {
        city := Some(All);
      }
      if state.None? {
        state := Some(All);
      }
    }

    /** The change rule applied to the session. */
    method Apply(chosen: Selection) returns (rerun: bool)
      requires Ready()
      modifies this
      ensures Ready()
      ensures (Stored(), rerun) == Update(old(Stored()), chosen)
    {
      if dateRange.value != chosen.range || city.value != chosen.city || state.value != chosen.state {
        dateRange, city, state := Some(chosen.range), Some(chosen.city), Some(chosen.state);
        rerun := true;
      } else {
        rerun := false;
      }
    }

    /**
     * One run of the entry script with the sidebar's choice: set the
     * defaults, warn when both a city and a state are chosen (the choice is
     * neither rejected nor altered), then apply the change rule.
     */
    method Run(rows: seq<Row>, chosen: Selection) returns (warn: bool, rerun: bool)
      modifies this
      ensures warn <==> chosen.city != All && chosen.state != All
      ensures Ready() && Stored() == chosen
      ensures rerun <==> chosen != Selection(OrDefault(old(dateRange), DefaultRange(rows)), OrDefault(old(city), All), OrDefault(old(state), All))
    {
      InitDefaults(rows);
      warn := chosen.city != All && chosen.state != All;
      rerun := Apply(chosen);
    }

    /**
     * What a page reads: the stored range, and the city and state with "All"
     * for a missing key. Without a stored range the page cannot index it;
     * that is `None`.
     */
    function PageSelection(): (sel: Option<Selection>)
      reads this
      ensures sel.None? <==> dateRange.None?
      ensures sel.Some? ==> sel.value.range == dateRange.value
      ensures sel.Some? ==> sel.value.city == OrDefault(city, All) && sel.value.state == OrDefault(state, All)
    {
      if dateRange.None? then None
      else Some(Selection(dateRange.value, OrDefault(city, All), OrDefault(state, All)))
    }
  }

  /** After a run on a fresh session, every page filters with what was chosen. */
  method FirstRun(rows: seq<Row>, chosen: Selection) returns (sel: Option<Selection>, rerun: bool)
    ensures sel == Some(chosen)
    ensures rerun <==> chosen != Selection(DefaultRange(rows), All, All)
  {
    var session := new FilterSession();
    var warn;
    warn, rerun := session.Run(rows, chosen);
    sel := session.PageSelection();
  }
}
