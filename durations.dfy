/**
 * The "XD XH XM" read-outs of the order and seller pages. Only the three
 * numbers are modelled; the f-string that prints them is not.
 */
module Durations {
  import opened Wrappers

  /** What a duration metric shows: "N/A", or days, hours and minutes. */
  datatype Duration = NotAvailable | Dhm(days: int, hours: int, minutes: int)

  /** Python's `x // d` on floats with d > 0: the floor of the quotient. */
  function FloorDiv(x: real, d: real): (q: int)
    requires d > 0.0
    ensures (q as real) * d <= x < (q as real) * d + d
  {
    FloorQuotientBounds(x, d);
    (x / d).Floor
  }

  /** The floor of x / d, scaled back by d, is at most x and more than x - d. */
  lemma FloorQuotientBounds(x: real, d: real)
    requires d > 0.0
    ensures ((x / d).Floor as real) * d <= x < ((x / d).Floor as real) * d + d
  {
    QuotientAbove(x, d, (x / d).Floor as real);
    QuotientBelow(x, d, (x / d).Floor as real + 1.0);
    assert ((x / d).Floor as real + 1.0) * d == ((x / d).Floor as real) * d + d;
  }

  lemma QuotientAbove(x: real, d: real, q: real)
    requires d > 0.0 && q <= x / d
    ensures q * d <= x
  {
    ScaleKeepsOrder(q, x / d, d);
  }

  lemma QuotientBelow(x: real, d: real, q: real)
    requires d > 0.0 && x / d < q
    ensures x < q * d
  {
    ScaleKeepsStrictOrder(x / d, q, d);
  }

  lemma ScaleKeepsOrder(a: real, b: real, c: real)
    requires a <= b && c > 0.0
    ensures a * c <= b * c
  {
  }

  lemma ScaleKeepsStrictOrder(a: real, b: real, c: real)
    requires a < b && c > 0.0
    ensures a * c < b * c
  {
  }

  /** Python's `x % d` on floats with d > 0: what is left after FloorDiv, in [0, d). */
  function FloorMod(x: real, d: real): (r: real)
    requires d > 0.0
    ensures 0.0 <= r < d
    ensures x == FloorDiv(x, d) as real * d + r
  {
    x - FloorDiv(x, d) as real * d
  }

  /** Python's `int(x)` on a float: the integer part, truncated toward zero. */
  function Trunc(x: real): (n: int)
    ensures x >= 0.0 ==> n == x.Floor
    ensures x < 0.0 ==> n == -((-x).Floor)
  {
    if x >= 0.0 then x.Floor else -((-x).Floor)
  }

  /**
   * A mean number of seconds split as `int(s // 86400)` days,
   * `int((s % 86400) // 3600)` hours and `int((s % 3600) // 60)` minutes: the
   * same as splitting its whole seconds, so hours are in 0..23, minutes in
   * 0..59, and the parts fall short of s by less than a minute.
   */
  function SplitSeconds(s: real): (d: Duration)
    ensures d == SplitWholeSeconds(s.Floor)
    ensures d.Dhm? && 0 <= d.hours <= 23 && 0 <= d.minutes <= 59
    ensures var total := (d.days * 86400 + d.hours * 3600 + d.minutes * 60) as real;
            total <= s < total + 60.0
  {
    SplitSecondsOfFloor(s);
    Dhm(FloorDiv(s, 86400.0), FloorDiv(FloorMod(s, 86400.0), 3600.0), FloorDiv(FloorMod(s, 3600.0), 60.0))
  }

  /** The same split on whole seconds with integer `//` and `%` (Dafny's / and % agree for a positive divisor). */
  function SplitWholeSeconds(n: int): (d: Duration)
    ensures d.Dhm? && 0 <= d.hours <= 23 && 0 <= d.minutes <= 59
    ensures d.days * 86400 + d.hours * 3600 + d.minutes * 60 <= n < d.days * 86400 + d.hours * 3600 + d.minutes * 60 + 60
  {
    Dhm(n / 86400, (n % 86400) / 3600, (n % 3600) / 60)
  }

  /** Each float part of the split equals the integer part of the whole seconds: the fraction never reaches a minute. */
  lemma SplitSecondsOfFloor(s: real)
    ensures FloorDiv(s, 86400.0) == s.Floor / 86400
    ensures FloorDiv(FloorMod(s, 86400.0), 3600.0) == (s.Floor % 86400) / 3600
    ensures FloorDiv(FloorMod(s, 3600.0), 60.0) == (s.Floor % 3600) / 60
  {
    var n := s.Floor;
    var f := s - n as real;
    assert 0.0 <= f < 1.0;
    assert FloorDiv(s, 86400.0) == n / 86400;
    assert FloorMod(s, 86400.0) == (n % 86400) as real + f;
    FloorOfIntPlusFraction(n % 86400, f, 3600);
    assert FloorDiv(s, 3600.0) == n / 3600;
    assert FloorMod(s, 3600.0) == (n % 3600) as real + f;
    FloorOfIntPlusFraction(n % 3600, f, 60);
  }

  /** Adding a fraction below 1 to a whole number of seconds does not change how many hours or minutes it holds. */
  lemma FloorOfIntPlusFraction(m: int, f: real, d: int)
    requires 0.0 <= f < 1.0 && (d == 3600 || d == 60)
    ensures FloorDiv(m as real + f, d as real) == m / d
  {
    var k := FloorDiv(m as real + f, d as real);
    if d == 3600 {
      assert k * 3600 <= m < k * 3600 + 3600;
    } else {
      assert k * 60 <= m < k * 60 + 60;
    }
  }

  /**
   * The processing-time and late-time read-outs: "N/A" when the mean is NaN,
   * and otherwise hours in 0..23, minutes in 0..59, and the days, hours and
   * minutes add up to the mean to within one minute.
   */
  function FormatSeconds(mean: Option<real>): (d: Duration)
    ensures d.NotAvailable? <==> mean.None?
    ensures d.Dhm? ==> 0 <= d.hours <= 23 && 0 <= d.minutes <= 59
    ensures d.Dhm? ==> var total := (d.days * 86400 + d.hours * 3600 + d.minutes * 60) as real;
                       total <= mean.value < total + 60.0
  {
    match mean
    case None => NotAvailable
    case Some(s) => SplitSeconds(s)
  }

  /**
   * A mean number of days split as `int(x)` days, `int((x % 1) * 24)` hours
   * and `int(((x % 1) * 24 % 1) * 60)` minutes: hours and minutes are always
   * in range, and for x >= 0 the days are its floor and the parts fall short
   * of x by less than a minute.
   */
  function SplitDays(x: real): (d: Duration)
    ensures d.Dhm? && 0 <= d.hours <= 23 && 0 <= d.minutes <= 59
    ensures x >= 0.0 ==> d.days == x.Floor &&
                         var total := d.days as real + d.hours as real / 24.0 + d.minutes as real / 1440.0;
                         total <= x < total + 1.0 / 1440.0
  {
    var h := FloorMod(x, 1.0) * 24.0;
    var m := FloorMod(h, 1.0) * 60.0;
    assert 0.0 <= h < 24.0;
    assert 0.0 <= m < 60.0;
    assert h == Trunc(h) as real + m / 60.0;
    assert m == Trunc(m) as real + (m - Trunc(m) as real);
    Dhm(Trunc(x), Trunc(h), Trunc(m))
  }

  /**
   * For a negative mean that is not whole, `int(x)` rounds the days toward
   * zero while the hours and minutes count up from the floor: the parts then
   * add up to one day more than x's floor.
   */
  lemma SplitDaysNegative(x: real)
    requires x < 0.0 && x != x.Floor as real
    ensures SplitDays(x).days == x.Floor + 1
  {
  }

  /**
   * The seller delivery read-out: "N/A" when the mean is NaN, the day split
   * otherwise; for a non-negative mean the days, hours and minutes fall short
   * of it by less than a minute.
   */
  function FormatDays(mean: Option<real>): (d: Duration)
    ensures d.NotAvailable? <==> mean.None?
    ensures d.Dhm? ==> 0 <= d.hours <= 23 && 0 <= d.minutes <= 59
    ensures d.Dhm? && mean.value >= 0.0 ==> d.days == mean.value.Floor
    ensures d.Dhm? && mean.value >= 0.0 ==>
              var total := d.days as real + d.hours as real / 24.0 + d.minutes as real / 1440.0;
              total <= mean.value < total + 1.0 / 1440.0
  {
    match mean
    case None => NotAvailable
    case Some(x) => SplitDays(x)
  }
}
