/**
 * The pandas operations the dashboard pages apply to a filtered frame, over
 * sequences. A frame is a `seq` of rows, a column is a `seq<Option<T>>` (a
 * missing value is `None`), and a group-by result is the two-column frame that
 * `reset_index()` produces: a sequence of (key, value) pairs with distinct keys.
 * Groups are listed in order of first appearance; pandas sorts them, which only
 * changes the order in which a chart draws them.
 */
module Series {
  import opened Wrappers

  /** `df[mask]`: the elements that satisfy `keep`, in their original order. */
  function Where<T(!new)>(s: seq<T>, keep: T -> bool): (r: seq<T>)
    ensures |r| <= |s|
    ensures forall x :: x in r <==> x in s && keep(x)
  {
    if s == [] then []
    else
      var init := Where(s[..|s| - 1], keep);
      assert s == s[..|s| - 1] + [s[|s| - 1]];
      if keep(s[|s| - 1]) then init + [s[|s| - 1]] else init
  }

  /** A mask keeps concatenated frames piecewise: filtering never reorders rows. */
  lemma {:induction false} WhereConcat<T(!new)>(a: seq<T>, b: seq<T>, keep: T -> bool)
    ensures Where(a + b, keep) == Where(a, keep) + Where(b, keep)
    decreases |b|
  {
    if b == [] {
      assert a + b == a;
    } else {
      var b' := b[..|b| - 1];
      assert (a + b)[..|a + b| - 1] == a + b';
      WhereConcat(a, b', keep);
    }
  }

  /** Filtering with one mask and then another is filtering with both at once. */
  lemma {:induction false} WhereWhere<T(!new)>(s: seq<T>, p: T -> bool, q: T -> bool)
    ensures Where(Where(s, p), q) == Where(s, x => p(x) && q(x))
    decreases |s|
  {
    if s != [] {
      var init := s[..|s| - 1];
      WhereWhere(init, p, q);
      var last := s[|s| - 1];
      if p(last) {
        assert Where(s, p) == Where(init, p) + [last];
        assert (Where(init, p) + [last])[..|Where(init, p)|] == Where(init, p);
      }
    }
  }

  /** A mask that every element passes keeps the whole frame. */
  lemma {:induction false} WhereAll<T(!new)>(s: seq<T>, keep: T -> bool)
    requires forall i :: 0 <= i < |s| ==> keep(s[i])
    ensures Where(s, keep) == s
    decreases |s|
  {
    if s != [] {
      WhereAll(s[..|s| - 1], keep);
      assert s == s[..|s| - 1] + [s[|s| - 1]];
    }
  }

  /** Two masks that no element passes together select at most |s| elements between them. */
  lemma {:induction false} WhereDisjoint<T(!new)>(s: seq<T>, p: T -> bool, q: T -> bool)
    requires forall i :: 0 <= i < |s| ==> !(p(s[i]) && q(s[i]))
    ensures |Where(s, p)| + |Where(s, q)| <= |s|
    decreases |s|
  {
    if s != [] {
      WhereDisjoint(s[..|s| - 1], p, q);
    }
  }

  /** Two masks that never hold together and between them make up a third split what the third keeps. */
  lemma {:induction false} WherePartition<T(!new)>(s: seq<T>, p: T -> bool, q: T -> bool, either: T -> bool)
    requires forall i :: 0 <= i < |s| ==> !(p(s[i]) && q(s[i]))
    requires forall i :: 0 <= i < |s| ==> either(s[i]) == (p(s[i]) || q(s[i]))
    ensures |Where(s, p)| + |Where(s, q)| == |Where(s, either)|
    decreases |s|
  {
    if s != [] {
      WherePartition(s[..|s| - 1], p, q, either);
    }
  }

  /** Filtering by p and then by q is filtering by any mask that holds exactly where both do. */
  lemma WhereThen<T(!new)>(s: seq<T>, p: T -> bool, q: T -> bool, both: T -> bool)
    requires forall i :: 0 <= i < |s| ==> both(s[i]) == (p(s[i]) && q(s[i]))
    ensures Where(Where(s, p), q) == Where(s, both)
  {
    WhereWhere(s, p, q);
    WhereSame(s, x => p(x) && q(x), both);
  }

  /** Two masks that agree on every element keep the same elements. */
  lemma {:induction false} WhereSame<T(!new)>(s: seq<T>, p: T -> bool, q: T -> bool)
    requires forall i :: 0 <= i < |s| ==> p(s[i]) == q(s[i])
    ensures Where(s, p) == Where(s, q)
    decreases |s|
  {
    if s != [] {
      WhereSame(s[..|s| - 1], p, q);
    }
  }

  /** `df["column"]`: one value per row. */
  function Col<R, T>(rows: seq<R>, f: R -> T): (c: seq<T>)
    ensures |c| == |rows|
    ensures forall i :: 0 <= i < |rows| ==> c[i] == f(rows[i])
  {
    seq(|rows|, i requires 0 <= i < |rows| => f(rows[i]))
  }

  /** `Series.count()`: the number of non-missing values. */
  function Count<T>(s: seq<Option<T>>): (n: nat)
    ensures n <= |s|
  {
    if s == [] then 0
    else Count(s[..|s| - 1]) + (if s[|s| - 1].Some? then 1 else 0)
  }

  /** The count is 0 exactly when every value is missing. */
  lemma {:induction false} CountZero<T>(s: seq<Option<T>>)
    ensures Count(s) == 0 <==> forall i :: 0 <= i < |s| ==> s[i].None?
    decreases |s|
  {
    if s != [] {
      CountZero(s[..|s| - 1]);
    }
  }

  /** The count is the length exactly when no value is missing. */
  lemma {:induction false} CountFull<T>(s: seq<Option<T>>)
    ensures Count(s) == |s| <==> forall i :: 0 <= i < |s| ==> s[i].Some?
    decreases |s|
  {
    if s != [] {
      CountFull(s[..|s| - 1]);
    }
  }

  /** The number of entries equal to `Some(k)`. */
  function Occurrences<T(==,!new)>(s: seq<Option<T>>, k: T): (n: nat)
    ensures n <= Count(s)
    ensures n > 0 <==> Some(k) in s
  {
    if s == [] then 0
    else
      assert s == s[..|s| - 1] + [s[|s| - 1]];
      Occurrences(s[..|s| - 1], k) + (if s[|s| - 1] == Some(k) then 1 else 0)
  }

  /** No value occurs twice. */
  predicate Distinct<T(==,!new)>(ks: seq<T>)
  {
    forall i, j :: 0 <= i < j < |ks| ==> ks[i] != ks[j]
  }

  /** `Series.dropna().unique()`: each non-missing value once, in order of first appearance. */
  function Keys<T(==,!new)>(s: seq<Option<T>>): (ks: seq<T>)
    ensures Distinct(ks)
    ensures forall k :: k in ks <==> Some(k) in s
    ensures |ks| <= Count(s)
  {
    if s == [] then []
    else
      var ks := Keys(s[..|s| - 1]);
      assert s == s[..|s| - 1] + [s[|s| - 1]];
      match s[|s| - 1]
      case None => ks
      case Some(k) => if k in ks then ks else ks + [k]
  }

  /** `Series.unique()`: each value once, a missing value included, in order of first appearance. */
  function Unique<T(==,!new)>(s: seq<T>): (u: seq<T>)
    ensures Distinct(u)
    ensures forall x :: x in u <==> x in s
  {
    if s == [] then []
    else
      var u := Unique(s[..|s| - 1]);
      assert s == s[..|s| - 1] + [s[|s| - 1]];
      if s[|s| - 1] in u then u else u + [s[|s| - 1]]
  }

  /** `Series.nunique()`: the number of distinct non-missing values. */
  function NUnique<T(==,!new)>(s: seq<Option<T>>): nat
  {
    |Keys(s)|
  }

  /** There are never more distinct values than non-missing values, nor than rows. */
  lemma NUniqueBound<T(!new)>(s: seq<Option<T>>)
    ensures NUnique(s) <= Count(s) <= |s|
    ensures NUnique(s) == 0 <==> Count(s) == 0
  {
  }

  /** The sum of the counts of a (key, count) frame. */
  function TotalCount<K>(e: seq<(K, nat)>): nat
  {
    if e == [] then 0 else TotalCount(e[..|e| - 1]) + e[|e| - 1].1
  }

  /** (k, Occurrences(s, k)) for each k of ks. */
  function Tally<T(==,!new)>(s: seq<Option<T>>, ks: seq<T>): (e: seq<(T, nat)>)
    ensures |e| == |ks|
    ensures forall i :: 0 <= i < |ks| ==> e[i] == (ks[i], Occurrences(s, ks[i]))
  {
    seq(|ks|, i requires 0 <= i < |ks| => (ks[i], Occurrences(s, ks[i])))
  }

  /**
   * `Series.value_counts()` (and `groupby(column).size()`): each distinct
   * non-missing value with the number of rows holding it.
   */
  function ValueCounts<T(==,!new)>(s: seq<Option<T>>): (e: seq<(T, nat)>)
    ensures |e| == NUnique(s)
    ensures forall i :: 0 <= i < |e| ==> e[i].1 > 0 && Some(e[i].0) in s
    ensures forall k :: Some(k) in s ==> exists i :: 0 <= i < |e| && e[i].0 == k
    ensures forall i, j :: 0 <= i < j < |e| ==> e[i].0 != e[j].0
    ensures KeysOf(e) == Keys(s)
  {
    var ks := Keys(s);
    var e := Tally(s, ks);
    assert forall k :: Some(k) in s ==> k in ks && exists i :: 0 <= i < |ks| && ks[i] == k;
    e
  }

  /** Each count is the number of rows holding that value. */
  lemma ValueCountsExact<T(!new)>(s: seq<Option<T>>, i: nat)
    requires i < |ValueCounts(s)|
    ensures ValueCounts(s)[i].1 == Occurrences(s, ValueCounts(s)[i].0)
  {
  }

  /** The counts of `value_counts()` add up to the number of non-missing values. */
  lemma ValueCountsTotal<T(!new)>(s: seq<Option<T>>)
    ensures TotalCount(ValueCounts(s)) == Count(s)
  {
    TallyTotal(s, Keys(s));
    KeysTotal(s);
  }

  /** Σ over ks of Occurrences(s, k). */
  function SumOccurrences<T(==,!new)>(s: seq<Option<T>>, ks: seq<T>): nat
  {
    if ks == [] then 0 else SumOccurrences(s, ks[..|ks| - 1]) + Occurrences(s, ks[|ks| - 1])
  }

  lemma {:induction false} TallyTotal<T(!new)>(s: seq<Option<T>>, ks: seq<T>)
    ensures TotalCount(Tally(s, ks)) == SumOccurrences(s, ks)
    decreases |ks|
  {
    if ks != [] {
      var ks' := ks[..|ks| - 1];
      assert Tally(s, ks)[..|ks| - 1] == Tally(s, ks');
      TallyTotal(s, ks');
    }
  }

  /** Appending one entry to the column adds one to the count of its value, if that value is among ks. */
  lemma {:induction false} SumOccurrencesAppend<T(!new)>(s: seq<Option<T>>, x: Option<T>, ks: seq<T>)
    requires Distinct(ks)
    ensures SumOccurrences(s + [x], ks)
         == SumOccurrences(s, ks) + (if x.Some? && x.value in ks then 1 else 0)
    decreases |ks|
  {
    assert (s + [x])[..|s|] == s;
    if ks != [] {
      var ks' := ks[..|ks| - 1];
      SumOccurrencesAppend(s, x, ks');
      assert ks == ks' + [ks[|ks| - 1]];
    }
  }

  lemma {:induction false} KeysTotal<T(!new)>(s: seq<Option<T>>)
    ensures SumOccurrences(s, Keys(s)) == Count(s)
    decreases |s|
  {
    if s != [] {
      var t, x := s[..|s| - 1], s[|s| - 1];
      assert s == t + [x];
      KeysTotal(t);
      var ks := Keys(t);
      SumOccurrencesAppend(t, x, ks);
      if x.Some? && x.value !in ks {
        assert Keys(s) == ks + [x.value];
        assert (ks + [x.value])[..|ks|] == ks;
        assert Occurrences(t, x.value) == 0;
      }
    }
  }

  /** `Series.sum()` of a numeric column: missing values are skipped, so an empty sum is 0. */
  function Sum(s: seq<Option<real>>): real
  {
    if s == [] then 0.0
    else Sum(s[..|s| - 1]) + (if s[|s| - 1].Some? then s[|s| - 1].value else 0.0)
  }

  /** A sum of values that are all at most hi is at most count·hi. */
  lemma {:induction false} SumAtMost(s: seq<Option<real>>, hi: real)
    requires forall i :: 0 <= i < |s| && s[i].Some? ==> s[i].value <= hi
    ensures Sum(s) <= Count(s) as real * hi
    decreases |s|
  {
    if s != [] {
      var t := s[..|s| - 1];
      assert forall i :: 0 <= i < |t| ==> t[i] == s[i];
      SumAtMost(t, hi);
      if s[|s| - 1].Some? {
        AddAtMost(Count(t) as real, Sum(t), s[|s| - 1].value, hi);
      }
    }
  }

  /** A sum of values that are all at least lo is at least count·lo. */
  lemma {:induction false} SumAtLeast(s: seq<Option<real>>, lo: real)
    requires forall i :: 0 <= i < |s| && s[i].Some? ==> lo <= s[i].value
    ensures Count(s) as real * lo <= Sum(s)
    decreases |s|
  {
    if s != [] {
      var t := s[..|s| - 1];
      assert forall i :: 0 <= i < |t| ==> t[i] == s[i];
      SumAtLeast(t, lo);
      if s[|s| - 1].Some? {
        AddAtLeast(Count(t) as real, Sum(t), s[|s| - 1].value, lo);
      }
    }
  }

  lemma AddAtMost(c: real, a: real, v: real, hi: real)
    requires a <= c * hi && v <= hi
    ensures a + v <= (c + 1.0) * hi
  {
  }

  lemma AddAtLeast(c: real, a: real, v: real, lo: real)
    requires c * lo <= a && lo <= v
    ensures (c + 1.0) * lo <= a + v
  {
  }

  /** `Series.mean()`: the sum over the count of the non-missing values, NaN (None) when there are none. */
  function Mean(s: seq<Option<real>>): (m: Option<real>)
    ensures m.None? <==> Count(s) == 0
  {
    if Count(s) == 0 then None else Some(Sum(s) / Count(s) as real)
  }

  /** A mean of values that all lie in [lo, hi] lies in [lo, hi]. */
  lemma MeanBounds(s: seq<Option<real>>, lo: real, hi: real)
    requires forall i :: 0 <= i < |s| && s[i].Some? ==> lo <= s[i].value <= hi
    requires Count(s) > 0
    ensures lo <= Mean(s).value <= hi
  {
    SumAtLeast(s, lo);
    SumAtMost(s, hi);
    MeanWithin(s, lo, hi);
  }

  /** A mean of values that are all at least lo is at least lo. */
  lemma MeanAtLeast(s: seq<Option<real>>, lo: real)
    requires forall i :: 0 <= i < |s| && s[i].Some? ==> lo <= s[i].value
    requires Count(s) > 0
    ensures lo <= Mean(s).value
  {
    SumAtLeast(s, lo);
    MeanFromSum(s, lo);
  }

  lemma MeanFromSum(s: seq<Option<real>>, lo: real)
    requires Count(s) > 0 && Count(s) as real * lo <= Sum(s)
    ensures lo <= Mean(s).value
  {
    QuotientAtLeast(Sum(s), Count(s) as real, lo);
  }

  /** c·lo <= a with c > 0 gives lo <= a / c. */
  lemma QuotientAtLeast(a: real, c: real, lo: real)
    requires c > 0.0 && c * lo <= a
    ensures lo <= a / c
  {
    var m := a / c;
    assert m * c == a;
    CancelPositive(m, lo, c);
  }

  lemma MeanWithin(s: seq<Option<real>>, lo: real, hi: real)
    requires Count(s) > 0
    requires Count(s) as real * lo <= Sum(s) <= Count(s) as real * hi
    ensures lo <= Mean(s).value <= hi
  {
    QuotientBounds(Sum(s), Count(s) as real, lo, hi);
  }

  /** c·lo <= a <= c·hi with c > 0 gives lo <= a / c <= hi. */
  lemma QuotientBounds(a: real, c: real, lo: real, hi: real)
    requires c > 0.0
    requires c * lo <= a <= c * hi
    ensures lo <= a / c <= hi
  {
    var m := a / c;
    assert m * c == a;
    CancelPositive(m, lo, c);
    CancelPositive(hi, m, c);
  }

  /**
   * One count as a percentage of a positive other: never negative, 0 exactly
   * for a zero count, and at most 100 when the count is at most the other.
   */
  lemma Percentage(part: nat, whole: nat)
    requires whole > 0
    ensures 0.0 <= (part as real / whole as real) * 100.0
    ensures (part as real / whole as real) * 100.0 == 0.0 <==> part == 0
    ensures part <= whole ==> (part as real / whole as real) * 100.0 <= 100.0
  {
    assert (part as real / whole as real) * whole as real == part as real;
    if part <= whole {
      QuotientBounds(part as real, whole as real, 0.0, 1.0);
    } else {
      QuotientAtLeast(part as real, whole as real, 0.0);
    }
  }

  lemma CancelPositive(x: real, y: real, c: real)
    requires c > 0.0 && x * c >= y * c
    ensures x >= y
  {
  }

  /** The values of `vals` on the rows whose key is `Some(k)`: one group of `groupby(keys)[vals]`. */
  function Group<K(==,!new), V>(keys: seq<Option<K>>, vals: seq<Option<V>>, k: K): (g: seq<Option<V>>)
    requires |keys| == |vals|
    ensures |g| == Occurrences(keys, k)
    ensures forall v :: v in g ==> exists i :: 0 <= i < |keys| && keys[i] == Some(k) && vals[i] == v
  {
    if keys == [] then []
    else
      var n := |keys| - 1;
      var g := Group(keys[..n], vals[..n], k);
      if keys[n] == Some(k) then g + [vals[n]] else g
  }

  /** The mask `key == k`. */
  function KeyIs<R, K(==)>(key: R -> Option<K>, k: K): R -> bool
  {
    (x: R) => key(x) == Some(k)
  }

  /** The rows whose key is k, in their original order. */
  function RowsWith<R(!new), K(==)>(rows: seq<R>, key: R -> Option<K>, k: K): (r: seq<R>)
    ensures forall x :: x in r <==> x in rows && key(x) == Some(k)
  {
    Where(rows, KeyIs(key, k))
  }

  /** One group of `groupby(key)[val]` is the `val` column of the rows whose key is k, in row order. */
  lemma {:induction false} GroupRows<R(!new), K(!new), V>(rows: seq<R>, key: R -> Option<K>, val: R -> Option<V>, k: K)
    ensures Group(Col(rows, key), Col(rows, val), k) == Col(RowsWith(rows, key, k), val)
    decreases |rows|
  {
    if rows != [] {
      var n := |rows| - 1;
      var init := rows[..n];
      GroupRows(init, key, val, k);
      assert Col(rows, key)[..n] == Col(init, key);
      assert Col(rows, val)[..n] == Col(init, val);
      if key(rows[n]) == Some(k) {
        assert RowsWith(rows, key, k) == RowsWith(init, key, k) + [rows[n]];
        assert Col(RowsWith(init, key, k) + [rows[n]], val) == Col(RowsWith(init, key, k), val) + [val(rows[n])];
      }
    }
  }

  /** The number of rows holding key k is the size of the frame `df[key == k]`. */
  lemma OccurrencesRows<R(!new), K(!new)>(rows: seq<R>, key: R -> Option<K>, k: K)
    ensures Occurrences(Col(rows, key), k) == |RowsWith(rows, key, k)|
  {
    GroupRows(rows, key, key, k);
  }

  /** The mask `column.notna()`. */
  function HasValue<R(!new), T>(f: R -> Option<T>): (present: R -> bool)
    ensures forall x :: present(x) == f(x).Some?
  {
    (x: R) => f(x).Some?
  }

  /** `count()` of a column is the number of rows where it is not missing. */
  lemma {:induction false} CountRows<R(!new), T>(rows: seq<R>, f: R -> Option<T>)
    ensures Count(Col(rows, f)) == |Where(rows, HasValue(f))|
    decreases |rows|
  {
    if rows != [] {
      var n := |rows| - 1;
      CountRows(rows[..n], f);
      assert Col(rows, f)[..n] == Col(rows[..n], f);
    }
  }

  /** The keys of a (key, value) frame. */
  function KeysOf<K, A>(e: seq<(K, A)>): (ks: seq<K>)
    ensures |ks| == |e|
    ensures forall i :: 0 <= i < |e| ==> ks[i] == e[i].0
  {
    seq(|e|, i requires 0 <= i < |e| => e[i].0)
  }

  /**
   * `groupby(keys)[vals].agg(...).reset_index()`: one entry per distinct
   * non-missing key (rows with a missing key are dropped), holding the
   * aggregate of that key's group.
   */
  function Aggregate<K(==,!new), V, A>(keys: seq<Option<K>>, vals: seq<Option<V>>, agg: seq<Option<V>> -> A): (e: seq<(K, A)>)
    requires |keys| == |vals|
    ensures KeysOf(e) == Keys(keys)
    ensures forall i :: 0 <= i < |e| ==> e[i].1 == agg(Group(keys, vals, e[i].0))
  {
    var ks := Keys(keys);
    seq(|ks|, i requires 0 <= i < |ks| => (ks[i], agg(Group(keys, vals, ks[i]))))
  }

  /** `groupby(keys)[vals].count()`: the non-missing values per key. */
  function GroupCount<K(==,!new), V>(keys: seq<Option<K>>, vals: seq<Option<V>>): (e: seq<(K, nat)>)
    requires |keys| == |vals|
    ensures KeysOf(e) == Keys(keys)
    ensures forall i :: 0 <= i < |e| ==> e[i].1 <= Occurrences(keys, e[i].0)
  {
    Aggregate(keys, vals, g => Count(g))
  }

  /** `groupby(keys)[vals].nunique()`: the distinct non-missing values per key. */
  function GroupNUnique<K(==,!new), V(==,!new)>(keys: seq<Option<K>>, vals: seq<Option<V>>): (e: seq<(K, nat)>)
    requires |keys| == |vals|
    ensures KeysOf(e) == Keys(keys)
    ensures forall i :: 0 <= i < |e| ==> e[i].1 <= Occurrences(keys, e[i].0)
  {
    Aggregate(keys, vals, g => NUnique(g))
  }

  /** `groupby(keys)[vals].sum()`: the sum of each key's values, 0 for a group without values. */
  function GroupSum<K(==,!new)>(keys: seq<Option<K>>, vals: seq<Option<real>>): (e: seq<(K, real)>)
    requires |keys| == |vals|
    ensures KeysOf(e) == Keys(keys)
    ensures forall i :: 0 <= i < |e| ==> e[i].1 == Sum(Group(keys, vals, e[i].0))
  {
    Aggregate(keys, vals, g => Sum(g))
  }

  /** `groupby(keys)[vals].mean()`: the mean of each key's values, NaN for a group without values. */
  function GroupMean<K(==,!new)>(keys: seq<Option<K>>, vals: seq<Option<real>>): (e: seq<(K, Option<real>)>)
    requires |keys| == |vals|
    ensures KeysOf(e) == Keys(keys)
    ensures forall i :: 0 <= i < |e| ==> (e[i].1.None? <==> Count(Group(keys, vals, e[i].0)) == 0)
  {
    Aggregate(keys, vals, g => Mean(g))
  }

  /** The values of a (key, value) frame, as a column. */
  function ValuesOf<K, A>(e: seq<(K, A)>): (c: seq<Option<A>>)
    ensures |c| == |e|
    ensures forall i :: 0 <= i < |e| ==> c[i] == Some(e[i].1)
  {
    seq(|e|, i requires 0 <= i < |e| => Some(e[i].1))
  }

  /** The sum of the sums of a group-by frame. */
  function TotalSum<K>(e: seq<(K, real)>): real
  {
    if e == [] then 0.0 else TotalSum(e[..|e| - 1]) + e[|e| - 1].1
  }

  /** The values of a frame, read as a column, are all present and add up to the frame's total. */
  lemma {:induction false} ValuesOfSum<K>(e: seq<(K, real)>)
    ensures Count(ValuesOf(e)) == |e|
    ensures Sum(ValuesOf(e)) == TotalSum(e)
    decreases |e|
  {
    if e != [] {
      var n := |e| - 1;
      ValuesOfSum(e[..n]);
      assert ValuesOf(e)[..n] == ValuesOf(e[..n]);
    }
  }

  /** Σ over ks of the sum of each key's group. */
  function SumGroups<K(==,!new)>(keys: seq<Option<K>>, vals: seq<Option<real>>, ks: seq<K>): real
    requires |keys| == |vals|
  {
    if ks == [] then 0.0 else SumGroups(keys, vals, ks[..|ks| - 1]) + Sum(Group(keys, vals, ks[|ks| - 1]))
  }

  /** The per-key sums of `groupby(keys)[vals].sum()` add up to the sum of the values of all keyed rows. */
  lemma GroupSumTotal<K(!new)>(keys: seq<Option<K>>, vals: seq<Option<real>>)
    requires |keys| == |vals|
    ensures TotalSum(GroupSum(keys, vals)) == Sum(Keyed(keys, vals))
  {
    GroupSumIsSumGroups(keys, vals, Keys(keys));
    assert GroupSum(keys, vals)[..|Keys(keys)|] == GroupSum(keys, vals);
    SumGroupsTotal(keys, vals);
  }

  /** The values whose key is present (the values with a missing key are dropped). */
  function Keyed<K>(keys: seq<Option<K>>, vals: seq<Option<real>>): (c: seq<Option<real>>)
    requires |keys| == |vals|
    ensures |c| == |vals|
    ensures forall i :: 0 <= i < |c| ==> c[i] == if keys[i].Some? then vals[i] else None
  {
    seq(|vals|, i requires 0 <= i < |vals| => if keys[i].Some? then vals[i] else None)
  }

  lemma {:induction false} GroupSumIsSumGroups<K(!new)>(keys: seq<Option<K>>, vals: seq<Option<real>>, ks: seq<K>)
    requires |keys| == |vals|
    requires ks <= Keys(keys)
    ensures TotalSum(GroupSum(keys, vals)[..|ks|]) == SumGroups(keys, vals, ks)
    decreases |ks|
  {
    var e := GroupSum(keys, vals);
    if ks != [] {
      var m := |ks| - 1;
      GroupSumIsSumGroups(keys, vals, ks[..m]);
      TotalSumSnoc(e, m);
      assert KeysOf(e)[m] == ks[m];
    }
  }

  /** The total of the first m + 1 entries is the total of the first m plus entry m. */
  lemma TotalSumSnoc<K>(e: seq<(K, real)>, m: nat)
    requires m < |e|
    ensures TotalSum(e[..m + 1]) == TotalSum(e[..m]) + e[m].1
  {
    assert e[..m + 1][..m] == e[..m];
  }

  lemma {:induction false} SumGroupsAppend<K(!new)>(keys: seq<Option<K>>, vals: seq<Option<real>>, x: Option<K>, y: Option<real>, ks: seq<K>)
    requires |keys| == |vals|
    requires Distinct(ks)
    ensures SumGroups(keys + [x], vals + [y], ks)
         == SumGroups(keys, vals, ks) + (if x.Some? && x.value in ks && y.Some? then y.value else 0.0)
    decreases |ks|
  {
    assert (keys + [x])[..|keys|] == keys;
    assert (vals + [y])[..|vals|] == vals;
    if ks != [] {
      var ks' := ks[..|ks| - 1];
      SumGroupsAppend(keys, vals, x, y, ks');
      assert ks == ks' + [ks[|ks| - 1]];
      var g := Group(keys, vals, ks[|ks| - 1]);
      assert x == Some(ks[|ks| - 1]) ==> (g + [y])[..|g|] == g;
    }
  }

  lemma {:induction false} SumGroupsTotal<K(!new)>(keys: seq<Option<K>>, vals: seq<Option<real>>)
    requires |keys| == |vals|
    ensures SumGroups(keys, vals, Keys(keys)) == Sum(Keyed(keys, vals))
    decreases |keys|
  {
    if keys != [] {
      var n := |keys| - 1;
      var t, u, x, y := keys[..n], vals[..n], keys[n], vals[n];
      assert keys == t + [x] && vals == u + [y];
      SumGroupsTotal(t, u);
      var ks := Keys(t);
      SumGroupsAppend(t, u, x, y, ks);
      assert Keyed(keys, vals)[..n] == Keyed(t, u);
      if x.Some? && x.value !in ks {
        SumGroupsNewKey(t, u, x.value, y);
      }
    }
  }

  /** A row whose key has not occurred before starts a group of its own. */
  lemma SumGroupsNewKey<K(!new)>(t: seq<Option<K>>, u: seq<Option<real>>, k: K, y: Option<real>)
    requires |t| == |u|
    requires k !in Keys(t)
    ensures SumGroups(t + [Some(k)], u + [y], Keys(t + [Some(k)]))
         == SumGroups(t + [Some(k)], u + [y], Keys(t)) + (if y.Some? then y.value else 0.0)
  {
    var keys, vals := t + [Some(k)], u + [y];
    KeysOfNewKey(t, k);
    SumGroupsSnoc(keys, vals, Keys(t), k);
    GroupOfNewKey(t, u, k, y);
    SumSingle(y);
  }

  /** A key that has not occurred before is added at the end of the keys. */
  lemma KeysOfNewKey<K(!new)>(t: seq<Option<K>>, k: K)
    requires k !in Keys(t)
    ensures Keys(t + [Some(k)]) == Keys(t) + [k]
  {
    assert (t + [Some(k)])[..|t|] == t;
  }

  /** Summing the groups of ks and then one more key adds that key's group sum. */
  lemma SumGroupsSnoc<K(!new)>(keys: seq<Option<K>>, vals: seq<Option<real>>, ks: seq<K>, k: K)
    requires |keys| == |vals|
    ensures SumGroups(keys, vals, ks + [k]) == SumGroups(keys, vals, ks) + Sum(Group(keys, vals, k))
  {
    assert (ks + [k])[..|ks|] == ks;
  }

  lemma GroupOfNewKey<K(!new)>(t: seq<Option<K>>, u: seq<Option<real>>, k: K, y: Option<real>)
    requires |t| == |u|
    requires k !in Keys(t)
    ensures Group(t + [Some(k)], u + [y], k) == [y]
  {
    assert (t + [Some(k)])[..|t|] == t && (u + [y])[..|u|] == u;
    assert |Group(t, u, k)| == 0;
  }

  lemma SumSingle(y: Option<real>)
    ensures Sum([y]) == if y.Some? then y.value else 0.0
  {
    assert [y][..0] == [];
  }
}
