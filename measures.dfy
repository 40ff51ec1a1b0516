/**
 * The pandas aggregates the pages use, read on a frame of rows: a key column
 * `key` and a value column `val` are functions of a row, and each per-key
 * result is stated in terms of `df[df[key] == k]`, the rows holding that key.
 */
module Measures {
  import opened Wrappers
  import opened Series
  import opened Ranking

  /** `df[key].value_counts()` / `df.groupby(key).size()`: each key present with the number of its rows. */
  function CountByKey<R(!new), K(==,!new)>(rows: seq<R>, key: R -> Option<K>): (e: seq<(K, nat)>)
    ensures KeysOf(e) == Keys(Col(rows, key))
    ensures forall i :: 0 <= i < |e| ==> 0 < e[i].1 == |RowsWith(rows, key, e[i].0)|
  {
    var s := Col(rows, key);
    var e := ValueCounts(s);
    forall i | 0 <= i < |e| ensures e[i].1 == |RowsWith(rows, key, e[i].0)| {
      ValueCountsExact(s, i);
      OccurrencesRows(rows, key, e[i].0);
    }
    e
  }

  /** The counts of all keys add up to the number of rows whose key is not missing. */
  lemma CountByKeyTotal<R(!new), K(!new)>(rows: seq<R>, key: R -> Option<K>)
    ensures TotalCount(CountByKey(rows, key)) == |Where(rows, HasValue(key))|
  {
    ValueCountsTotal(Col(rows, key));
    CountRows(rows, key);
  }

  /**
   * `df[key].nunique()`: never more than the number of rows, and 0 exactly
   * when no row has a key.
   */
  function DistinctCount<R(!new), K(==,!new)>(rows: seq<R>, key: R -> Option<K>): (n: nat)
    ensures n == NUnique(Col(rows, key))
    ensures n <= |rows|
    ensures n == 0 <==> forall i :: 0 <= i < |rows| ==> key(rows[i]).None?
  {
    NUniqueBound(Col(rows, key));
    CountZero(Col(rows, key));
    NUnique(Col(rows, key))
  }

  /** A key's number of rows, as a score. */
  function RowCount<R(!new), K(==)>(rows: seq<R>, key: R -> Option<K>): K -> real
  {
    (k: K) => |RowsWith(rows, key, k)| as real
  }

  /**
   * `df[key].value_counts().nlargest(n)`: the top n keys of the rows ranked
   * by their number of rows.
   */
  function TopCounts<R(!new), K(==,!new)>(rows: seq<R>, key: R -> Option<K>, n: nat): (r: seq<(K, real)>)
    ensures Ranked(r, Keys(Col(rows, key)), n, RowCount(rows, key))
  {
    TopOf(CountByKey(rows, key), n, RowCount(rows, key))
  }

  /**
   * `agg.sort_values(ascending=False).head(n)` on a per-key count frame (a
   * groupby result, so each key once) whose counts are a function of the
   * keys: the top n of its keys by that function.
   */
  function TopOf<K(==,!new)>(e: seq<(K, nat)>, n: nat, score: K -> real): (r: seq<(K, real)>)
    requires forall i :: 0 <= i < |e| ==> e[i].1 as real == score(e[i].0)
    requires Distinct(KeysOf(e))
    ensures Ranked(r, KeysOf(e), n, score)
  {
    var scores := CountScores(e);
    assert ScoredBy(scores, score);
    TopBy(scores, n, score)
  }

  /**
   * `agg.sort_values(ascending=False).iloc[0]` on a per-key count frame whose
   * counts are a function of the keys: a key with the highest count. pandas
   * raises an error on an empty frame; that is `None`.
   */
  function BestOf<K(==,!new)>(e: seq<(K, nat)>, score: K -> real): (r: Option<(K, real)>)
    requires forall i :: 0 <= i < |e| ==> e[i].1 as real == score(e[i].0)
    ensures r.None? <==> e == []
    ensures r.Some? ==> IsBest(r.value, KeysOf(e), score)
  {
    var scores := CountScores(e);
    assert ScoredBy(scores, score);
    ArgMaxScores(scores, score);
    var r := ArgMax(scores);
    assert r.Some? ==> r.value.0 in KeysOf(scores) by {
      if r.Some? {
        var i :| 0 <= i < |scores| && scores[i] == r.value;
      }
    }
    r
  }

  /** A key's mean of `val` over its rows, NaN when none of them has a value. */
  function MeanOf<R(!new), K(==)>(rows: seq<R>, key: R -> Option<K>, val: R -> Option<real>): K -> Option<real>
  {
    (k: K) => Mean(Col(RowsWith(rows, key, k), val))
  }

  /**
   * `groupby(key)[val].mean().sort_values(ascending=False).iloc[0]`: a key with
   * the highest mean, NaN means sorted last; `None` (pandas raises an error)
   * exactly when no row has a key.
   */
  function BestMean<R(!new), K(==,!new)>(rows: seq<R>, key: R -> Option<K>, val: R -> Option<real>): (r: Option<(K, Option<real>)>)
    ensures r.None? <==> forall i :: 0 <= i < |rows| ==> key(rows[i]).None?
    ensures r.Some? ==> IsBestSkipNaN(r.value, Keys(Col(rows, key)), MeanOf(rows, key, val))
  {
    var e := MeanByKey(rows, key, val);
    var n := DistinctCount(rows, key);
    assert |e| == |KeysOf(e)| == n;
    var r := ArgMaxSkipNaN(e);
    BestMeanIsBest(rows, key, val, r);
    r
  }

  /** Whatever ArgMaxSkipNaN picks from the per-key means is a best key in the NaN-last order. */
  lemma BestMeanIsBest<R(!new), K(!new)>(rows: seq<R>, key: R -> Option<K>, val: R -> Option<real>, r: Option<(K, Option<real>)>)
    requires r == ArgMaxSkipNaN(MeanByKey(rows, key, val))
    ensures r.Some? ==> IsBestSkipNaN(r.value, Keys(Col(rows, key)), MeanOf(rows, key, val))
  {
    var e := MeanByKey(rows, key, val);
    var keys := Keys(Col(rows, key));
    var score := MeanOf(rows, key, val);
    if r.Some? {
      var best := r.value;
      var b :| 0 <= b < |e| && e[b] == best;
      assert KeysOf(e)[b] == best.0;
      assert best.0 in keys;
      assert best.1 == score(best.0);
      if best.1.Some? {
        forall k | k in keys && score(k).Some? ensures score(k).value <= best.1.value {
          var i := EntryOf(rows, key, val, k);
          assert e[i] in e;
        }
      } else {
        forall k | k in keys ensures score(k).None? {
          var i := EntryOf(rows, key, val, k);
          assert e[i] in e;
        }
      }
    }
  }

  /** Where a key of the rows sits in the per-key means. */
  lemma EntryOf<R(!new), K(!new)>(rows: seq<R>, key: R -> Option<K>, val: R -> Option<real>, k: K) returns (i: nat)
    requires k in Keys(Col(rows, key))
    ensures i < |MeanByKey(rows, key, val)|
    ensures MeanByKey(rows, key, val)[i] == (k, MeanOf(rows, key, val)(k))
  {
    var e := MeanByKey(rows, key, val);
    i := IndexOf(KeysOf(e), k);
  }

  /** The position of x in a sequence that holds it. */
  function IndexOf<T(==)>(s: seq<T>, x: T): (i: nat)
    requires x in s
    ensures i < |s| && s[i] == x
  {
    if s[0] == x then 0 else 1 + IndexOf(s[1..], x)
  }

  /**
   * `df[key].value_counts().idxmax()`: a key with the most rows. pandas raises
   * an error when no row has a key; that is `None`.
   */
  function MostFrequent<R(!new), K(==,!new)>(rows: seq<R>, key: R -> Option<K>): (r: Option<K>)
    ensures r.None? <==> forall i :: 0 <= i < |rows| ==> key(rows[i]).None?
    ensures r.Some? ==> Some(r.value) in Col(rows, key)
    ensures r.Some? ==> forall k :: Some(k) in Col(rows, key) ==> |RowsWith(rows, key, k)| <= |RowsWith(rows, key, r.value)|
  {
    var e := CountScores(CountByKey(rows, key));
    ArgMaxScores(e, k => |RowsWith(rows, key, k)| as real);
    CountZero(Col(rows, key));
    NUniqueBound(Col(rows, key));
    match ArgMax(e)
    case None => None
    case Some(best) =>
      assert best.0 in KeysOf(e);
      Some(best.0)
  }

  /** `df.groupby(key)[val].count()`: per key, the non-missing values of val among its rows. */
  function CountValuesByKey<R(!new), K(==,!new), V>(rows: seq<R>, key: R -> Option<K>, val: R -> Option<V>): (e: seq<(K, nat)>)
    ensures KeysOf(e) == Keys(Col(rows, key))
    ensures forall i :: 0 <= i < |e| ==> e[i].1 == Count(Col(RowsWith(rows, key, e[i].0), val)) <= |RowsWith(rows, key, e[i].0)|
  {
    var e := GroupCount(Col(rows, key), Col(rows, val));
    forall i | 0 <= i < |e| ensures e[i].1 == Count(Col(RowsWith(rows, key, e[i].0), val)) {
      GroupRows(rows, key, val, e[i].0);
    }
    e
  }

  /** `df.groupby(key)[val].nunique()`: per key, the distinct values of val among its rows. */
  function DistinctValuesByKey<R(!new), K(==,!new), V(==,!new)>(rows: seq<R>, key: R -> Option<K>, val: R -> Option<V>): (e: seq<(K, nat)>)
    ensures KeysOf(e) == Keys(Col(rows, key))
    ensures forall i :: 0 <= i < |e| ==> e[i].1 == NUnique(Col(RowsWith(rows, key, e[i].0), val)) <= |RowsWith(rows, key, e[i].0)|
  {
    var e := GroupNUnique(Col(rows, key), Col(rows, val));
    forall i | 0 <= i < |e| ensures e[i].1 == NUnique(Col(RowsWith(rows, key, e[i].0), val)) <= |RowsWith(rows, key, e[i].0)| {
      GroupRows(rows, key, val, e[i].0);
      NUniqueBound(Col(RowsWith(rows, key, e[i].0), val));
    }
    e
  }

  /** `df.groupby(key)[val].sum()`: per key, the sum of val over its rows. */
  function SumByKey<R(!new), K(==,!new)>(rows: seq<R>, key: R -> Option<K>, val: R -> Option<real>): (e: seq<(K, real)>)
    ensures KeysOf(e) == Keys(Col(rows, key))
    ensures forall i :: 0 <= i < |e| ==> e[i].1 == Sum(Col(RowsWith(rows, key, e[i].0), val))
  {
    var e := GroupSum(Col(rows, key), Col(rows, val));
    forall i | 0 <= i < |e| ensures e[i].1 == Sum(Col(RowsWith(rows, key, e[i].0), val)) {
      GroupRows(rows, key, val, e[i].0);
    }
    e
  }

  /** When no key is missing, the per-key sums add up to the sum over all rows. */
  lemma SumByKeyTotal<R(!new), K(!new)>(rows: seq<R>, key: R -> Option<K>, val: R -> Option<real>)
    requires forall i :: 0 <= i < |rows| ==> key(rows[i]).Some?
    ensures TotalSum(SumByKey(rows, key, val)) == Sum(Col(rows, val))
  {
    GroupSumTotal(Col(rows, key), Col(rows, val));
    assert Keyed(Col(rows, key), Col(rows, val)) == Col(rows, val);
  }

  /** The per-key sums add up to the sum of val over the rows whose key is not missing. */
  lemma SumByKeyKeyed<R(!new), K(!new)>(rows: seq<R>, key: R -> Option<K>, val: R -> Option<real>)
    ensures TotalSum(SumByKey(rows, key, val)) == Sum(Col(Where(rows, HasValue(key)), val))
  {
    GroupSumTotal(Col(rows, key), Col(rows, val));
    KeyedSum(rows, key, val);
  }

  /** Dropping the values of the unkeyed rows sums like dropping those rows. */
  lemma {:induction false} KeyedSum<R(!new), K>(rows: seq<R>, key: R -> Option<K>, val: R -> Option<real>)
    ensures Sum(Keyed(Col(rows, key), Col(rows, val))) == Sum(Col(Where(rows, HasValue(key)), val))
    decreases |rows|
  {
    if rows != [] {
      var n := |rows| - 1;
      var init := rows[..n];
      KeyedSum(init, key, val);
      assert Keyed(Col(rows, key), Col(rows, val))[..n] == Keyed(Col(init, key), Col(init, val));
      var kept := Where(init, HasValue(key));
      if key(rows[n]).Some? {
        assert Where(rows, HasValue(key)) == kept + [rows[n]];
        assert Col(kept + [rows[n]], val)[..|kept|] == Col(kept, val);
      } else {
        assert Where(rows, HasValue(key)) == kept;
      }
    }
  }

  /**
   * The mean of the per-key sums is the sum over all rows divided by the
   * number of keys, when every row has a key.
   */
  lemma MeanOfSums<R(!new), K(!new)>(rows: seq<R>, key: R -> Option<K>, val: R -> Option<real>)
    requires rows != []
    requires forall i :: 0 <= i < |rows| ==> key(rows[i]).Some?
    ensures NUnique(Col(rows, key)) > 0
    ensures Mean(ValuesOf(SumByKey(rows, key, val))) == Some(Sum(Col(rows, val)) / NUnique(Col(rows, key)) as real)
  {
    var e := SumByKey(rows, key, val);
    var vs := ValuesOf(e);
    ValuesOfSum(e);
    SumByKeyTotal(rows, key, val);
    var keys := Col(rows, key);
    NUniqueBound(keys);
    CountZero(keys);
    assert keys[0].Some?;
    var n := NUnique(keys);
    assert n == |KeysOf(e)| == |e| == Count(vs);
    assert Sum(vs) == Sum(Col(rows, val));
  }

  /** `df.groupby(key)[val].mean()`: per key, the mean of val over its rows, NaN when none of them has a value. */
  function MeanByKey<R(!new), K(==,!new)>(rows: seq<R>, key: R -> Option<K>, val: R -> Option<real>): (e: seq<(K, Option<real>)>)
    ensures KeysOf(e) == Keys(Col(rows, key))
    ensures forall i :: 0 <= i < |e| ==> e[i].1 == Mean(Col(RowsWith(rows, key, e[i].0), val))
  {
    var e := GroupMean(Col(rows, key), Col(rows, val));
    forall i | 0 <= i < |e| ensures e[i].1 == Mean(Col(RowsWith(rows, key, e[i].0), val)) {
      GroupRows(rows, key, val, e[i].0);
    }
    e
  }

  /** The mask `count > t` on a (key, count) frame. */
  function Above<K>(t: int): ((K, nat)) -> bool
  {
    (x: (K, nat)) => x.1 > t
  }

  /** Filtering a count frame by `count > t` keeps as many entries as there are keys whose count exceeds t. */
  lemma {:induction false} CountAbove<K(!new)>(e: seq<(K, nat)>, t: int, keep: K -> bool)
    requires forall i :: 0 <= i < |e| ==> keep(e[i].0) == (e[i].1 > t)
    ensures |Where(e, Above(t))| == |Where(KeysOf(e), keep)|
    decreases |e|
  {
    if e != [] {
      var n := |e| - 1;
      CountAbove(e[..n], t, keep);
      assert KeysOf(e)[..n] == KeysOf(e[..n]);
    }
  }

  /**
   * `groupby(key)[val].mean().mean()` is NaN exactly when no row has both a
   * key and a value.
   */
  lemma MeanOfMeansNone<R(!new), K(!new)>(rows: seq<R>, key: R -> Option<K>, val: R -> Option<real>)
    ensures Mean(Values(MeanByKey(rows, key, val))).None? <==>
            forall i :: 0 <= i < |rows| ==> key(rows[i]).None? || val(rows[i]).None?
  {
    if forall i :: 0 <= i < |rows| ==> key(rows[i]).None? || val(rows[i]).None? {
      NoValueNoMean(rows, key, val);
    } else {
      var i :| 0 <= i < |rows| && key(rows[i]).Some? && val(rows[i]).Some?;
      ValueGivesMean(rows, key, val, i);
    }
  }

  /** Without a row that has both a key and a value, every group's mean is NaN, and so is their mean. */
  lemma NoValueNoMean<R(!new), K(!new)>(rows: seq<R>, key: R -> Option<K>, val: R -> Option<real>)
    requires forall i :: 0 <= i < |rows| ==> key(rows[i]).None? || val(rows[i]).None?
    ensures Mean(Values(MeanByKey(rows, key, val))).None?
  {
    var e := MeanByKey(rows, key, val);
    forall j | 0 <= j < |e| ensures e[j].1.None? {
      var group := Col(RowsWith(rows, key, e[j].0), val);
      forall t | 0 <= t < |group| ensures group[t].None? {
        assert RowsWith(rows, key, e[j].0)[t] in RowsWith(rows, key, e[j].0);
      }
      CountZero(group);
    }
    CountZero(Values(e));
  }

  /** A row with both a key and a value gives its key's group a mean, and so the mean of the means exists. */
  lemma ValueGivesMean<R(!new), K(!new)>(rows: seq<R>, key: R -> Option<K>, val: R -> Option<real>, i: nat)
    requires i < |rows| && key(rows[i]).Some? && val(rows[i]).Some?
    ensures Mean(Values(MeanByKey(rows, key, val))).Some?
  {
    var e := MeanByKey(rows, key, val);
    var k := key(rows[i]).value;
    assert Col(rows, key)[i] == Some(k);
    assert k in KeysOf(e);
    var j :| 0 <= j < |e| && KeysOf(e)[j] == k;
    var group := RowsWith(rows, key, k);
    assert rows[i] in group;
    var t :| 0 <= t < |group| && group[t] == rows[i];
    assert Col(group, val)[t].Some?;
    CountZero(Col(group, val));
    assert Values(e)[j].Some?;
    CountZero(Values(e));
  }

  /**
   * When every row's value lies in [lo, hi], so does the mean of the per-key
   * means.
   */
  lemma {:induction false} MeanOfMeansBounds<R(!new), K(!new)>(rows: seq<R>, key: R -> Option<K>, val: R -> Option<real>, lo: real, hi: real)
    requires forall i :: 0 <= i < |rows| && val(rows[i]).Some? ==> lo <= val(rows[i]).value <= hi
    requires Mean(Values(MeanByKey(rows, key, val))).Some?
    ensures lo <= Mean(Values(MeanByKey(rows, key, val))).value <= hi
  {
    var e := MeanByKey(rows, key, val);
    var vs := Values(e);
    forall j | 0 <= j < |vs| && vs[j].Some? ensures lo <= vs[j].value <= hi {
      var group := Col(RowsWith(rows, key, e[j].0), val);
      forall t | 0 <= t < |group| && group[t].Some? ensures lo <= group[t].value <= hi {
        assert RowsWith(rows, key, e[j].0)[t] in RowsWith(rows, key, e[j].0);
      }
      MeanBounds(group, lo, hi);
    }
    MeanBounds(vs, lo, hi);
  }

  /** The values of a (key, value) frame whose values may be NaN, as a column. */
  function Values<K, A>(e: seq<(K, Option<A>)>): (c: seq<Option<A>>)
    ensures |c| == |e|
    ensures forall i :: 0 <= i < |e| ==> c[i] == e[i].1
  {
    seq(|e|, i requires 0 <= i < |e| => e[i].1)
  }
}
