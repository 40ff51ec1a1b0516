/**
 * The "largest first" selections of the pages: `nlargest(n)`,
 * `sort_values(ascending=False).head(n)`, `sort_values(...).iloc[0]` and
 * `idxmax()`, over a (key, score) frame. pandas breaks ties by position in
 * the frame, an order this model does not keep, so the contracts state only
 * maximality.
 */
module Ranking {
  import opened Wrappers
  import opened Series

  /** Scores never increase along the frame. */
  predicate Descending<K>(e: seq<(K, real)>)
  {
    forall i, j :: 0 <= i < j < |e| ==> e[i].1 >= e[j].1
  }

  /** Puts x into a descending frame, before the first entry it does not fall below. */
  function Insert<K(==,!new)>(x: (K, real), e: seq<(K, real)>): (r: seq<(K, real)>)
    requires Descending(e)
    ensures |r| == |e| + 1
    ensures forall y :: y in r ==> y in e || y == x
    ensures Descending(r)
    ensures multiset(r) == multiset(e) + multiset{x}
  {
    if e == [] || x.1 >= e[0].1 then
      ConsDescending(x, e);
      [x] + e
    else
      assert e == [e[0]] + e[1..];
      var rest := Insert(x, e[1..]);
      forall k | 0 <= k < |rest| ensures rest[k].1 <= e[0].1 {
        assert rest[k] in rest;
      }
      ConsDescending(e[0], rest);
      [e[0]] + rest
  }

  /** A head that scores at least as much as every entry of a descending frame keeps it descending. */
  lemma ConsDescending<K>(h: (K, real), e: seq<(K, real)>)
    requires Descending(e)
    requires e != [] ==> e[0].1 <= h.1
    ensures Descending([h] + e)
  {
    var r := [h] + e;
    forall i, j | 0 <= i < j < |r| ensures r[i].1 >= r[j].1 {
      if i == 0 && j > 1 {
        assert r[1] == e[0] && r[j] == e[j - 1];
      }
    }
  }

  /** `sort_values(ascending=False)`: the same entries, largest score first. */
  function SortDescending<K(==,!new)>(e: seq<(K, real)>): (r: seq<(K, real)>)
    ensures |r| == |e|
    ensures Descending(r)
    ensures multiset(r) == multiset(e)
  {
    if e == [] then []
    else
      assert e == [e[0]] + e[1..];
      Insert(e[0], SortDescending(e[1..]))
  }

  /**
   * `nlargest(n)` / `sort_values(ascending=False).head(n)`: min(n, |e|)
   * entries of e, largest first, and no entry left out scores above one
   * that was kept.
   */
  function TopN<K(==,!new)>(e: seq<(K, real)>, n: nat): (r: seq<(K, real)>)
    ensures |r| == if n < |e| then n else |e|
    ensures Descending(r)
    ensures multiset(r) <= multiset(e)
    ensures forall x, y :: x in multiset(e) - multiset(r) && y in r ==> x.1 <= y.1
    ensures forall y :: y in r ==> y in e
    ensures forall x, y :: x in e && x !in r && y in r ==> x.1 <= y.1
  {
    var sorted := SortDescending(e);
    var m := if n < |e| then n else |e|;
    PrefixOfSorted(e, sorted, m);
    var r := sorted[..m];
    forall y | y in r ensures y in e {
      assert y in multiset(r);
    }
    forall x, y | x in e && x !in r && y in r ensures x.1 <= y.1 {
      assert x in multiset(e) && x !in multiset(r);
      assert x in multiset(e) - multiset(r);
    }
    r
  }

  /** The first m entries of a sorted copy of e are a largest-first selection from e. */
  lemma PrefixOfSorted<K>(e: seq<(K, real)>, sorted: seq<(K, real)>, m: nat)
    requires Descending(sorted) && multiset(sorted) == multiset(e) && m <= |sorted|
    ensures Descending(sorted[..m])
    ensures multiset(sorted[..m]) <= multiset(e)
    ensures forall x, y :: x in multiset(e) - multiset(sorted[..m]) && y in sorted[..m] ==> x.1 <= y.1
  {
    PrefixDominates(sorted, m);
    assert sorted == sorted[..m] + sorted[m..];
    assert multiset(e) - multiset(sorted[..m]) == multiset(sorted[m..]);
  }

  /** In a descending frame the first m entries are descending and score at least as much as the rest. */
  lemma PrefixDominates<K>(s: seq<(K, real)>, m: nat)
    requires Descending(s) && m <= |s|
    ensures Descending(s[..m])
    ensures forall x, y :: x in s[m..] && y in s[..m] ==> x.1 <= y.1
  {
    forall x, y | x in s[m..] && y in s[..m] ensures x.1 <= y.1 {
      var j :| m <= j < |s| && s[j] == x;
      var i :| 0 <= i < m && s[i] == y;
    }
  }

  /** Each entry's score is the score of its key. */
  predicate ScoredBy<K>(e: seq<(K, real)>, score: K -> real)
  {
    forall i :: 0 <= i < |e| ==> e[i].1 == score(e[i].0)
  }

  /**
   * When the scores are a function of the keys, the top n keep that reading,
   * and a key left out scores no more than any key kept.
   */
  lemma TopScores<K(!new)>(e: seq<(K, real)>, n: nat, score: K -> real)
    requires ScoredBy(e, score)
    ensures ScoredBy(TopN(e, n), score)
    ensures forall k, j :: k in KeysOf(e) && k !in KeysOf(TopN(e, n)) && 0 <= j < |TopN(e, n)| ==> score(k) <= TopN(e, n)[j].1
  {
    var r := TopN(e, n);
    forall i | 0 <= i < |r| ensures r[i].1 == score(r[i].0) {
      assert r[i] in r;
      var m :| 0 <= m < |e| && e[m] == r[i];
    }
    forall k, j | k in KeysOf(e) && k !in KeysOf(r) && 0 <= j < |r| ensures score(k) <= r[j].1 {
      var m :| 0 <= m < |e| && KeysOf(e)[m] == k;
      assert e[m] in e;
      assert r[j] in r;
    }
  }

  /**
   * r ranks the top n of `keys` by score: it holds min(n, |keys|) entries,
   * each a different key of `keys` with its score, largest first, and no key
   * left out scores more than a key kept.
   */
  predicate Ranked<K(==)>(r: seq<(K, real)>, keys: seq<K>, n: nat, score: K -> real)
  {
    && |r| == (if n < |keys| then n else |keys|)
    && (forall i :: 0 <= i < |r| ==> r[i].0 in keys)
    && (forall i, j :: 0 <= i < j < |r| ==> r[i].0 != r[j].0)
    && Descending(r)
    && ScoredBy(r, score)
    && forall k, j :: k in keys && k !in KeysOf(r) && 0 <= j < |r| ==> score(k) <= r[j].1
  }

  /**
   * The keys of a ranking (`nlargest(n).index`): min(n, |keys|) different
   * keys, all of `keys`, and every key left out scores at most as much as
   * every key kept.
   */
  lemma RankedKeys<K(!new)>(r: seq<(K, real)>, keys: seq<K>, n: nat, score: K -> real)
    requires Ranked(r, keys, n, score)
    ensures |KeysOf(r)| == if n < |keys| then n else |keys|
    ensures Distinct(KeysOf(r))
    ensures forall c :: c in KeysOf(r) ==> c in keys
    ensures forall c, d :: c in keys && c !in KeysOf(r) && d in KeysOf(r) ==> score(c) <= score(d)
  {
    forall c | c in KeysOf(r) ensures c in keys {
      var i :| 0 <= i < |r| && KeysOf(r)[i] == c;
    }
    forall c, d | c in keys && c !in KeysOf(r) && d in KeysOf(r) ensures score(c) <= score(d) {
      var j :| 0 <= j < |r| && KeysOf(r)[j] == d;
    }
  }

  /**
   * `sort_values(by=score, ascending=False).head(n)` on a frame scored by its
   * keys ranks the top n of its keys.
   */
  function TopBy<K(==,!new)>(e: seq<(K, real)>, n: nat, score: K -> real): (r: seq<(K, real)>)
    requires ScoredBy(e, score)
    requires Distinct(KeysOf(e))
    ensures Ranked(r, KeysOf(e), n, score)
  {
    TopScores(e, n, score);
    var r := TopN(e, n);
    SelectionKeysDistinct(r, e, score);
    forall i | 0 <= i < |r| ensures r[i].0 in KeysOf(e) {
      assert r[i] in r;
      var m :| 0 <= m < |e| && e[m] == r[i];
      assert KeysOf(e)[m] == r[i].0;
    }
    r
  }

  /**
   * Entries taken from a frame with different keys, each scored by its key,
   * have different keys too: two entries with one key would be one entry
   * taken twice.
   */
  lemma SelectionKeysDistinct<K(!new)>(r: seq<(K, real)>, e: seq<(K, real)>, score: K -> real)
    requires ScoredBy(r, score)
    requires multiset(r) <= multiset(e)
    requires Distinct(KeysOf(e))
    ensures forall i, j :: 0 <= i < j < |r| ==> r[i].0 != r[j].0
  {
    forall i, j | 0 <= i < j < |r| ensures r[i].0 != r[j].0 {
      if r[i].0 == r[j].0 {
        TakenTwice(r, i, j);
        AtMostOnce(e, r[i]);
      }
    }
  }

  /** An entry at two positions of a frame occurs in it at least twice. */
  lemma TakenTwice<T>(s: seq<T>, i: nat, j: nat)
    requires i < j < |s| && s[i] == s[j]
    ensures multiset(s)[s[i]] >= 2
  {
    assert s == s[..j] + s[j..];
    assert s[i] in s[..j];
    assert s[j..][0] == s[j];
  }

  /** In a frame with different keys every entry occurs at most once. */
  lemma {:induction false} AtMostOnce<K(!new)>(e: seq<(K, real)>, x: (K, real))
    requires Distinct(KeysOf(e))
    ensures multiset(e)[x] <= 1
  {
    if e != [] {
      assert e == [e[0]] + e[1..];
      assert Distinct(KeysOf(e[1..])) by {
        forall i, j | 0 <= i < j < |e| - 1 ensures KeysOf(e[1..])[i] != KeysOf(e[1..])[j] {
          assert KeysOf(e)[i + 1] != KeysOf(e)[j + 1];
        }
      }
      AtMostOnce(e[1..], x);
      if x == e[0] {
        forall k | 0 <= k < |e| - 1 ensures e[1..][k] != x {
          assert KeysOf(e)[0] != KeysOf(e)[k + 1];
        }
        assert x !in e[1..];
      }
    }
  }

  /** best is a key of `keys` with its score, and no key scores more. */
  predicate IsBest<K(==)>(best: (K, real), keys: seq<K>, score: K -> real)
  {
    && best.0 in keys
    && best.1 == score(best.0)
    && forall k :: k in keys ==> score(k) <= best.1
  }

  /**
   * best is a key of `keys` with its score, which may be NaN. When it is a
   * number, no key has a higher one; when it is NaN, no key has a number.
   */
  predicate IsBestSkipNaN<K(==)>(best: (K, Option<real>), keys: seq<K>, score: K -> Option<real>)
  {
    && best.0 in keys
    && best.1 == score(best.0)
    && (best.1.Some? ==> forall k :: k in keys && score(k).Some? ==> score(k).value <= best.1.value)
    && (best.1.None? ==> forall k :: k in keys ==> score(k).None?)
  }

  /**
   * `sort_values(ascending=False).iloc[0]` and `idxmax()`: an entry with the
   * largest score. pandas raises an error on an empty frame; that is `None`.
   */
  function ArgMax<K(==,!new)>(e: seq<(K, real)>): (r: Option<(K, real)>)
    ensures r.None? <==> e == []
    ensures r.Some? ==> r.value in e
    ensures r.Some? ==> forall y :: y in e ==> y.1 <= r.value.1
  {
    if e == [] then None
    else
      var sorted := SortDescending(e);
      assert sorted[0] in multiset(e);
      forall y | y in e ensures y.1 <= sorted[0].1 {
        assert y in multiset(sorted);
        var i :| 0 <= i < |sorted| && sorted[i] == y;
      }
      Some(sorted[0])
  }

  /** The entries with a score, unwrapped. */
  function Scored<K(!new)>(e: seq<(K, Option<real>)>): (r: seq<(K, real)>)
    ensures forall x :: x in r <==> (x.0, Some(x.1)) in e
  {
    if e == [] then []
    else
      var init := Scored(e[..|e| - 1]);
      var last := e[|e| - 1];
      assert e == e[..|e| - 1] + [last];
      if last.1.Some? then init + [(last.0, last.1.value)] else init
  }

  /**
   * `sort_values(by=score, ascending=False).iloc[0]` on a frame whose scores
   * may be NaN: NaN is sorted last, so the first entry has the largest score
   * when any score is present, and is an all-NaN entry otherwise. `None` when
   * the frame is empty (pandas raises an error).
   */
  function ArgMaxSkipNaN<K(==,!new)>(e: seq<(K, Option<real>)>): (r: Option<(K, Option<real>)>)
    ensures r.None? <==> e == []
    ensures r.Some? ==> r.value in e
    ensures r.Some? && r.value.1.Some? ==>
              forall y :: y in e && y.1.Some? ==> y.1.value <= r.value.1.value
    ensures r.Some? && r.value.1.None? ==> forall y :: y in e ==> y.1.None?
  {
    var scored := Scored(e);
    match ArgMax(scored)
    case Some(best) =>
      assert forall y :: y in e && y.1.Some? ==> (y.0, y.1.value) in scored;
      Some((best.0, Some(best.1)))
    case None =>
      assert forall y :: y in e && y.1.Some? ==> (y.0, y.1.value) in scored;
      if e == [] then None else Some(e[0])
  }

  /** With the scores a function of the keys, the chosen key has the highest score of any key. */
  lemma ArgMaxScores<K(!new)>(e: seq<(K, real)>, score: K -> real)
    requires ScoredBy(e, score)
    ensures ArgMax(e).Some? ==> ArgMax(e).value.1 == score(ArgMax(e).value.0)
    ensures ArgMax(e).Some? ==> forall k :: k in KeysOf(e) ==> score(k) <= ArgMax(e).value.1
  {
    if e != [] {
      var best := ArgMax(e).value;
      var b :| 0 <= b < |e| && e[b] == best;
      forall k | k in KeysOf(e) ensures score(k) <= best.1 {
        var m :| 0 <= m < |e| && KeysOf(e)[m] == k;
        assert e[m] in e;
      }
    }
  }

  /** A count frame read as scores, for ranking. */
  function CountScores<K>(e: seq<(K, nat)>): (r: seq<(K, real)>)
    ensures |r| == |e|
    ensures forall i :: 0 <= i < |e| ==> r[i] == (e[i].0, e[i].1 as real)
    ensures KeysOf(r) == KeysOf(e)
  {
    seq(|e|, i requires 0 <= i < |e| => (e[i].0, e[i].1 as real))
  }
}
