/**
 * String operations the dashboard applies: Python's ordering of `str` (used by
 * `sorted`), the sorted list of distinct values of a column, and
 * `" ".join(...)`.
 */
module Text {

  /** Python's `a < b` on `str`: lexicographic by code point, a proper prefix first. */
  predicate Below(a: string, b: string)
  {
    if |a| == 0 then |b| > 0
    else if |b| == 0 then false
    else if a[0] == b[0] then Below(a[1..], b[1..])
    else a[0] < b[0]
  }

  /** No string is below itself. */
  lemma {:induction false} BelowIrreflexive(a: string)
    ensures !Below(a, a)
    decreases |a|
  {
    if |a| > 0 {
      BelowIrreflexive(a[1..]);
    }
  }

  lemma {:induction false} BelowTransitive(a: string, b: string, c: string)
    requires Below(a, b) && Below(b, c)
    ensures Below(a, c)
    decreases |a|
  {
    if |a| > 0 && |b| > 0 && |c| > 0 && a[0] == b[0] && b[0] == c[0] {
      BelowTransitive(a[1..], b[1..], c[1..]);
    }
  }

  /** Any two different strings are ordered one way or the other. */
  lemma {:induction false} BelowTotal(a: string, b: string)
    ensures a == b || Below(a, b) || Below(b, a)
    decreases |a|
  {
    if |a| > 0 && |b| > 0 && a[0] == b[0] {
      BelowTotal(a[1..], b[1..]);
      if a[1..] == b[1..] {
        assert a == [a[0]] + a[1..] && b == [b[0]] + b[1..];
      }
    }
  }

  /** Each string is below every later one: sorted ascending, hence without repeats. */
  predicate StrictlyAscending(xs: seq<string>)
  {
    forall i, j :: 0 <= i < j < |xs| ==> Below(xs[i], xs[j])
  }

  /** A strictly ascending list holds no string twice. */
  lemma AscendingDistinct(xs: seq<string>)
    requires StrictlyAscending(xs)
    ensures forall i, j :: 0 <= i < j < |xs| ==> xs[i] != xs[j]
  {
    forall i, j | 0 <= i < j < |xs| ensures xs[i] != xs[j] {
      BelowIrreflexive(xs[i]);
    }
  }

  /** Adds x to a strictly ascending list at its place, unless it is already there. */
  function InsertAscending(x: string, xs: seq<string>): (r: seq<string>)
    requires StrictlyAscending(xs)
    ensures StrictlyAscending(r)
    ensures forall y :: y in r <==> y in xs || y == x
  {
    if xs == [] then [x]
    else if x == xs[0] then xs
    else if Below(x, xs[0]) then
      forall j | 0 < j < |xs| ensures Below(x, xs[j]) {
        BelowTransitive(x, xs[0], xs[j]);
      }
      [x] + xs
    else
      BelowTotal(x, xs[0]);
      var rest := InsertAscending(x, xs[1..]);
      assert xs == [xs[0]] + xs[1..];
      forall k | 0 <= k < |rest| ensures Below(xs[0], rest[k]) {
        assert rest[k] in rest;
      }
      [xs[0]] + rest
  }

  /** `sorted(column.unique())` for a column of strings: each value once, in ascending order. */
  function SortedUnique(values: seq<string>): (r: seq<string>)
    ensures StrictlyAscending(r)
    ensures forall y :: y in r <==> y in values
  {
    if values == [] then []
    else
      assert values == values[..|values| - 1] + [values[|values| - 1]];
      InsertAscending(values[|values| - 1], SortedUnique(values[..|values| - 1]))
  }

  /**
   * `" ".join(words)`: the words in order, one space between neighbours, so
   * its length is the words' characters plus one space fewer than words.
   */
  function JoinWithSpace(words: seq<string>): (text: string)
    ensures words == [] ==> text == ""
    ensures words != [] ==> |text| == TotalLength(words) + |words| - 1
  {
    if |words| == 0 then ""
    else if |words| == 1 then
      assert words[..0] == [];
      words[0]
    else JoinWithSpace(words[..|words| - 1]) + " " + words[|words| - 1]
  }

  /** The total length of the words. */
  function TotalLength(words: seq<string>): nat
  {
    if words == [] then 0 else TotalLength(words[..|words| - 1]) + |words[|words| - 1]|
  }

  /** Where word i starts in the joined text: after the earlier words and one space behind each. */
  function WordStart(words: seq<string>, i: nat): nat
    requires i <= |words|
  {
    TotalLength(words[..i]) + i
  }

  /** Word i of the words sits in text at its start. */
  predicate WordAt(text: string, words: seq<string>, i: nat)
    requires i < |words|
  {
    WordStart(words, i) + |words[i]| <= |text| &&
    text[WordStart(words, i)..WordStart(words, i) + |words[i]|] == words[i]
  }

  /** A space follows word i of the words in text. */
  predicate SpaceAfter(text: string, words: seq<string>, i: nat)
    requires i < |words|
  {
    WordStart(words, i) + |words[i]| < |text| && text[WordStart(words, i) + |words[i]|] == ' '
  }

  /**
   * text lays the words out in order with one space between neighbours: its
   * length is the words' characters plus the spaces, each word sits at its
   * start, and a space follows every word but the last.
   */
  predicate SpacedOut(text: string, words: seq<string>)
  {
    && |text| == (if words == [] then 0 else TotalLength(words) + |words| - 1)
    && (forall i :: 0 <= i < |words| ==> WordAt(text, words, i))
    && (forall i :: 0 <= i < |words| - 1 ==> SpaceAfter(text, words, i))
  }

  /** `" ".join(words)` lays the words out in order with one space between neighbours. */
  lemma {:induction false} JoinSpacedOut(words: seq<string>)
    ensures SpacedOut(JoinWithSpace(words), words)
    decreases |words|
  {
    var n := |words|;
    if n == 1 {
      assert words[..0] == [];
      assert WordAt(JoinWithSpace(words), words, 0);
    } else if n > 1 {
      var init := words[..n - 1];
      JoinSpacedOut(init);
      forall i | 0 <= i < n ensures WordAt(JoinWithSpace(words), words, i) {
        if i < n - 1 {
          InitWordKept(words, i);
        } else {
          LastWordPlaced(words);
        }
      }
      forall i | 0 <= i < n - 1 ensures SpaceAfter(JoinWithSpace(words), words, i) {
        if i < n - 2 {
          InitSpaceKept(words, i);
        } else {
          LastSpacePlaced(words);
        }
      }
    }
  }

  /** A word of all but the last word stays where it was when the last word is joined on. */
  lemma InitWordKept(words: seq<string>, i: nat)
    requires i < |words| - 1
    requires WordAt(JoinWithSpace(words[..|words| - 1]), words[..|words| - 1], i)
    ensures WordAt(JoinWithSpace(words), words, i)
  {
    var init := words[..|words| - 1];
    assert JoinWithSpace(words) == JoinWithSpace(init) + " " + words[|words| - 1];
    StartInInit(words, i);
    WordKeptAfterJoin(JoinWithSpace(init), JoinWithSpace(words), words, i);
  }

  /** A space between two of all but the last word stays where it was when the last word is joined on. */
  lemma InitSpaceKept(words: seq<string>, i: nat)
    requires i < |words| - 2
    requires SpaceAfter(JoinWithSpace(words[..|words| - 1]), words[..|words| - 1], i)
    ensures SpaceAfter(JoinWithSpace(words), words, i)
  {
    var init := words[..|words| - 1];
    assert JoinWithSpace(words) == JoinWithSpace(init) + " " + words[|words| - 1];
    StartInInit(words, i);
    SpaceKeptAfterJoin(JoinWithSpace(init), JoinWithSpace(words), words, i);
  }

  /** Joining a space and one more word onto a text keeps a word already in it. */
  lemma WordKeptAfterJoin(joined: string, text: string, words: seq<string>, i: nat)
    requires i < |words| - 1
    requires text == joined + " " + words[|words| - 1]
    requires WordStart(words, i) == WordStart(words[..|words| - 1], i)
    requires WordAt(joined, words[..|words| - 1], i)
    ensures WordAt(text, words, i)
  {
    var start := WordStart(words, i);
    SliceOfFirst(joined, " ", words[|words| - 1], start, start + |words[i]|);
  }

  /** Joining a space and one more word onto a text keeps a space already in it. */
  lemma SpaceKeptAfterJoin(joined: string, text: string, words: seq<string>, i: nat)
    requires i < |words| - 1
    requires text == joined + " " + words[|words| - 1]
    requires WordStart(words, i) == WordStart(words[..|words| - 1], i)
    requires SpaceAfter(joined, words[..|words| - 1], i)
    ensures SpaceAfter(text, words, i)
  {
    var end := WordStart(words, i) + |words[i]|;
    SliceOfFirst(joined, " ", words[|words| - 1], end, end + 1);
  }

  /** A slice within the first of three joined strings is that slice of the first. */
  lemma SliceOfFirst(a: string, b: string, c: string, lo: nat, hi: nat)
    requires lo <= hi <= |a|
    ensures (a + b + c)[lo..hi] == a[lo..hi]
    ensures lo < hi ==> (a + b + c)[lo] == a[lo]
  {
  }

  /** A word of all but the last word starts where it starts among those. */
  lemma StartInInit(words: seq<string>, i: nat)
    requires i < |words| - 1
    ensures WordStart(words, i) == WordStart(words[..|words| - 1], i)
  {
    assert words[..i] == words[..|words| - 1][..i];
  }

  /** The last word sits one space after the joined earlier words. */
  lemma LastWordPlaced(words: seq<string>)
    requires |words| > 1
    requires |JoinWithSpace(words[..|words| - 1])| == TotalLength(words[..|words| - 1]) + |words| - 2
    ensures WordAt(JoinWithSpace(words), words, |words| - 1)
  {
    var init := words[..|words| - 1];
    assert WordStart(words, |words| - 1) == |JoinWithSpace(init)| + 1;
  }

  /** The space before the last word follows the last of the earlier words. */
  lemma LastSpacePlaced(words: seq<string>)
    requires |words| > 1
    requires |JoinWithSpace(words[..|words| - 1])| == TotalLength(words[..|words| - 1]) + |words| - 2
    ensures SpaceAfter(JoinWithSpace(words), words, |words| - 2)
  {
    var init := words[..|words| - 1];
    assert init[..|init| - 1] == words[..|words| - 2];
    assert WordStart(words, |words| - 2) + |words[|words| - 2]| == |JoinWithSpace(init)|;
  }

  /** Joining two non-empty lists of words is joining each and putting one space between. */
  lemma {:induction false} JoinConcat(a: seq<string>, b: seq<string>)
    requires a != [] && b != []
    ensures JoinWithSpace(a + b) == JoinWithSpace(a) + " " + JoinWithSpace(b)
    decreases |b|
  {
    var ab := a + b;
    if |b| == 1 {
      assert ab[..|ab| - 1] == a;
    } else {
      var b' := b[..|b| - 1];
      assert ab[..|ab| - 1] == a + b';
      JoinConcat(a, b');
    }
  }
}
