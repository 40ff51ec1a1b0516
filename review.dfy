/**
 * The reviews page: the mean review score and the number of scores, the
 * customer-segment multiselect, and for the chosen segments the score
 * distribution, the text of the comments behind the word cloud and the mean
 * score per customer state.
 */
module ReviewPage {
  import opened Wrappers
  import opened Series
  import opened Measures
  import opened Text
  import opened Table

  /** `review_score.mean()`: NaN exactly when no filtered row has a score. */
  function AverageReviewScore(f: Filtered): (m: Option<real>)
    ensures m.None? <==> forall i :: 0 <= i < |f.cityState| ==> f.cityState[i].reviewScore.None?
  {
    CountZero(Col(f.cityState, ReviewScore));
    Mean(Col(f.cityState, ReviewScore))
  }

  /** When every score lies in [lo, hi] (1 to 5 on the site), so does their mean. */
  lemma AverageReviewScoreWithin(f: Filtered, lo: int, hi: int)
    requires forall i :: 0 <= i < |f.cityState| && f.cityState[i].reviewScore.Some? ==> lo <= f.cityState[i].reviewScore.value <= hi
    requires AverageReviewScore(f).Some?
    ensures lo as real <= AverageReviewScore(f).value <= hi as real
  {
    MeanBounds(Col(f.cityState, ReviewScore), lo as real, hi as real);
  }

  /** `review_score.count()`: the filtered rows that have a score. */
  function TotalReviews(f: Filtered): (n: nat)
    ensures n == |Where(f.cityState, HasValue(ReviewScoreKey))|
    ensures n <= |f.cityState|
    ensures n == 0 <==> forall i :: 0 <= i < |f.cityState| ==> f.cityState[i].reviewScore.None?
  {
    CountRows(f.cityState, ReviewScoreKey);
    CountZero(Col(f.cityState, ReviewScoreKey));
    Count(Col(f.cityState, ReviewScoreKey))
  }

  /**
   * The multiselect's choices, `Customer_segment.unique()` of the filtered
   * rows: each segment once, NaN included when some row has none.
   */
  function SegmentOptions(f: Filtered): (opts: seq<Option<string>>)
    ensures Distinct(opts)
    ensures forall s :: s in opts <==> exists i :: 0 <= i < |f.cityState| && f.cityState[i].customerSegment == s
  {
    var col := Col(f.cityState, SegmentKey);
    assert forall s :: s in col <==> exists i :: 0 <= i < |f.cityState| && f.cityState[i].customerSegment == s;
    Unique(col)
  }

  /** The mask `Customer_segment.isin(chosen)`; pandas matches NaN against a NaN in the list. */
  function SegmentIn(chosen: seq<Option<string>>): Row -> bool
  {
    (x: Row) => x.customerSegment in chosen
  }

  /** The rows of the chosen segments, in order (`filtered_segment_city` and `filtered_segment_date`). */
  function SelectSegments(rows: seq<Row>, chosen: seq<Option<string>>): (r: seq<Row>)
    ensures forall x :: x in r <==> x in rows && x.customerSegment in chosen
    ensures |r| <= |rows|
  {
    Where(rows, SegmentIn(chosen))
  }

  /** With the default choice (every option), the city and state rows are kept whole. */
  lemma DefaultSegmentsKeepAll(f: Filtered)
    ensures SelectSegments(f.cityState, SegmentOptions(f)) == f.cityState
  {
    var opts := SegmentOptions(f);
    forall i | 0 <= i < |f.cityState| ensures SegmentIn(opts)(f.cityState[i]) {
      assert f.cityState[i].customerSegment in opts;
    }
    WhereAll(f.cityState, SegmentIn(opts));
  }

  /** The pie chart: each score of the chosen segments' rows with its number of rows. */
  function ScoreDistribution(f: Filtered, chosen: seq<Option<string>>): (e: seq<(int, nat)>)
    ensures KeysOf(e) == Keys(Col(SelectSegments(f.cityState, chosen), ReviewScoreKey))
    ensures forall i :: 0 <= i < |e| ==> 0 < e[i].1 == |RowsWith(SelectSegments(f.cityState, chosen), ReviewScoreKey, e[i].0)|
  {
    CountByKey(SelectSegments(f.cityState, chosen), ReviewScoreKey)
  }

  /** The slices of the pie add up to the chosen segments' rows that have a score. */
  lemma ScoreDistributionTotal(f: Filtered, chosen: seq<Option<string>>)
    ensures TotalCount(ScoreDistribution(f, chosen)) == |Where(SelectSegments(f.cityState, chosen), HasValue(ReviewScoreKey))|
  {
    CountByKeyTotal(SelectSegments(f.cityState, chosen), ReviewScoreKey);
  }

  /** The placeholder the table holds for a review without a comment. */
  const NoComment := "NoComment"

  /** The mask `review_comment_message.notna() & (review_comment_message != "NoComment")`. */
  predicate HasComment(r: Row)
  {
    r.reviewCommentMessage.Some? && r.reviewCommentMessage.value != NoComment
  }

  /** A row's comment; only read for rows with a comment. */
  function CommentOf(r: Row): string
  {
    if r.reviewCommentMessage.Some? then r.reviewCommentMessage.value else ""
  }

  /** `filtered_reviews`: the comments of the chosen segments' rows that have one, in row order. */
  function Comments(f: Filtered, chosen: seq<Option<string>>): (c: seq<string>)
    ensures |c| == |Where(SelectSegments(f.cityState, chosen), HasComment)|
    ensures forall i :: 0 <= i < |c| ==> c[i] != NoComment && Some(c[i]) == Where(SelectSegments(f.cityState, chosen), HasComment)[i].reviewCommentMessage
  {
    var kept := Where(SelectSegments(f.cityState, chosen), HasComment);
    assert forall i :: 0 <= i < |kept| ==> kept[i] in kept;
    Col(kept, CommentOf)
  }

  /**
   * `" ".join(filtered_reviews)`, the word cloud's text: empty without
   * comments, and otherwise the comments in row order, each at its start,
   * with one space between neighbouring comments and nothing else.
   */
  function CommentText(f: Filtered, chosen: seq<Option<string>>): (text: string)
    ensures Comments(f, chosen) == [] ==> text == ""
    ensures Comments(f, chosen) != [] ==> |text| == TotalLength(Comments(f, chosen)) + |Comments(f, chosen)| - 1
    ensures SpacedOut(text, Comments(f, chosen))
  {
    var c := Comments(f, chosen);
    JoinSpacedOut(c);
    JoinWithSpace(c)
  }

  /**
   * The choropleth: each customer state of the date-filtered rows of the
   * chosen segments (the city and state choice is not applied) with the mean
   * score of its rows, NaN for a state without scores.
   */
  function ReviewByState(f: Filtered, chosen: seq<Option<string>>): (e: seq<(string, Option<real>)>)
    ensures KeysOf(e) == Keys(Col(SelectSegments(f.date, chosen), StateKey))
    ensures forall i :: 0 <= i < |e| ==> e[i].1 == Mean(Col(RowsWith(SelectSegments(f.date, chosen), StateKey, e[i].0), ReviewScore))
  {
    MeanByKey(SelectSegments(f.date, chosen), StateKey, ReviewScore)
  }

  /** When every score lies in [lo, hi], so does every state's mean. */
  lemma ReviewByStateWithin(f: Filtered, chosen: seq<Option<string>>, lo: int, hi: int)
    requires forall i :: 0 <= i < |f.date| && f.date[i].reviewScore.Some? ==> lo <= f.date[i].reviewScore.value <= hi
    ensures var e := ReviewByState(f, chosen);
            forall i :: 0 <= i < |e| && e[i].1.Some? ==> lo as real <= e[i].1.value <= hi as real
  {
    var e := ReviewByState(f, chosen);
    var rows := SelectSegments(f.date, chosen);
    forall i | 0 <= i < |e| && e[i].1.Some? ensures lo as real <= e[i].1.value <= hi as real {
      var group := RowsWith(rows, StateKey, e[i].0);
      var scores := Col(group, ReviewScore);
      forall j | 0 <= j < |scores| && scores[j].Some? ensures lo as real <= scores[j].value <= hi as real {
        assert group[j] in group;
        var m :| 0 <= m < |f.date| && f.date[m] == group[j];
      }
      MeanBounds(scores, lo as real, hi as real);
    }
  }
}
