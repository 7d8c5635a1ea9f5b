/**
 * The news-sentiment score (`calculate_sentiment_score`): the mean of the
 * articles' overall scores, and the one-year query window
 * (`fetch_sentiment_info`) it is requested for.
 */
module SentimentScore {
  import opened Wrappers
  import opened Calendar

  /** An article of the feed; its `overall_sentiment_score` may be absent. */
  datatype Article = Article(overallSentimentScore: Option<real>)

  /** The response body; its `feed` key may be absent. */
  datatype SentimentData = SentimentData(feed: Option<seq<Article>>)

  /** An article's score, 0 when the key is absent. */
  function Score(a: Article): real {
    match a.overallSentimentScore
    case Some(s) => s
    case None => 0.0
  }

  /** The sum of the articles' scores. */
  function Total(articles: seq<Article>): real
    decreases |articles|
  {
    if articles == [] then 0.0 else Total(articles[..|articles| - 1]) + Score(articles[|articles| - 1])
  }

  /** The articles of a response: the `feed`, or none when the key is absent. */
  function Articles(data: SentimentData): seq<Article> {
    match data.feed
    case Some(articles) => articles
    case None => []
  }

  /**
   * `calculate_sentiment_score`: None when the feed is absent or empty,
   * otherwise the arithmetic mean of the article scores.
   */
  method CalculateSentimentScore(data: SentimentData) returns (r: Option<real>)
    ensures r.None? <==> data.feed.None? || data.feed.value == []
    ensures r.Some? ==> Articles(data) != [] && r.value == Mean(Articles(data))
    ensures r.Some? ==> r.value * |Articles(data)| as real == Total(Articles(data))
  {
    var articles := if data.feed.Some? then data.feed.value else [];
    if articles == [] {
      return None;
    }
    var totalScore := 0.0;
    var articleCount := |articles|;
    for i := 0 to |articles|
      invariant totalScore == Total(articles[..i])
    {
      assert articles[..i + 1][..i] == articles[..i];
      var article := articles[i];
      var sentiment := if article.overallSentimentScore.Some? then article.overallSentimentScore.value else 0.0;
      totalScore := totalScore + sentiment;
    }
    assert articles[..|articles|] == articles;
    return if articleCount > 0 then Some(totalScore / articleCount as real) else None;
  }

  /** The mean: the total divided by the number of articles. */
  function Mean(articles: seq<Article>): real
    requires articles != []
  {
    Total(articles) / |articles| as real
  }

  lemma {:induction false} TotalBounds(articles: seq<Article>, lo: real, hi: real)
    requires forall i :: 0 <= i < |articles| ==> lo <= Score(articles[i]) <= hi
    ensures |articles| as real * lo <= Total(articles) <= |articles| as real * hi
    decreases |articles|
  {
    if articles != [] {
      var init := articles[..|articles| - 1];
      assert forall i :: 0 <= i < |init| ==> init[i] == articles[i];
      TotalBounds(init, lo, hi);
      var n := |init| as real;
      assert |articles| as real * lo == n * lo + lo;
      assert |articles| as real * hi == n * hi + hi;
    }
  }

  /** The mean lies between any lower and upper bound on the individual scores. */
  lemma MeanBetweenBounds(articles: seq<Article>, lo: real, hi: real)
    requires articles != []
    requires forall i :: 0 <= i < |articles| ==> lo <= Score(articles[i]) <= hi
    ensures lo <= Mean(articles) <= hi
  {
    TotalBounds(articles, lo, hi);
    var n := |articles| as real;
    var m := Mean(articles);
    assert m * n == Total(articles);
    assert (m - lo) * n >= 0.0;
    assert (hi - m) * n >= 0.0;
  }

  /** Taking one article out of the list takes its score out of the total. */
  lemma {:induction false} TotalRemove(b: seq<Article>, j: nat)
    requires j < |b|
    ensures Total(b) == Total(b[..j] + b[j + 1..]) + Score(b[j])
    decreases |b|
  {
    var rest := b[..j] + b[j + 1..];
    var init := b[..|b| - 1];
    if j == |b| - 1 {
      assert rest == init;
    } else {
      TotalRemove(init, j);
      assert rest[..|rest| - 1] == init[..j] + init[j + 1..];
      assert rest[|rest| - 1] == b[|b| - 1];
    }
  }

  /** Dropping the last article of `a` and a copy of it from `b` keeps the two lists permutations of each other. */
  lemma RemoveMatching(a: seq<Article>, b: seq<Article>, j: nat)
    requires multiset(a) == multiset(b) && a != [] && j < |b| && b[j] == a[|a| - 1]
    ensures multiset(a[..|a| - 1]) == multiset(b[..j] + b[j + 1..])
  {
    var x := b[j];
    assert a == a[..|a| - 1] + [x];
    assert multiset(a) == multiset(a[..|a| - 1]) + multiset{x};
    assert b == b[..j] + [x] + b[j + 1..];
    assert multiset(b) == multiset(b[..j]) + multiset{x} + multiset(b[j + 1..]);
    assert multiset(b[..j] + b[j + 1..]) == multiset(b[..j]) + multiset(b[j + 1..]);
    assert multiset(a[..|a| - 1]) == multiset(a) - multiset{x};
    assert multiset(b[..j] + b[j + 1..]) == multiset(b) - multiset{x};
  }

  /** The total, and so the score, does not depend on the order of the articles. */
  lemma {:induction false} TotalOrderIndependent(a: seq<Article>, b: seq<Article>)
    requires multiset(a) == multiset(b)
    ensures Total(a) == Total(b)
    ensures a != [] ==> b != [] && Mean(a) == Mean(b)
    decreases |a|
  {
    assert |a| == |multiset(a)| == |multiset(b)| == |b|;
    if a != [] {
      var x := a[|a| - 1];
      assert x in multiset(a);
      var j :| 0 <= j < |b| && b[j] == x;
      RemoveMatching(a, b, j);
      TotalOrderIndependent(a[..|a| - 1], b[..j] + b[j + 1..]);
      TotalRemove(b, j);
    }
  }

  /** The window `fetch_sentiment_info` queries: from 365 days before `date` up to `date`. */
  function SentimentWindow(date: Day): (window: (Day, Day))
    ensures window.1 == date && window.1 - window.0 == 365
  {
    (date - 365, date)
  }

  /**
   * The window is a calendar year back except across a February 29: it
   * then starts one day later in the month than the same date a year
   * earlier.
   */
  lemma WindowIsCalendarYear(year: int, month: int, day: int)
    requires ValidDate(year, month, day) && year >= 2
    ensures month >= 3 ==>
              ValidDate(year - 1, month, day) &&
              SentimentWindow(Ordinal(year, month, day)).0 == Ordinal(year - 1, month, day) + LeapDay(year)
    ensures month <= 2 && ValidDate(year - 1, month, day) ==>
              SentimentWindow(Ordinal(year, month, day)).0 == Ordinal(year - 1, month, day) + LeapDay(year - 1)
  {
    DaysBeforeYearStep(year);
    DaysBeforeMonthShift(year, year - 1, month);
  }

  /**
   * The window is 365 days, not a calendar year: across a February 29 it
   * starts a day later in the month than the end date.
   */
  lemma WindowAcrossLeapDay()
    ensures SentimentWindow(Ordinal(2020, 3, 1)).0 == Ordinal(2019, 3, 2)
    ensures SentimentWindow(Ordinal(2019, 3, 1)).0 == Ordinal(2018, 3, 1)
  {
  }
}
