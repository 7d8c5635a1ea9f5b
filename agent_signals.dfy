/**
 * The two numeric signals the trading agent computes from market data it has
 * fetched: the relative strength index over the last `period` closes
 * (`calculate_rsi`) and the counts of positive, neutral and negative news
 * scores (the counting loop of `get_stock_sentiment`).
 */
module AgentSignals {
  import opened Wrappers

  // ---------------------------------------------------------------- RSI

  /** Why `calculate_rsi` raises: too few closes, or a period of zero. */
  datatype RsiError = IndexError | ZeroDivisionError

  /**
   * The i-th most recent change, `aggs[-i].close - aggs[-i-1].close`:
   * Python's negative indices count from the end.
   */
  function Change(closes: seq<real>, i: nat): real
    requires 1 <= i < |closes|
  {
    closes[|closes| - i] - closes[|closes| - i - 1]
  }

  /** The sum of the non-negative changes among the last `k`. */
  function Gains(closes: seq<real>, k: nat): (g: real)
    requires k == 0 || k < |closes|
    ensures g >= 0.0
  {
    if k == 0 then 0.0
    else Gains(closes, k - 1) + (if Change(closes, k) >= 0.0 then Change(closes, k) else 0.0)
  }

  /** The sum of the magnitudes of the negative changes among the last `k`. */
  function Losses(closes: seq<real>, k: nat): (l: real)
    requires k == 0 || k < |closes|
    ensures l >= 0.0
  {
    if k == 0 then 0.0
    else Losses(closes, k - 1) + (if Change(closes, k) >= 0.0 then 0.0 else -Change(closes, k))
  }

  /** Gains less losses telescope to the net move over the last `k` steps. */
  lemma {:induction false} GainsLessLossesTelescopes(closes: seq<real>, k: nat)
    requires k < |closes|
    ensures Gains(closes, k) - Losses(closes, k) == closes[|closes| - 1] - closes[|closes| - 1 - k]
  {
    if k > 0 {
      GainsLessLossesTelescopes(closes, k - 1);
    }
  }

  /**
   * The index from the accumulated gains and losses as the source computes
   * it: `rs` is the ratio of the averages, or 0 when the average loss is 0.
   * Because `rs >= 0` the index lies in [0, 100).
   */
  function RsiFromTotals(gains: real, losses: real, period: nat): (rsi: real)
    requires period >= 1 && gains >= 0.0 && losses >= 0.0
    ensures 0.0 <= rsi < 100.0
    ensures losses == 0.0 ==> rsi == 0.0
  {
    var avgGain := gains / period as real;
    var avgLoss := losses / period as real;
    var rs := if avgLoss != 0.0 then avgGain / avgLoss else 0.0;
    100.0 - 100.0 / (1.0 + rs)
  }

  /**
   * `calculate_rsi(aggs, period)` over the closing prices: it raises an
   * `IndexError` unless there are at least `period + 1` closes, and a
   * `ZeroDivisionError` for a period of 0; otherwise it returns the index
   * of the gains and losses over the last `period` changes.
   */
  method CalculateRsi(closes: seq<real>, period: nat) returns (r: Result<real, RsiError>)
    ensures r.Ok? <==> period >= 1 && |closes| >= period + 1
    ensures period == 0 ==> r == Err(ZeroDivisionError)
    ensures period >= 1 && |closes| < period + 1 ==> r == Err(IndexError)
    ensures r.Ok? ==> r.value == RsiFromTotals(Gains(closes, period), Losses(closes, period), period)
  {
    var gains, losses := 0.0, 0.0;
    for i := 1 to period + 1
      invariant i == 1 || i <= |closes|
      invariant gains == Gains(closes, i - 1) && losses == Losses(closes, i - 1)
    {
      if |closes| < i + 1 {
        return Err(IndexError);
      }
      var change := closes[|closes| - i] - closes[|closes| - i - 1];
      if change >= 0.0 {
        gains := gains + change;
      } else {
        losses := losses - change;
      }
    }
    if period == 0 {
      return Err(ZeroDivisionError);
    }
    var avgGain := gains / period as real;
    var avgLoss := losses / period as real;
    var rs := if avgLoss != 0.0 then avgGain / avgLoss else 0.0;
    return Ok(100.0 - 100.0 / (1.0 + rs));
  }

  /**
   * With no losing step the source reports 0, the bottom of the scale, even
   * when every step was a gain: fifteen rising closes give 0.
   */
  lemma RsiAllGainsAsWritten(closes: seq<real>, period: nat)
    requires period >= 1 && |closes| >= period + 1
    requires forall i :: 1 <= i <= period ==> Change(closes, i) > 0.0
    ensures Gains(closes, period) > 0.0 && Losses(closes, period) == 0.0
    ensures RsiFromTotals(Gains(closes, period), Losses(closes, period), period) == 0.0
  {
    AllGainsNoLosses(closes, period);
  }

  lemma {:induction false} AllGainsNoLosses(closes: seq<real>, k: nat)
    requires k < |closes|
    requires forall i :: 1 <= i <= k ==> Change(closes, i) > 0.0
    ensures Losses(closes, k) == 0.0
    ensures k >= 1 ==> Gains(closes, k) > 0.0
  {
    if k > 0 {
      AllGainsNoLosses(closes, k - 1);
    }
  }

  /**
   * The index with the standard reading of a zero average loss: 100 when
   * there were gains, and the neutral 50 for a series that did not move.
   * Otherwise it is the source's formula.
   */
  function RsiCorrected(gains: real, losses: real, period: nat): (rsi: real)
    requires period >= 1 && gains >= 0.0 && losses >= 0.0
    ensures 0.0 <= rsi <= 100.0
    ensures rsi == 100.0 <==> losses == 0.0 && gains > 0.0
    ensures rsi == 0.0 <==> gains == 0.0 && losses > 0.0
    ensures losses > 0.0 ==> rsi == RsiFromTotals(gains, losses, period)
  {
    if losses == 0.0 then (if gains > 0.0 then 100.0 else 50.0)
    else
      var rsi := 100.0 * gains / (gains + losses);
      RatioForm(gains, losses, period);
      rsi
  }

  /** With a positive average loss, `100 - 100/(1 + rs)` is `100 * gains / (gains + losses)`. */
  lemma RatioForm(gains: real, losses: real, period: nat)
    requires period >= 1 && gains >= 0.0 && losses > 0.0
    ensures RsiFromTotals(gains, losses, period) == 100.0 * gains / (gains + losses)
    ensures 0.0 <= 100.0 * gains / (gains + losses) < 100.0
  {
    var p := period as real;
    var d := gains + losses;
    var rs := (gains / p) / (losses / p);
    assert rs == gains / losses;
    assert rs * losses == gains;
    assert (1.0 + rs) * losses == d;
    var a := 100.0 / (1.0 + rs);
    assert a * (1.0 + rs) == 100.0;
    assert a * d == 100.0 * losses by {
      calc {
        a * d;
        a * ((1.0 + rs) * losses);
        (a * (1.0 + rs)) * losses;
        100.0 * losses;
      }
    }
    var b := 100.0 * gains / d;
    assert b * d == 100.0 * gains;
    calc {
      (100.0 - a) * d;
      100.0 * d - a * d;
      100.0 * d - 100.0 * losses;
      100.0 * gains;
      b * d;
    }
    MulCancel(100.0 - a, b, d);
    assert 0.0 <= b < 100.0;
  }

  lemma MulCancel(x: real, y: real, d: real)
    requires d != 0.0 && x * d == y * d
    ensures x == y
  {
    assert (x - y) * d == 0.0;
  }

  /** The corrected index is symmetric: swapping gains and losses maps it to 100 minus it. */
  lemma RsiCorrectedSymmetric(gains: real, losses: real, period: nat)
    requires period >= 1 && gains >= 0.0 && losses >= 0.0
    ensures RsiCorrected(losses, gains, period) == 100.0 - RsiCorrected(gains, losses, period)
  {
    if gains > 0.0 && losses > 0.0 {
      var d := gains + losses;
      var x, y := 100.0 * losses / d, 100.0 * gains / d;
      assert x * d == 100.0 * losses && y * d == 100.0 * gains;
      calc {
        (x + y) * d;
        x * d + y * d;
        100.0 * losses + 100.0 * gains;
        100.0 * d;
      }
      MulCancel(x + y, 100.0, d);
      assert losses + gains == d;
    }
  }

  // ---------------------------------------------------------------- news sentiment

  datatype Sentiment = Positive | Neutral | Negative

  /** Above 0.3 is positive, below -0.3 negative; the closed band between is neutral. */
  function Classify(score: real): (s: Sentiment)
    ensures s == Positive <==> score > 0.3
    ensures s == Negative <==> score < -0.3
    ensures s == Neutral <==> -0.3 <= score <= 0.3
  {
    if score > 0.3 then Positive
    else if score < -0.3 then Negative
    else Neutral
  }

  /** The number of scores in a bucket. */
  function CountOf(scores: seq<real>, s: Sentiment): (n: nat)
    ensures n <= |scores|
    decreases |scores|
  {
    if scores == [] then 0
    else CountOf(scores[..|scores| - 1], s) + (if Classify(scores[|scores| - 1]) == s then 1 else 0)
  }

  /** The three buckets partition the scores. */
  lemma {:induction false} BucketsPartition(scores: seq<real>)
    ensures CountOf(scores, Positive) + CountOf(scores, Neutral) + CountOf(scores, Negative) == |scores|
    decreases |scores|
  {
    if scores != [] {
      BucketsPartition(scores[..|scores| - 1]);
    }
  }

  /** The dictionary `get_stock_sentiment` returns. */
  datatype SentimentCounts = SentimentCounts(positive: nat, neutral: nat, negative: nat)

  /**
   * The counting loop of `get_stock_sentiment` over the articles' scores:
   * each counter is the size of its bucket, and together they count every
   * article once.
   */
  method GetStockSentiment(scores: seq<real>) returns (counts: SentimentCounts)
    ensures counts.positive == CountOf(scores, Positive)
    ensures counts.neutral == CountOf(scores, Neutral)
    ensures counts.negative == CountOf(scores, Negative)
    ensures counts.positive + counts.neutral + counts.negative == |scores|
  {
    var positive, neutral, negative := 0, 0, 0;
    for i := 0 to |scores|
      invariant positive == CountOf(scores[..i], Positive)
      invariant neutral == CountOf(scores[..i], Neutral)
      invariant negative == CountOf(scores[..i], Negative)
    {
      assert scores[..i + 1][..i] == scores[..i];
      var score := scores[i];
      if score > 0.3 {
        positive := positive + 1;
      } else if score < -0.3 {
        negative := negative + 1;
      } else {
        neutral := neutral + 1;
      }
    }
    assert scores[..|scores|] == scores;
    BucketsPartition(scores);
    counts := SentimentCounts(positive, neutral, negative);
  }
}
