# Options-analysis utilities: a Dafny model

This project models the deterministic core of a small options-analysis
toolkit. The toolkit fetches option chains and prices, values options and
simple strategies, and computes a few market signals. The model covers:

- **Option-chain utilities** (`functions.py`):
  - the strike interval of a chain;
  - the iron-condor wing filter;
  - the loop that attaches implied volatilities to a chain.
- **Calendar helpers** `get_past_monday` and `get_next_friday`.
  - Three identical copies exist: `functions.py`,
    `services/data_fetch_market_data_app.py` and `services/data_fetch_coinapi.py`.
  - One `Calendar` module serves all three.
  - Dates are proleptic day ordinals, as `date.toordinal()` gives them.
  - The weekday is `(d + 6) % 7`.
- **Intrinsic value and time value** (`tools.py`).
- **Strategy models** (`models/`):
  - the long straddle and the long put, with their profit/loss and summary dictionaries;
  - the Black-Scholes-Merton pricer is a function-typed parameter.
- **Small aggregations**:
  - the RSI loop and the sentiment-bucket counting loop (`agent.py`);
  - the mean news-sentiment score and its 365-day query window (`sentiment_alpha.py`);
  - the reshaping of parallel candle arrays into records (`rename_market_data`).

How Python maps to Dafny:

- Python dictionaries become datatypes. A key that the code reads with
  `.get` or tests with `in` is an `Option`. So is a key it indexes
  directly where its absence is modelled as a `KeyError` (`t` of the
  candle arrays, `strike` of a chain row). Every other key is a plain field.
- Raised exceptions become `Err` values of a `Result`: `KeyError`,
  `IndexError`, `UnboundLocalError` and `ZeroDivisionError`.
- Loops that build a list or accumulate a total are methods with `for`
  loops. Most are proved equal to a recursive specification function, and
  the lemmas state the source's promises about that function.
  `RenameMarketData` is proved equal, record by record, to the closed form
  `QuoteAt`.
- Prices are exact `real`s.

A long put's profit is at most the strike less the premium, reached at
spot 0. The code reports the string "Unlimited (as underlying price
approaches 0)" instead. `Strategies.LongPutExecute` follows the code, and
`Strategies.LongPutExecuteCorrected` reports the bound (see Findings).

## Model

| member | source | states |
|---|---|---|
| Calendar.Weekday | functions.py:33 | The weekday of a day lies in 0..6 (Monday 0). |
| Calendar.PastMonday | functions.py:31-35 | The result is a Monday. It lies 0 to 6 days before the target, exactly `weekday(target)` days. |
| Calendar.NextFriday | functions.py:38-41 | The result is a Friday. It lies 0 to 6 days after the start, exactly `(4 - weekday(start)) % 7` days. |
| Calendar.PastMondayIdempotent | services/data_fetch_coinapi.py:53-57 | A day is its own past Monday iff it is a Monday. Applying the helper twice equals applying it once. |
| Calendar.NextFridayFixedPoint | services/data_fetch_market_data_app.py:79-82 | A day is its own next Friday iff it is a Friday. Applying the helper twice equals applying it once. |
| Calendar.PastMondayUnique | services/data_fetch_market_data_app.py:72-76 | Any Monday 0 to 6 days before the target is the helper's result. |
| Calendar.NextFridayUnique | services/data_fetch_coinapi.py:60-63 | Any Friday 0 to 6 days after the start is the helper's result. |
| Calendar.FridayOfMondayWeek | functions.py:48-51 | The next Friday of a past Monday is that Monday plus 4 days. |
| Calendar.TargetWeek | services/data_fetch_coinapi.py:68-73 | `get_day` yields a Monday 60 to 66 days before today, and the Friday 4 days after it. |
| OptionValues.IntrinsicValue | tools.py:74-89 | Intrinsic value is never negative. For "call" it is 0 or `S - K` and at least `S - K`. For any other string it is 0 or `K - S` and at least `K - S`. |
| OptionValues.NonCallIsPut | tools.py:86-89 | Every option-type string other than "call" is valued as a put. |
| OptionValues.IntrinsicParity | tools.py:86-89 | Call value minus put value is `S - K`. At most one of the two is non-zero. Both are zero iff `S == K`. |
| OptionValues.TimeValue | tools.py:91-102 | Time value is at least 0 and at least `price - intrinsic`. It is 0 when the price does not exceed the intrinsic value and the excess otherwise. Intrinsic plus time value is at least the price. |
| OptionValues.TimeValueLeast | tools.py:102 | Time value is the least non-negative amount that brings the intrinsic value up to the price. |
| Strategies.StraddleExecute | models/model_long_straddle.py:17-35 | Total cost is call price plus put price. There are two break-even points: their mean is the strike and they lie `2 * total_cost` apart. With non-negative leg prices, lower <= strike <= upper. |
| Strategies.StraddlePayoffAsWritten | models/model_long_straddle.py:14-15 | The profit formula as written: profit plus premium equals spot minus strike. |
| Strategies.StraddleProfitLoss | models/model_long_straddle.py:5-15 | `calculate_profit_loss` equals spot minus strike minus the `total_cost` that `execute_strategy` reports. |
| Strategies.StraddleAsWrittenMissesLowerBreakEven | models/model_long_straddle.py:14-34 | The written formula is zero at the upper break-even point. At the lower one it is `-2 * total_cost`, which is not zero. |
| Strategies.StraddleAsWrittenExample | models/model_long_straddle.py:14-15 | Spot 90, strike 100, call 2, put 11: the written formula gives -23, the straddle payoff gives -3. |
| Strategies.StraddlePayoff | models/model_long_straddle.py:14-15 | The corrected payoff never loses more than the premium, and loses exactly the premium at the strike. It is zero iff the spot is at a break-even point. Above the strike it agrees with the written formula. |
| Strategies.StraddleProfitLossCorrected | models/model_long_straddle.py:5-15 | The corrected profit/loss is zero iff the spot is one of `execute_strategy`'s break-even points. It agrees with the written formula when spot >= strike. |
| Strategies.LongPutPayoff | models/model_long_put.py:10 | The put payoff is put intrinsic value minus premium. It is at least `-premium`, and exactly `-premium` out of the money. |
| Strategies.LongPutPayoffNonIncreasing | models/model_long_put.py:10 | The put payoff does not increase as the spot rises. |
| Strategies.LongPutExecute | models/model_long_put.py:12-23 | Max loss is the put price, and break-even plus max loss is the strike. The payoff at break-even is zero. Max profit is the fixed "Unlimited" marker, never a number. |
| Strategies.LongPutProfitLoss | models/model_long_put.py:5-10 | `calculate_profit_loss` is put intrinsic value minus the reported max loss. It is at least `-max_loss`, and exactly `-max_loss` when spot >= strike. |
| Strategies.LongPutProfitIsCapped | models/model_long_put.py:10-22 | The marker is "Unlimited", yet the profit at every non-negative spot is at most `max(K, 0) - premium`, and spot 0 attains that. |
| Strategies.LongPutExecuteCorrected | models/model_long_put.py:12-23 | Max profit is a number: the payoff at spot 0, which bounds the payoff at every non-negative spot. Every other field equals `execute_strategy`'s. |
| StrikeInterval.StrikeSetMembers | functions.py:146 | A value is among the chain's strikes iff some row carries that strike. |
| StrikeInterval.SortedDistinct | functions.py:146 | `sorted(set(xs))` is strictly increasing and has exactly the elements of `xs`. |
| StrikeInterval.Gaps | functions.py:152 | Entry i is `s[i+1] - s[i]`, and there is one entry fewer than elements. |
| StrikeInterval.Min | functions.py:158 | `min` returns an element that is no larger than any element. |
| StrikeInterval.CalculateStrikeIntervals | functions.py:142-162 | The result is None iff fewer than two distinct strikes exist; rows without a strike are ignored. Otherwise it is positive and at most the distance between any two distinct strikes. It is the distance between two strikes with no strike in between. |
| StrikeInterval.GapIsMinimal | functions.py:152-158 | The smallest consecutive gap of an increasing sequence is positive. It is no larger than the difference of any two of its elements. |
| StrikeInterval.MinGapIsAdjacent | functions.py:152-158 | The smallest gap is the distance between two neighbours with nothing in between. |
| StrikeInterval.FiveWideChain | functions.py:146-158 | Strikes 95, 100, 105 and 110, plus a row without a strike, give the interval 5. |
| StrikeInterval.SingleStrikeChain | functions.py:146-158 | A chain whose rows all carry the same strike has no interval. |
| ContractFilter.Selected | functions.py:215-226 | The selection is never longer than the input. |
| ContractFilter.FilterContracts | functions.py:215-226 | The loop returns exactly `Selected` of the input. Every returned contract expires on the requested date and lies strictly inside its wing's band. |
| ContractFilter.SelectedExactly | functions.py:217-226 | A contract is selected iff it is in the input and passes the band test. |
| ContractFilter.SelectedInOrder | functions.py:217-226 | The selection is an order-preserving subsequence of the input. |
| ContractFilter.NonPositiveWidthSelectsNothing | functions.py:221-224 | With width <= 0 both bands are empty, so nothing is selected. |
| ContractFilter.BandEdgesExcluded | functions.py:221-224 | A strike at `current ± w` or `current ± 2w` is never selected. |
| ChainAnnotator.ReferenceDayIsSaturday | functions.py:241 | The reference date 2019-02-09 is ordinal 737099, a Saturday. |
| ChainAnnotator.TimeToExpiry | functions.py:254 | 365 times T is the day count from the reference date. T is non-negative iff expiry is on or after it. |
| ChainAnnotator.Lower | functions.py:247 | Lower-casing keeps the length and leaves no capital letter. Every character that is not a capital is unchanged. |
| ChainAnnotator.LowerIdempotent | functions.py:247 | Lower-casing twice is lower-casing once. |
| ChainAnnotator.OptionTypeOfPublishedNames | functions.py:247 | "Call" and "Put" lower-case to "call" and "put". |
| ChainAnnotator.Annotate | functions.py:246-267 | A row is kept iff it has a strike, a positive market price, a positive strike and a solver answer. A kept row is copied unchanged with the solver's volatility attached. |
| ChainAnnotator.KeptRows | functions.py:244-269 | No more records are emitted than rows. |
| ChainAnnotator.CalculateIvForContracts | functions.py:230-269 | The loop raises `KeyError('strike')` iff some row lacks a strike. Otherwise it returns the kept rows, annotated, in row order. |
| ChainAnnotator.KeptRowsInOrder | functions.py:244-269 | The rows behind the output are an order-preserving subsequence of the input. |
| ChainAnnotator.KeptRowsExactly | functions.py:256-264 | Each output record is an input row that `Annotate` keeps. Each input row that `Annotate` keeps appears in the output. |
| ChainAnnotator.AnnotatedProperties | functions.py:245-264 | The result is an error iff some row lacks a strike. On success the output is no longer than the input and in input order. Each record has a positive ask and strike and carries the solver's answer for that row's price, strike, `(expiry - 2019-02-09)/365`, rate 0.0398 and lower-cased type. |
| ChainAnnotator.UnpricedRowsSkipped | functions.py:257-267 | A row with no ask, a non-positive ask or a non-positive strike is never emitted. |
| AgentSignals.Gains | agent.py:53-59 | Accumulated gains are never negative. |
| AgentSignals.Losses | agent.py:53-59 | Accumulated losses are never negative. |
| AgentSignals.GainsLessLossesTelescopes | agent.py:54-59 | Gains minus losses over the last k steps is `close[-1] - close[-k-1]`. |
| AgentSignals.RsiFromTotals | agent.py:60-63 | The index lies in [0, 100). It is 0 when there are no losses. |
| AgentSignals.CalculateRsi | agent.py:52-63 | Succeeds iff period >= 1 and there are at least `period + 1` closes. Period 0 gives `ZeroDivisionError`; too few closes give `IndexError`. On success the value is the index of the last `period` gains and losses. |
| AgentSignals.AllGainsNoLosses | agent.py:54-59 | When every change among the last k is positive, losses are 0 and gains are positive. |
| AgentSignals.RsiAllGainsAsWritten | agent.py:62-63 | When every change is a gain, the code reports an RSI of 0. |
| AgentSignals.RsiCorrected | agent.py:60-63 | The corrected index lies in [0, 100]. It is 100 iff there are gains but no losses, and 0 iff there are losses but no gains. With losses it equals the code's formula. |
| AgentSignals.RatioForm | agent.py:60-63 | With losses, `100 - 100/(1 + rs)` equals `100 * gains / (gains + losses)`, which lies in [0, 100). |
| AgentSignals.RsiCorrectedSymmetric | agent.py:60-63 | Swapping gains and losses maps the corrected index x to 100 - x. |
| AgentSignals.Classify | agent.py:32-37 | A score is positive iff it is above 0.3 and negative iff it is below -0.3. It is neutral iff it lies in the closed band [-0.3, 0.3]. |
| AgentSignals.CountOf | agent.py:29-37 | A bucket count never exceeds the number of scores. |
| AgentSignals.BucketsPartition | agent.py:29-38 | The three bucket counts add up to the number of scores. |
| AgentSignals.GetStockSentiment | agent.py:26-38 | Each counter is the size of its bucket, and the three counters sum to the number of articles. |
| SentimentScore.CalculateSentimentScore | sentiment_alpha.py:15-27 | None iff the feed is absent or empty. Otherwise the result is the mean of the scores, with a missing score counting 0, and result times count equals the total. |
| SentimentScore.TotalBounds | sentiment_alpha.py:20-25 | With every score in [lo, hi], the total lies in [n*lo, n*hi]. |
| SentimentScore.MeanBetweenBounds | sentiment_alpha.py:20-27 | The mean lies between any lower and upper bound on the scores. |
| SentimentScore.TotalRemove | sentiment_alpha.py:23-25 | Removing one article subtracts exactly its score from the total. |
| SentimentScore.TotalOrderIndependent | sentiment_alpha.py:23-27 | Two feeds with the same articles in any order have the same total. When they are non-empty they also have the same mean, so the same score. |
| SentimentScore.SentimentWindow | sentiment_alpha.py:29-34 | The query window ends at the given date and starts 365 days earlier. |
| SentimentScore.WindowIsCalendarYear | sentiment_alpha.py:30-31 | For every date the window starts at the same date a year earlier, plus one day when a February 29 lies in between. From March on that is when the end year is a leap year; in January and February it is when the year before is. |
| SentimentScore.WindowAcrossLeapDay | sentiment_alpha.py:30-31 | 365 days before 2020-03-01 is 2019-03-02, not 2019-03-01. |
| Calendar.DaysBeforeYearStep | sentiment_alpha.py:31 | Consecutive years start 365 days apart, or 366 after a leap year. |
| Calendar.DaysBeforeMonthShift | sentiment_alpha.py:31 | Month starts in two years differ only from March on, and then by the difference in leap days. |
| MarketData.HourOf | services/data_fetch_market_data_app.py:29 | The UTC hour of a timestamp lies in 0..23. |
| MarketData.MinuteOf | services/data_fetch_market_data_app.py:29 | The UTC minute of a timestamp lies in 0..59. |
| MarketData.TimestampSplit | services/data_fetch_market_data_app.py:28-29 | Day, hour, minute and the dropped seconds together give back the timestamp, so date and time lose only the seconds. |
| MarketData.RenameMarketData | services/data_fetch_market_data_app.py:22-36 | A missing o/h/l/c/v key fails with `UnboundLocalError`; a missing `t` fails with `KeyError`; a price array shorter than `t` fails with `IndexError`. Otherwise there is one record per timestamp, in order. Record i holds timestamp i's date, hour and minute and `o[i]` .. `v[i]`. |

## Left out

- Black-Scholes pricing (`black_scholes_price`, `black_scholes_merton`) and
  implied-volatility solving are function-typed parameters. This covers the
  brentq wrapper, its `S * 4` split adjustment, and the Newton loop in
  `tools.py`. They are floating-point numerics over `log`, `exp` and `norm.cdf`.
- Floating point: every price and score is an exact real. Rounding at the
  0.3 sentiment thresholds and in the divisions is not modelled.
- REST, async and library data fetching: every `get_*` fetcher, pagination,
  `get_sentiment_analysis` and the yfinance helpers. These are I/O.
- `get_day`: the wall clock is a parameter and the US/Eastern to UTC
  conversion is left out. Only its date arithmetic (`Calendar.TargetWeek`)
  is modelled.
- Date formatting and parsing (`strftime`, `strptime`): dates are day
  ordinals, and a record's time is an hour and a minute rather than the
  text `HH:MM`.
- Agent orchestration (`main`, the autogen agents, `get_alpha_signals`, the
  Polygon client) and the iron-condor wiring (`analyze_iron_condor_setup`,
  `test`): LLM and network plumbing.
- StrikeInterval.CalculateStrikeIntervals: strikes are numbers already.
  The `float()` conversion of strike text, and the `except` clause that
  returns None when it fails, are not modelled.
- ContractFilter.FilterContracts: `expiration_date`, `strike_price` and
  `contract_type` are always present. The `KeyError` for a missing one is
  not modelled.
- ChainAnnotator.CalculateIvForContracts: `call_put` and `expiration` are
  always present and well formed. An `ask` key holding a non-number (a
  `TypeError` in `float`) is not modelled. Lower-casing covers ASCII only.
- SentimentScore.CalculateSentimentScore: a `feed` key holding `None` is
  treated like an absent key, which the code also maps to None.
- MarketData.RenameMarketData: timestamps are whole seconds. A fractional
  timestamp is not modelled.
- AgentSignals.GetStockSentiment: takes the articles' scores as a sequence.
  The news query that produces them and the `breakpoint()` call are left out.

## Findings

| source | as written | input that shows it | evidently intended | confidence | as-written member | corrected member |
|---|---|---|---|---|---|---|
| models/model_long_straddle.py:15 | profit/loss is `S - K - total_cost`, linear in the spot | spot 90, strike 100, call priced 2 and put 11: returns -23, while a long straddle then earns 10 - 13 = -3; at the reported lower break-even 87 it returns -26, not 0 | `abs(S - K) - total_cost`, zero exactly at the two break-even points `execute_strategy` reports | not executed; high | Strategies.StraddleAsWrittenMissesLowerBreakEven | Strategies.StraddleProfitLossCorrected |
| agent.py:62-63 | `rs` is 0 when the average loss is 0, so the RSI is 0 | 15 strictly rising closes with period 14: every change is a gain, yet the RSI is 0 | RSI 100 when there are gains and no losses (50 for a series that does not move) | not executed; high | AgentSignals.RsiAllGainsAsWritten | AgentSignals.RsiCorrected |
| models/model_long_put.py:22 | `max_profit` is the string "Unlimited (as underlying price approaches 0)" | strike 100, put price 5: the profit at any spot >= 0 is at most 95, reached at spot 0 | a bounded maximum profit `K - put_price` | not executed; high | Strategies.LongPutProfitIsCapped | Strategies.LongPutExecuteCorrected |
