/**
 * The long straddle and long put strategy models. The Black-Scholes-Merton
 * pricer is an opaque parameter: every leg price is whatever it returns for
 * the strategy's own fields, so the bookkeeping around it is exact.
 */
module Strategies {
  import opened OptionValues

  /** The fields every strategy model is constructed with (`OptionsStrategy`). */
  datatype StrategyInputs = StrategyInputs(
    underlyingPrice: real,
    strikePrice: real,
    timeToExpiry: real,
    riskFreeRate: real,
    volatility: real)

  /** `black_scholes_merton(S, K, T, r, sigma, option_type)`, left uninterpreted. */
  type Pricer = (real, real, real, real, real, string) -> real

  /** The leg price of the given type, priced on the strategy's own fields. */
  function LegPrice(p: StrategyInputs, bsm: Pricer, optionType: string): real {
    bsm(p.underlyingPrice, p.strikePrice, p.timeToExpiry, p.riskFreeRate, p.volatility, optionType)
  }

  // ---------------------------------------------------------------- long straddle

  /** The dictionary `LongStraddle.execute_strategy` returns. */
  datatype StraddleSummary = StraddleSummary(
    strategy: string,
    callPrice: real,
    putPrice: real,
    totalCost: real,
    breakEvenPoints: seq<real>)

  /**
   * `LongStraddle.execute_strategy`: both legs priced at the strike, the
   * total premium, and the two break-even points below and above the strike,
   * lower first, symmetric about the strike.
   */
  function StraddleExecute(p: StrategyInputs, bsm: Pricer): (s: StraddleSummary)
    ensures s.strategy == "Long Straddle"
    ensures s.callPrice == LegPrice(p, bsm, "call") && s.putPrice == LegPrice(p, bsm, "put")
    ensures s.totalCost == s.callPrice + s.putPrice
    ensures |s.breakEvenPoints| == 2
    ensures (s.breakEvenPoints[0] + s.breakEvenPoints[1]) / 2.0 == p.strikePrice
    ensures s.breakEvenPoints[1] - s.breakEvenPoints[0] == 2.0 * s.totalCost
    ensures s.callPrice >= 0.0 && s.putPrice >= 0.0 ==>
              s.breakEvenPoints[0] <= p.strikePrice <= s.breakEvenPoints[1]
  {
    var call := LegPrice(p, bsm, "call");
    var put := LegPrice(p, bsm, "put");
    StraddleSummary("Long Straddle", call, put, call + put,
                    [p.strikePrice - (call + put), p.strikePrice + (call + put)])
  }

  /**
   * The straddle profit formula as the source writes it: spot minus strike
   * minus the premium, linear in the spot.
   */
  function StraddlePayoffAsWritten(spot: real, strike: real, totalCost: real): (pl: real)
    ensures pl + totalCost == spot - strike
  {
    spot - strike - totalCost
  }

  /**
   * `LongStraddle.calculate_profit_loss`: it prices the legs with the same
   * arguments as `execute_strategy`, so its result is the spot minus the
   * strike minus that method's `total_cost`.
   */
  function StraddleProfitLoss(p: StrategyInputs, bsm: Pricer): (pl: real)
    ensures pl == p.underlyingPrice - p.strikePrice - StraddleExecute(p, bsm).totalCost
  {
    var call := LegPrice(p, bsm, "call");
    var put := LegPrice(p, bsm, "put");
    var totalCost := call + put;
    StraddlePayoffAsWritten(p.underlyingPrice, p.strikePrice, totalCost)
  }

  /**
   * As written, the profit formula vanishes only at the upper break-even
   * point; at the lower one, which `execute_strategy` reports, it is a loss
   * of twice the premium.
   */
  lemma StraddleAsWrittenMissesLowerBreakEven(p: StrategyInputs, bsm: Pricer)
    requires StraddleExecute(p, bsm).totalCost != 0.0
    ensures var s := StraddleExecute(p, bsm);
            StraddlePayoffAsWritten(s.breakEvenPoints[1], p.strikePrice, s.totalCost) == 0.0 &&
            StraddlePayoffAsWritten(s.breakEvenPoints[0], p.strikePrice, s.totalCost) == -2.0 * s.totalCost &&
            StraddlePayoffAsWritten(s.breakEvenPoints[0], p.strikePrice, s.totalCost) != 0.0
  {
  }

  /** A concrete instance: spot 90, strike 100, the call priced at 2 and the put at 11. */
  lemma StraddleAsWrittenExample()
    ensures var p := StrategyInputs(90.0, 100.0, 0.5, 0.04, 0.2);
            var bsm: Pricer := (s, k, t, r, v, o) => if o == "call" then 2.0 else 11.0;
            StraddleProfitLoss(p, bsm) == -23.0 && StraddleProfitLossCorrected(p, bsm) == -3.0
  {
  }

  function Abs(x: real): real {
    if x < 0.0 then -x else x
  }

  /**
   * The straddle payoff a long call plus a long put has: the distance of the
   * spot from the strike, less the premium. It never loses more than the
   * premium and is zero exactly at the two break-even points.
   */
  function StraddlePayoff(spot: real, strike: real, totalCost: real): (pl: real)
    ensures pl >= -totalCost
    ensures spot == strike ==> pl == -totalCost
    ensures totalCost >= 0.0 ==>
              (pl == 0.0 <==> spot == strike - totalCost || spot == strike + totalCost)
    ensures spot >= strike ==> pl == StraddlePayoffAsWritten(spot, strike, totalCost)
  {
    Abs(spot - strike) - totalCost
  }

  /** The straddle's profit with the V-shaped payoff, agreeing with `StraddleExecute`'s break-even points. */
  function StraddleProfitLossCorrected(p: StrategyInputs, bsm: Pricer): (pl: real)
    ensures var s := StraddleExecute(p, bsm);
            pl >= -s.totalCost &&
            (s.callPrice >= 0.0 && s.putPrice >= 0.0 ==>
              (pl == 0.0 <==> p.underlyingPrice in s.breakEvenPoints))
    ensures p.underlyingPrice >= p.strikePrice ==> pl == StraddleProfitLoss(p, bsm)
  {
    StraddlePayoff(p.underlyingPrice, p.strikePrice, StraddleExecute(p, bsm).totalCost)
  }

  // ---------------------------------------------------------------- long put

  /** A maximum profit: a number, or a non-numeric marker. */
  datatype MaxProfit = Bounded(amount: real) | Unlimited(note: string)

  const UnlimitedNote := "Unlimited (as underlying price approaches 0)"

  /** The dictionary `LongPut.execute_strategy` returns. */
  datatype PutSummary = PutSummary(
    strategy: string,
    putPrice: real,
    breakEvenPoint: real,
    maxLoss: real,
    maxProfit: MaxProfit)

  /** The long put's payoff at a spot for a given premium: intrinsic value less the premium. */
  function LongPutPayoff(spot: real, strike: real, premium: real): (pl: real)
    ensures pl == IntrinsicValue(spot, strike, "put") - premium
    ensures pl >= -premium
    ensures spot >= strike ==> pl == -premium
  {
    Max(strike - spot, 0.0) - premium
  }

  /** The put payoff does not increase as the spot rises. */
  lemma LongPutPayoffNonIncreasing(s1: real, s2: real, strike: real, premium: real)
    requires s1 <= s2
    ensures LongPutPayoff(s2, strike, premium) <= LongPutPayoff(s1, strike, premium)
  {
  }

  /**
   * `LongPut.execute_strategy`: the premium is the maximum loss, the
   * break-even point lies that far below the strike, and the maximum profit
   * is the fixed "Unlimited" marker, never a number.
   */
  function LongPutExecute(p: StrategyInputs, bsm: Pricer): (s: PutSummary)
    ensures s.strategy == "Long Put"
    ensures s.putPrice == LegPrice(p, bsm, "put") && s.maxLoss == s.putPrice
    ensures s.breakEvenPoint + s.maxLoss == p.strikePrice
    ensures s.putPrice >= 0.0 ==> LongPutPayoff(s.breakEvenPoint, p.strikePrice, s.putPrice) == 0.0
    ensures s.maxProfit == Unlimited(UnlimitedNote)
  {
    var put := LegPrice(p, bsm, "put");
    PutSummary("Long Put", put, p.strikePrice - put, put, Unlimited(UnlimitedNote))
  }

  /**
   * `LongPut.calculate_profit_loss`: the put's intrinsic value at the spot
   * less the premium `execute_strategy` reports as the maximum loss; out of
   * the money it is exactly that loss.
   */
  function LongPutProfitLoss(p: StrategyInputs, bsm: Pricer): (pl: real)
    ensures pl == IntrinsicValue(p.underlyingPrice, p.strikePrice, "put") - LongPutExecute(p, bsm).maxLoss
    ensures pl >= -LongPutExecute(p, bsm).maxLoss
    ensures p.underlyingPrice >= p.strikePrice ==> pl == -LongPutExecute(p, bsm).maxLoss
  {
    var put := LegPrice(p, bsm, "put");
    LongPutPayoff(p.underlyingPrice, p.strikePrice, put)
  }

  /**
   * Though the summary calls it unlimited, the put's profit over every
   * non-negative spot is capped at `max(K, 0)` less the premium, and the cap
   * is reached at spot 0.
   */
  lemma LongPutProfitIsCapped(p: StrategyInputs, bsm: Pricer, spot: real)
    requires spot >= 0.0
    ensures var s := LongPutExecute(p, bsm);
            s.maxProfit.Unlimited? &&
            LongPutPayoff(spot, p.strikePrice, s.putPrice) <= Max(p.strikePrice, 0.0) - s.putPrice &&
            LongPutPayoff(0.0, p.strikePrice, s.putPrice) == Max(p.strikePrice, 0.0) - s.putPrice
  {
  }

  /** The long put summary with its maximum profit reported as the bound it is. */
  function LongPutExecuteCorrected(p: StrategyInputs, bsm: Pricer): (s: PutSummary)
    ensures s.maxProfit.Bounded?
    ensures s.maxProfit.amount == LongPutPayoff(0.0, p.strikePrice, s.putPrice)
    ensures forall spot :: spot >= 0.0 ==> LongPutPayoff(spot, p.strikePrice, s.putPrice) <= s.maxProfit.amount
    ensures s.(maxProfit := Unlimited(UnlimitedNote)) == LongPutExecute(p, bsm)
  {
    var s := LongPutExecute(p, bsm);
    s.(maxProfit := Bounded(Max(p.strikePrice, 0.0) - s.putPrice))
  }
}
