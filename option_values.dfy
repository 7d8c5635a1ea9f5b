/**
 * Intrinsic value and time value of an option (`calculate_intrinsic_value`
 * and `calculate_time_value`). Prices are exact reals.
 */
module OptionValues {

  function Max(a: real, b: real): real {
    if a >= b then a else b
  }

  /**
   * Intrinsic value: `max(0, S - K)` for the type string "call" and
   * `max(0, K - S)` for every other string, "put" or not.
   */
  function IntrinsicValue(spot: real, strike: real, optionType: string): (v: real)
    ensures v >= 0.0
    ensures optionType == "call" ==> v >= spot - strike && (v == 0.0 || v == spot - strike)
    ensures optionType != "call" ==> v >= strike - spot && (v == 0.0 || v == strike - spot)
  {
    if optionType == "call" then Max(0.0, spot - strike) else Max(0.0, strike - spot)
  }

  /** Any type string other than "call" is priced as a put. */
  lemma NonCallIsPut(spot: real, strike: real, optionType: string)
    requires optionType != "call"
    ensures IntrinsicValue(spot, strike, optionType) == IntrinsicValue(spot, strike, "put")
  {
  }

  /**
   * Call intrinsic minus put intrinsic is `S - K`; at most one of them is
   * positive, and both vanish exactly at the money.
   */
  lemma IntrinsicParity(spot: real, strike: real)
    ensures IntrinsicValue(spot, strike, "call") - IntrinsicValue(spot, strike, "put") == spot - strike
    ensures IntrinsicValue(spot, strike, "call") == 0.0 || IntrinsicValue(spot, strike, "put") == 0.0
    ensures (IntrinsicValue(spot, strike, "call") == 0.0 && IntrinsicValue(spot, strike, "put") == 0.0)
            <==> spot == strike
  {
  }

  /**
   * Time value `max(0, price - intrinsic)`: zero when the price does not
   * exceed the intrinsic value, the excess otherwise.
   */
  function TimeValue(price: real, intrinsic: real): (t: real)
    ensures t >= 0.0 && t >= price - intrinsic
    ensures price <= intrinsic ==> t == 0.0
    ensures price > intrinsic ==> t == price - intrinsic
    ensures intrinsic + t >= price
  {
    Max(0.0, price - intrinsic)
  }

  /** Time value is at least the excess over intrinsic, and the least such non-negative amount. */
  lemma TimeValueLeast(price: real, intrinsic: real, t: real)
    requires t >= 0.0 && intrinsic + t >= price
    ensures TimeValue(price, intrinsic) <= t
  {
  }
}
