/**
 * `calculate_iv_for_contracts`: annotate an option chain with implied
 * volatilities. The solver (`implied_volatility`, a bracketed root search
 * over the Black-Scholes price) is an opaque parameter that either returns a
 * volatility or fails.
 */
module ChainAnnotator {
  import opened Wrappers
  import opened Calendar
  import opened Contracts
  import opened Sequences

  /** `implied_volatility(market_price, S, K, T, r, option_type)`; None when it finds no root. */
  type IvSolver = (real, real, real, real, real, string) -> Option<real>

  /** The fixed risk-free rate the annotator passes to the solver. */
  const RiskFreeRate: real := 0.0398

  /** The fixed reference date, 2019-02-09, from which time to expiry is counted. */
  const ReferenceDay: Day := Ordinal(2019, 2, 9)

  /** The reference date is ordinal 737099, a Saturday. */
  lemma ReferenceDayIsSaturday()
    ensures ReferenceDay == 737099 && Weekday(ReferenceDay) == 5
  {
  }

  /** Time to expiry in years on an actual/365 basis, counted from the reference date. */
  function TimeToExpiry(expiration: Day): (t: real)
    ensures t * 365.0 == (expiration - ReferenceDay) as real
    ensures t >= 0.0 <==> expiration >= ReferenceDay
  {
    (expiration - ReferenceDay) as real / 365.0
  }

  /** The market price: the row's `ask`, or 0 when the key is absent. */
  function MarketPrice(row: ChainRow): real {
    match row.ask
    case Some(a) => a
    case None => 0.0
  }

  function LowerChar(c: char): char {
    if 'A' <= c <= 'Z' then (c as int + 32) as char else c
  }

  /**
   * `str.lower()` on ASCII text: no capital letter is left, every other
   * character is kept, and a capital becomes the letter 32 code points on.
   */
  function Lower(s: string): (r: string)
    ensures |r| == |s|
    ensures forall i :: 0 <= i < |s| ==> !('A' <= r[i] <= 'Z')
    ensures forall i :: 0 <= i < |s| && !('A' <= s[i] <= 'Z') ==> r[i] == s[i]
    ensures forall i :: 0 <= i < |s| && 'A' <= s[i] <= 'Z' ==> r[i] as int == s[i] as int + 32
  {
    seq(|s|, i requires 0 <= i < |s| => LowerChar(s[i]))
  }

  /** Lower-casing twice is lower-casing once. */
  lemma LowerIdempotent(s: string)
    ensures Lower(Lower(s)) == Lower(s)
  {
  }

  /** The option type handed to the solver: `call_put`, lower-cased. */
  function OptionType(row: ChainRow): string {
    Lower(row.callPut)
  }

  lemma OptionTypeOfPublishedNames()
    ensures Lower("Call") == "call" && Lower("Put") == "put"
  {
    assert Lower("Call") == ['c', 'a', 'l', 'l'];
    assert Lower("Put") == ['p', 'u', 't'];
  }

  /** A copy of a chain row with its `implied_volatility` added. */
  datatype AnnotatedRow = AnnotatedRow(contract: ChainRow, impliedVolatility: real)

  /** A row lacking a key the annotator indexes directly (a `KeyError`). */
  datatype AnnotateError = MissingKey(key: string)

  /** The solver's answer for a row, with the arguments the annotator passes it. */
  function Solve(row: ChainRow, strike: real, currentPrice: real, solver: IvSolver): Option<real> {
    solver(MarketPrice(row), currentPrice, strike, TimeToExpiry(row.expiration), RiskFreeRate, OptionType(row))
  }

  /**
   * The treatment of one row: skipped when its market price or strike is not
   * positive, dropped when the solver fails, otherwise copied with the
   * solver's volatility attached.
   */
  function Annotate(row: ChainRow, currentPrice: real, solver: IvSolver): (r: Option<AnnotatedRow>)
    ensures r.Some? <==> row.strike.Some? && MarketPrice(row) > 0.0 && row.strike.value > 0.0 &&
                         Solve(row, row.strike.value, currentPrice, solver).Some?
    ensures r.Some? ==> r.value.contract == row &&
                        Solve(row, row.strike.value, currentPrice, solver) == Some(r.value.impliedVolatility)
  {
    match row.strike
    case None => None
    case Some(strike) =>
      if MarketPrice(row) > 0.0 && strike > 0.0 then
        match Solve(row, strike, currentPrice, solver)
        case Some(iv) => Some(AnnotatedRow(row, iv))
        case None => None
      else None
  }

  /** The annotated copies of the rows that are kept, in row order. */
  function KeptRows(rows: seq<ChainRow>, currentPrice: real, solver: IvSolver): (out: seq<AnnotatedRow>)
    ensures |out| <= |rows|
    decreases |rows|
  {
    if rows == [] then []
    else
      var last := rows[|rows| - 1];
      KeptRows(rows[..|rows| - 1], currentPrice, solver) +
        match Annotate(last, currentPrice, solver)
        case Some(a) => [a]
        case None => []
  }

  /** Whether some row lacks its `strike` key, which makes the annotator raise. */
  predicate SomeStrikeMissing(rows: seq<ChainRow>) {
    exists i :: 0 <= i < |rows| && rows[i].strike.None?
  }

  /** The annotator's outcome: a `KeyError` when a strike is missing, the kept rows otherwise. */
  function Annotated(rows: seq<ChainRow>, currentPrice: real, solver: IvSolver)
    : Result<seq<AnnotatedRow>, AnnotateError>
  {
    if SomeStrikeMissing(rows) then Err(MissingKey("strike")) else Ok(KeptRows(rows, currentPrice, solver))
  }

  /**
   * `calculate_iv_for_contracts`: one pass over the chain that appends a new
   * annotated record for each row it keeps and raises on a row without a
   * strike. The input rows are values and are not changed.
   */
  method CalculateIvForContracts(contracts: seq<ChainRow>, currentPrice: real, solver: IvSolver)
    returns (r: Result<seq<AnnotatedRow>, AnnotateError>)
    ensures r == Annotated(contracts, currentPrice, solver)
  {
    var contractsWithIv: seq<AnnotatedRow> := [];
    for i := 0 to |contracts|
      invariant contractsWithIv == KeptRows(contracts[..i], currentPrice, solver)
      invariant !SomeStrikeMissing(contracts[..i])
    {
      var contract := contracts[i];
      assert contracts[..i + 1][..i] == contracts[..i];
      if contract.strike.None? {
        assert !Annotated(contracts, currentPrice, solver).Ok?;
        return Err(MissingKey("strike"));
      }
      var strikePrice := contract.strike.value;
      var optionType := Lower(contract.callPut);
      var t := (contract.expiration - ReferenceDay) as real / 365.0;
      var marketPrice := if contract.ask.Some? then contract.ask.value else 0.0;
      if marketPrice > 0.0 && strikePrice > 0.0 {
        var iv := solver(marketPrice, currentPrice, strikePrice, t, RiskFreeRate, optionType);
        if iv.Some? {
          var contractWithIv := AnnotatedRow(contract, iv.value);
          contractsWithIv := contractsWithIv + [contractWithIv];
        }
      }
      assert contracts[..i + 1] == contracts[..i] + [contract];
    }
    assert contracts[..|contracts|] == contracts;
    return Ok(contractsWithIv);
  }

  /** The rows behind the annotated records. */
  function Rows(out: seq<AnnotatedRow>): (rows: seq<ChainRow>)
    ensures |rows| == |out|
    ensures forall k :: 0 <= k < |out| ==> rows[k] == out[k].contract
  {
    seq(|out|, k requires 0 <= k < |out| => out[k].contract)
  }

  /** The output is an order-preserving subsequence of the input rows. */
  lemma {:induction false} KeptRowsInOrder(rows: seq<ChainRow>, currentPrice: real, solver: IvSolver)
    ensures Subsequence(Rows(KeptRows(rows, currentPrice, solver)), rows)
    decreases |rows|
  {
    if rows != [] {
      var init, last := rows[..|rows| - 1], rows[|rows| - 1];
      var prev := KeptRows(init, currentPrice, solver);
      KeptRowsInOrder(init, currentPrice, solver);
      assert rows == init + [last];
      match Annotate(last, currentPrice, solver)
      case Some(a) =>
        assert KeptRows(rows, currentPrice, solver) == prev + [a];
        assert Rows(prev + [a]) == Rows(prev) + [last];
        SubsequenceAppendBoth(Rows(prev), init, last);
      case None =>
        assert KeptRows(rows, currentPrice, solver) == prev;
        SubsequenceAppendRight(Rows(prev), init, last);
    }
  }

  /**
   * Every record emitted is a kept row with the solver's answer attached, and
   * every kept row of the input is emitted.
   */
  lemma {:induction false} KeptRowsExactly(rows: seq<ChainRow>, currentPrice: real, solver: IvSolver)
    ensures forall a :: a in KeptRows(rows, currentPrice, solver) ==>
              a.contract in rows && Annotate(a.contract, currentPrice, solver) == Some(a)
    ensures forall row :: row in rows && Annotate(row, currentPrice, solver).Some? ==>
              Annotate(row, currentPrice, solver).value in KeptRows(rows, currentPrice, solver)
    decreases |rows|
  {
    if rows != [] {
      var init, last := rows[..|rows| - 1], rows[|rows| - 1];
      KeptRowsExactly(init, currentPrice, solver);
      assert rows == init + [last];
    }
  }

  /**
   * The annotator raises exactly when a row lacks a strike. When it returns,
   * it returns no more records than rows, in row order; each record's row
   * has a positive ask and strike, and its volatility is what the solver
   * returned for that row's price, strike and `(expiration - 2019-02-09)/365`.
   */
  lemma AnnotatedProperties(rows: seq<ChainRow>, currentPrice: real, solver: IvSolver)
    ensures Annotated(rows, currentPrice, solver).Err? <==> exists i :: 0 <= i < |rows| && rows[i].strike == None
    ensures Annotated(rows, currentPrice, solver).Ok? ==>
              var out := Annotated(rows, currentPrice, solver).value;
              |out| <= |rows| && Subsequence(Rows(out), rows) &&
              forall a :: a in out ==>
                a.contract in rows && MarketPrice(a.contract) > 0.0 &&
                a.contract.strike.Some? && a.contract.strike.value > 0.0 &&
                solver(MarketPrice(a.contract), currentPrice, a.contract.strike.value,
                       TimeToExpiry(a.contract.expiration), RiskFreeRate, OptionType(a.contract))
                  == Some(a.impliedVolatility)
  {
    KeptRowsInOrder(rows, currentPrice, solver);
    KeptRowsExactly(rows, currentPrice, solver);
  }

  /** A row with no `ask` key, or a non-positive ask or strike, is never emitted. */
  lemma UnpricedRowsSkipped(rows: seq<ChainRow>, currentPrice: real, solver: IvSolver, row: ChainRow)
    requires row.ask.None? || MarketPrice(row) <= 0.0 || (row.strike.Some? && row.strike.value <= 0.0)
    ensures forall a :: a in KeptRows(rows, currentPrice, solver) ==> a.contract != row
  {
    KeptRowsExactly(rows, currentPrice, solver);
  }
}
