/**
 * The two shapes of option-contract record the chain utilities read. Keys a
 * utility tests for or reads with a default are `Option`s; keys it indexes
 * directly are plain fields.
 */
module Contracts {
  import opened Wrappers
  import opened Calendar

  /**
   * A row of an option chain (the Dolthub `option_chain` table): `strike`
   * and `ask` may be absent; `call_put` is "Call" or "Put" as published;
   * `expiration` is the day number of its `YYYY-MM-DD` date.
   */
  datatype ChainRow = ChainRow(
    strike: Option<real>,
    callPut: string,
    expiration: Day,
    ask: Option<real>)

  /**
   * A contract as the Polygon reference endpoint lists it: `expiration_date`
   * (compared as text), `strike_price` and `contract_type` ("put" or "call").
   */
  datatype PolygonContract = PolygonContract(
    expirationDate: string,
    strikePrice: real,
    contractType: string)
}
