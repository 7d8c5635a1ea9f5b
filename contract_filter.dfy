/**
 * `filter_contracts`: the out-of-the-money wings of an iron condor. A put
 * qualifies when its strike lies strictly between `current - 2w` and
 * `current - w`, a call when it lies strictly between `current + w` and
 * `current + 2w`; both must expire on the requested date.
 */
module ContractFilter {
  import opened Contracts
  import opened Sequences

  /** The selection test applied to one contract; every bound is exclusive. */
  predicate InWing(c: PolygonContract, currentPrice: real, expirationDate: string, width: real) {
    c.expirationDate == expirationDate &&
    ((c.contractType == "put" && currentPrice - 2.0 * width < c.strikePrice < currentPrice - width) ||
     (c.contractType == "call" && currentPrice + width < c.strikePrice < currentPrice + 2.0 * width))
  }

  /** The contracts that pass `InWing`, in their input order. */
  function Selected(contracts: seq<PolygonContract>, currentPrice: real, expirationDate: string, width: real)
    : (r: seq<PolygonContract>)
    ensures |r| <= |contracts|
    decreases |contracts|
  {
    if contracts == [] then []
    else
      var last := contracts[|contracts| - 1];
      Selected(contracts[..|contracts| - 1], currentPrice, expirationDate, width) +
        (if InWing(last, currentPrice, expirationDate, width) then [last] else [])
  }

  /**
   * `filter_contracts`: walks the contracts once and appends each one that
   * passes the test, so the result is `Selected` of the input.
   */
  method FilterContracts(contracts: seq<PolygonContract>, currentPrice: real, expirationDate: string, width: real)
    returns (filtered: seq<PolygonContract>)
    ensures filtered == Selected(contracts, currentPrice, expirationDate, width)
    ensures forall c :: c in filtered ==> InWing(c, currentPrice, expirationDate, width)
  {
    filtered := [];
    for i := 0 to |contracts|
      invariant filtered == Selected(contracts[..i], currentPrice, expirationDate, width)
    {
      var contract := contracts[i];
      assert contracts[..i + 1][..i] == contracts[..i];
      if contract.expirationDate == expirationDate {
        var strikePrice := contract.strikePrice;
        if (contract.contractType == "put" && currentPrice - 2.0 * width < strikePrice < currentPrice - width) ||
           (contract.contractType == "call" && currentPrice + width < strikePrice < currentPrice + 2.0 * width) {
          filtered := filtered + [contract];
        }
      }
    }
    assert contracts[..|contracts|] == contracts;
    SelectedExactly(contracts, currentPrice, expirationDate, width);
  }

  /** A contract is selected exactly when it is in the input and passes the test. */
  lemma {:induction false} SelectedExactly(contracts: seq<PolygonContract>, currentPrice: real, expirationDate: string, width: real)
    ensures forall c :: c in Selected(contracts, currentPrice, expirationDate, width) <==>
                        c in contracts && InWing(c, currentPrice, expirationDate, width)
    decreases |contracts|
  {
    if contracts != [] {
      var init := contracts[..|contracts| - 1];
      SelectedExactly(init, currentPrice, expirationDate, width);
      assert contracts == init + [contracts[|contracts| - 1]];
    }
  }

  /** The selection keeps the input order: it is a subsequence of the input. */
  lemma {:induction false} SelectedInOrder(contracts: seq<PolygonContract>, currentPrice: real, expirationDate: string, width: real)
    ensures Subsequence(Selected(contracts, currentPrice, expirationDate, width), contracts)
    decreases |contracts|
  {
    if contracts != [] {
      var init := contracts[..|contracts| - 1];
      var last := contracts[|contracts| - 1];
      SelectedInOrder(init, currentPrice, expirationDate, width);
      assert contracts == init + [last];
      var sel := Selected(init, currentPrice, expirationDate, width);
      if InWing(last, currentPrice, expirationDate, width) {
        SubsequenceAppendBoth(sel, init, last);
        assert Selected(contracts, currentPrice, expirationDate, width) == sel + [last];
      } else {
        SubsequenceAppendRight(sel, init, last);
        assert Selected(contracts, currentPrice, expirationDate, width) == sel;
      }
    }
  }

  /** With a width that is not positive both bands are empty, and so is the selection. */
  lemma {:induction false} NonPositiveWidthSelectsNothing(contracts: seq<PolygonContract>, currentPrice: real, expirationDate: string, width: real)
    requires width <= 0.0
    ensures Selected(contracts, currentPrice, expirationDate, width) == []
    decreases |contracts|
  {
    if contracts != [] {
      NonPositiveWidthSelectsNothing(contracts[..|contracts| - 1], currentPrice, expirationDate, width);
    }
  }

  /** The band edges themselves are excluded: a put struck at `current - w` is never selected. */
  lemma BandEdgesExcluded(c: PolygonContract, currentPrice: real, expirationDate: string, width: real)
    requires c.strikePrice == currentPrice - width || c.strikePrice == currentPrice - 2.0 * width ||
             c.strikePrice == currentPrice + width || c.strikePrice == currentPrice + 2.0 * width
    ensures !InWing(c, currentPrice, expirationDate, width)
  {
  }
}
