/**
 * `calculate_strike_intervals`: the smallest gap between the distinct strikes
 * of a chain, or None when there are fewer than two of them.
 */
module StrikeInterval {
  import opened Wrappers
  import opened Contracts

  /** A chain row with the given strike, for the examples below. */
  function Row(strike: Option<real>): ChainRow {
    ChainRow(strike, "Call", 737105, None)
  }

  /** The strikes of the rows that have one, in row order. */
  function Strikes(rows: seq<ChainRow>): (xs: seq<real>)
    ensures |xs| <= |rows|
  {
    if rows == [] then []
    else (if rows[0].strike.Some? then [rows[0].strike.value] else []) + Strikes(rows[1..])
  }

  /** The distinct strikes of the chain: the values of the rows' `strike` keys. */
  function StrikeSet(rows: seq<ChainRow>): set<real> {
    set x | x in Strikes(rows)
  }

  /** A value is a strike of the chain exactly when some row carries it. */
  lemma {:induction false} StrikeSetMembers(rows: seq<ChainRow>, x: real)
    ensures x in StrikeSet(rows) <==> exists i :: 0 <= i < |rows| && rows[i].strike == Some(x)
  {
    if rows != [] {
      StrikeSetMembers(rows[1..], x);
      if x in StrikeSet(rows[1..]) {
        var i :| 0 <= i < |rows[1..]| && rows[1..][i].strike == Some(x);
        assert rows[i + 1].strike == Some(x);
      }
      if exists i :: 0 <= i < |rows| && rows[i].strike == Some(x) {
        var i :| 0 <= i < |rows| && rows[i].strike == Some(x);
        if i > 0 {
          assert rows[1..][i - 1].strike == Some(x);
        }
      }
    }
  }

  predicate StrictlyIncreasing(s: seq<real>) {
    forall i, j :: 0 <= i < j < |s| ==> s[i] < s[j]
  }

  /** Inserts `x` into a strictly increasing sequence, unless it is already there. */
  function Insert(x: real, s: seq<real>): (r: seq<real>)
    requires StrictlyIncreasing(s)
    ensures StrictlyIncreasing(r)
    ensures forall y :: y in r <==> y == x || y in s
  {
    if s == [] then [x]
    else if x < s[0] then [x] + s
    else if x == s[0] then s
    else
      var rest := Insert(x, s[1..]);
      assert forall y :: y in rest ==> s[0] < y;
      assert forall j :: 0 <= j < |rest| ==> s[0] < rest[j] by {
        forall j | 0 <= j < |rest| ensures s[0] < rest[j] {
          assert rest[j] in rest;
        }
      }
      [s[0]] + rest
  }

  /** `sorted(set(xs))`: the distinct values of `xs` in increasing order. */
  function SortedDistinct(xs: seq<real>): (r: seq<real>)
    ensures StrictlyIncreasing(r)
    ensures forall y :: y in r <==> y in xs
  {
    if xs == [] then [] else Insert(xs[0], SortedDistinct(xs[1..]))
  }

  /** A strictly increasing sequence has as many elements as its set of elements. */
  lemma {:induction false} DistinctCount(s: seq<real>)
    requires StrictlyIncreasing(s)
    ensures |set x | x in s| == |s|
  {
    if s != [] {
      DistinctCount(s[1..]);
      assert (set x | x in s) == {s[0]} + (set x | x in s[1..]);
      assert s[0] !in (set x | x in s[1..]);
    }
  }

  /** The differences of consecutive elements. */
  function Gaps(s: seq<real>): (g: seq<real>)
    requires |s| >= 1
    ensures |g| == |s| - 1
    ensures forall i :: 0 <= i < |g| ==> g[i] == s[i + 1] - s[i]
  {
    if |s| == 1 then [] else [s[1] - s[0]] + Gaps(s[1..])
  }

  /** `min` of a non-empty list. */
  function Min(s: seq<real>): (m: real)
    requires |s| >= 1
    ensures m in s
    ensures forall x :: x in s ==> m <= x
  {
    if |s| == 1 then s[0]
    else
      var rest := Min(s[1..]);
      assert forall x :: x in s ==> x == s[0] || x in s[1..];
      if s[0] <= rest then s[0] else rest
  }

  /**
   * `calculate_strike_intervals`: None when the chain has fewer than two
   * distinct strikes (rows without one are ignored); otherwise the smallest
   * distance between two distinct strikes, which is positive and is the
   * distance between two strikes with no strike in between.
   */
  function CalculateStrikeIntervals(rows: seq<ChainRow>): (r: Option<real>)
    ensures r.None? <==> |StrikeSet(rows)| < 2
    ensures r.Some? ==> r.value > 0.0
    ensures r.Some? ==> forall a, b :: a in StrikeSet(rows) && b in StrikeSet(rows) && a < b ==> r.value <= b - a
    ensures r.Some? ==> exists a :: a in StrikeSet(rows) && a + r.value in StrikeSet(rows) &&
                          NoneBetween(StrikeSet(rows), a, a + r.value)
  {
    var strikes := SortedDistinct(Strikes(rows));
    DistinctCount(strikes);
    assert (set x | x in strikes) == StrikeSet(rows);
    if |strikes| < 2 then None
    else
      var gaps := Gaps(strikes);
      var m := Min(gaps);
      GapIsMinimal(strikes, m);
      MinGapIsAdjacent(strikes, StrikeSet(rows), m);
      Some(m)
  }

  /** Every consecutive gap of `s` is at least `m`. */
  predicate GapsAtLeast(s: seq<real>, m: real) {
    forall i :: 0 <= i < |s| - 1 ==> m <= s[i + 1] - s[i]
  }

  /** Consecutive gaps bound every difference of two elements from below. */
  lemma GapBoundsDifferences(s: seq<real>, m: real, i: nat, j: nat)
    requires StrictlyIncreasing(s) && GapsAtLeast(s, m)
    requires i < j < |s|
    ensures m <= s[j] - s[i]
  {
    assert m <= s[i + 1] - s[i];
    if i + 1 < j {
      assert s[i + 1] < s[j];
    }
  }

  /** The same bound, for two elements named by value. */
  lemma GapBoundsPair(s: seq<real>, m: real, a: real, b: real)
    requires StrictlyIncreasing(s) && GapsAtLeast(s, m)
    requires a in s && b in s && a < b
    ensures m <= b - a
  {
    var i :| 0 <= i < |s| && s[i] == a;
    var j :| 0 <= j < |s| && s[j] == b;
    assert i < j;
    GapBoundsDifferences(s, m, i, j);
  }

  /** No two distinct elements of an increasing sequence are closer than its smallest consecutive gap. */
  lemma GapIsMinimal(s: seq<real>, m: real)
    requires StrictlyIncreasing(s) && |s| >= 2 && m == Min(Gaps(s))
    ensures m > 0.0
    ensures forall a, b :: a in s && b in s && a < b ==> m <= b - a
  {
    var g := Gaps(s);
    forall i | 0 <= i < |s| - 1 ensures m <= s[i + 1] - s[i] {
      assert g[i] in g;
    }
    GapBoundsDifferences(s, m, 0, 1);
    forall a, b | a in s && b in s && a < b ensures m <= b - a {
      GapBoundsPair(s, m, a, b);
    }
  }

  /** No element of `xs` lies strictly between `lo` and `hi`. */
  predicate NoneBetween(xs: set<real>, lo: real, hi: real) {
    forall c :: lo < c < hi ==> c !in xs
  }

  /** Nothing in an increasing sequence lies strictly between two neighbours. */
  lemma NothingBetweenNeighbours(s: seq<real>, i: nat, c: real)
    requires StrictlyIncreasing(s) && i + 1 < |s| && s[i] < c < s[i + 1]
    ensures c !in s
  {
    forall k | 0 <= k < |s| ensures s[k] != c {
      if k < i {
        assert s[k] < s[i];
      } else if k > i + 1 {
        assert s[i + 1] < s[k];
      }
    }
  }

  /** The smallest gap separates two consecutive elements, with nothing in between. */
  lemma MinGapIsAdjacent(s: seq<real>, xs: set<real>, m: real)
    requires StrictlyIncreasing(s) && |s| >= 2 && m == Min(Gaps(s))
    requires xs == set x | x in s
    ensures exists a :: a in xs && a + m in xs && NoneBetween(xs, a, a + m)
  {
    var g := Gaps(s);
    assert m in g;
    var i :| 0 <= i < |g| && g[i] == m;
    var a := s[i];
    assert a + m == s[i + 1];
    forall c | a < c < a + m ensures c !in xs {
      NothingBetweenNeighbours(s, i, c);
    }
    assert a in xs by {
      assert s[i] in s;
    }
    assert a + m in xs by {
      assert s[i + 1] in s;
    }
    assert NoneBetween(xs, a, a + m);
  }

  function FiveWideRows(): seq<ChainRow> {
    [Row(Some(95.0)), Row(Some(100.0)), Row(None), Row(Some(105.0)), Row(Some(110.0))]
  }

  lemma FiveWideStrikes()
    ensures Strikes(FiveWideRows()) == [95.0, 100.0, 105.0, 110.0]
  {
    var rows := FiveWideRows();
    assert Strikes(rows[4..]) == [110.0];
    assert Strikes(rows[3..]) == [105.0, 110.0];
    assert Strikes(rows[2..]) == [105.0, 110.0];
    assert Strikes(rows[1..]) == [100.0, 105.0, 110.0];
  }

  lemma FiveWideSorted()
    ensures SortedDistinct([95.0, 100.0, 105.0, 110.0]) == [95.0, 100.0, 105.0, 110.0]
  {
    var xs := [95.0, 100.0, 105.0, 110.0];
    assert SortedDistinct(xs[3..]) == [110.0];
    assert SortedDistinct(xs[2..]) == [105.0, 110.0];
    assert SortedDistinct(xs[1..]) == [100.0, 105.0, 110.0];
  }

  /** The chain with strikes 95, 100, 105 and 110 (and a row without one) has interval 5. */
  lemma FiveWideChain()
    ensures CalculateStrikeIntervals(FiveWideRows()) == Some(5.0)
  {
    FiveWideStrikes();
    FiveWideSorted();
    var xs := [95.0, 100.0, 105.0, 110.0];
    assert SortedDistinct(Strikes(FiveWideRows())) == xs;
    assert Gaps(xs) == [5.0, 5.0, 5.0] by {
      assert Gaps(xs[2..]) == [5.0];
      assert Gaps(xs[1..]) == [5.0, 5.0];
    }
    assert Min([5.0, 5.0, 5.0]) == 5.0;
  }

  /** A chain whose rows all carry one strike has no interval. */
  lemma SingleStrikeChain(rows: seq<ChainRow>, k: real)
    requires forall i :: 0 <= i < |rows| ==> rows[i].strike == Some(k)
    ensures CalculateStrikeIntervals(rows) == None
  {
    forall x | x in StrikeSet(rows) ensures x == k {
      StrikeSetMembers(rows, x);
    }
    if rows == [] {
      assert StrikeSet(rows) == {};
    } else {
      StrikeSetMembers(rows, k);
      assert StrikeSet(rows) == {k};
    }
  }
}
