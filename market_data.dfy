/**
 * `rename_market_data`: reshape the Market Data candle response, parallel
 * arrays keyed `t`, `o`, `h`, `l`, `c`, `v`, into one record per timestamp.
 */
module MarketData {
  import opened Wrappers
  import opened Calendar

  /** The response body; each array key may be absent. `t` holds Unix seconds. */
  datatype Candles = Candles(
    t: Option<seq<int>>,
    o: Option<seq<real>>,
    h: Option<seq<real>>,
    l: Option<seq<real>>,
    c: Option<seq<real>>,
    v: Option<seq<real>>)

  /**
   * One output record. `date` and `time` are the UTC calendar day and the
   * hour and minute of the timestamp (their text formatting is not modelled).
   */
  datatype Quote = Quote(
    date: Day,
    hour: int,
    minute: int,
    open: real,
    high: real,
    low: real,
    close: real,
    volume: real)

  /** How the function fails: `market_data` never bound, a missing `t`, or a short array. */
  datatype RenameError = UnboundLocalError | KeyError(key: string) | IndexError

  const SecondsPerDay := 86400

  /** 1970-01-01, day 0 of Unix time. */
  const UnixEpoch: Day := Ordinal(1970, 1, 1)

  /** The UTC day of a Unix timestamp; Dafny's `/` floors for a positive divisor, as Python's does. */
  function DateOf(ts: int): Day {
    UnixEpoch + ts / SecondsPerDay
  }

  function HourOf(ts: int): (h: int)
    ensures 0 <= h < 24
  {
    (ts % SecondsPerDay) / 3600
  }

  function MinuteOf(ts: int): (m: int)
    ensures 0 <= m < 60
  {
    (ts % 3600) / 60
  }

  /** Day, hour, minute and the dropped seconds together give back the timestamp. */
  lemma TimestampSplit(ts: int)
    ensures (DateOf(ts) - UnixEpoch) * SecondsPerDay + HourOf(ts) * 3600 + MinuteOf(ts) * 60 + ts % 60 == ts
  {
    var d, r := ts / SecondsPerDay, ts % SecondsPerDay;
    var h, q := r / 3600, r % 3600;
    var mi, sec := q / 60, q % 60;
    assert ts == d * 86400 + r;
    assert r == h * 3600 + q;
    assert q == mi * 60 + sec;
    RemainderOf(ts, d * 24 + h, q, 3600);
    RemainderOf(ts, d * 1440 + h * 60 + mi, sec, 60);
  }

  /** Euclidean division is unique: a remainder in range is the remainder. */
  lemma RemainderOf(x: int, k: int, b: int, n: int)
    requires n > 0 && 0 <= b < n && x == k * n + b
    ensures x % n == b
  {
    var k', b' := x / n, x % n;
    assert x == k' * n + b';
    assert (k - k') * n == b' - b;
    MultipleBounds(k - k', n);
  }

  /** A non-zero multiple of `n` is at least `n` away from zero. */
  lemma {:induction false} MultipleBounds(t: int, n: int)
    requires n > 0
    ensures t >= 1 ==> t * n >= n
    ensures t <= -1 ==> t * n <= -n
    decreases if t >= 0 then t else -t
  {
    if t > 1 {
      MultipleBounds(t - 1, n);
      assert t * n == (t - 1) * n + n;
    } else if t < -1 {
      MultipleBounds(t + 1, n);
      assert t * n == (t + 1) * n - n;
    }
  }

  /** The keys `o`, `h`, `l`, `c` and `v` are all present. */
  predicate PricesPresent(data: Candles) {
    data.o.Some? && data.h.Some? && data.l.Some? && data.c.Some? && data.v.Some?
  }

  /** Every price array is at least as long as `t`. */
  predicate ColumnsCover(data: Candles)
    requires PricesPresent(data) && data.t.Some?
  {
    var n := |data.t.value|;
    n <= |data.o.value| && n <= |data.h.value| && n <= |data.l.value| &&
    n <= |data.c.value| && n <= |data.v.value|
  }

  /** The record for index `i`: the i-th timestamp with the i-th entry of each array. */
  function QuoteAt(data: Candles, i: nat): Quote
    requires PricesPresent(data) && data.t.Some? && ColumnsCover(data) && i < |data.t.value|
  {
    var ts := data.t.value[i];
    Quote(DateOf(ts), HourOf(ts), MinuteOf(ts),
          data.o.value[i], data.h.value[i], data.l.value[i], data.c.value[i], data.v.value[i])
  }

  /**
   * `rename_market_data`: one record per entry of `t`, in order, record i
   * carrying `o[i]` … `v[i]`. It fails when a price key is missing (the
   * result variable is never bound), when `t` is missing, and when a price
   * array is shorter than `t`.
   */
  method RenameMarketData(data: Candles) returns (r: Result<seq<Quote>, RenameError>)
    ensures !PricesPresent(data) ==> r == Err(UnboundLocalError)
    ensures PricesPresent(data) && data.t.None? ==> r == Err(KeyError("t"))
    ensures PricesPresent(data) && data.t.Some? && !ColumnsCover(data) ==> r == Err(IndexError)
    ensures r.Ok? <==> PricesPresent(data) && data.t.Some? && ColumnsCover(data)
    ensures r.Ok? ==> |r.value| == |data.t.value| &&
                      forall i :: 0 <= i < |r.value| ==> r.value[i] == QuoteAt(data, i)
  {
    if !(data.o.Some? && data.h.Some? && data.l.Some? && data.c.Some? && data.v.Some?) {
      return Err(UnboundLocalError);
    }
    if data.t.None? {
      return Err(KeyError("t"));
    }
    var t, o, h, l, c, v := data.t.value, data.o.value, data.h.value, data.l.value, data.c.value, data.v.value;
    var marketData: seq<Quote> := [];
    for i := 0 to |t|
      invariant i <= |o| && i <= |h| && i <= |l| && i <= |c| && i <= |v|
      invariant |marketData| == i
      invariant forall k :: 0 <= k < i ==> marketData[k] == Quote(DateOf(t[k]), HourOf(t[k]), MinuteOf(t[k]), o[k], h[k], l[k], c[k], v[k])
    {
      if i >= |o| || i >= |h| || i >= |l| || i >= |c| || i >= |v| {
        return Err(IndexError);
      }
      var ts := t[i];
      marketData := marketData + [Quote(UnixEpoch + ts / SecondsPerDay, (ts % SecondsPerDay) / 3600, (ts % 3600) / 60,
                                        o[i], h[i], l[i], c[i], v[i])];
    }
    return Ok(marketData);
  }
}
