/**
 * Microstructure metrics of metrics.py: spread, mid-price and imbalance over the
 * best level, VWAP over the last N trades, and the trailing trade volume found by
 * a backward scan that stops at the first trade older than the cutoff.
 */
module Metrics {

  import opened Wrappers
  import Windows
  import opened Units

  /** A trade as the metrics read it: price `p`, quantity `q`, trade time `T` in milliseconds. */
  datatype Trade = Trade(price: real, qty: real, timeMs: int)

  /** `calculate_spread`: defined only for a positive, uncrossed quote. */
  function Spread(bestBid: real, bestAsk: real): (r: Option<real>)
    ensures r.Some? <==> bestBid > 0.0 && bestAsk > 0.0 && bestAsk > bestBid
    ensures r.Some? ==> r.value > 0.0 && bestBid + r.value == bestAsk
  {
    if bestBid > 0.0 && bestAsk > 0.0 && bestAsk > bestBid then Some(bestAsk - bestBid) else None
  }

  /** `calculate_mid_price`: same definedness as the spread; the midpoint of the quote. */
  function MidPrice(bestBid: real, bestAsk: real): (r: Option<real>)
    ensures r.Some? <==> bestBid > 0.0 && bestAsk > 0.0 && bestAsk > bestBid
    ensures r.Some? ==> bestBid < r.value < bestAsk && r.value - bestBid == bestAsk - r.value
  {
    if bestBid > 0.0 && bestAsk > 0.0 && bestAsk > bestBid then Some((bestAsk + bestBid) / 2.0) else None
  }

  /** `calculate_order_book_imbalance`: undefined unless the total volume is positive. */
  function Imbalance(bidVolume: real, askVolume: real): (r: Option<real>)
    ensures r.Some? <==> bidVolume + askVolume > 0.0
    ensures r.Some? ==> r.value * (bidVolume + askVolume) == bidVolume - askVolume
    ensures r.Some? && bidVolume >= 0.0 && askVolume >= 0.0 ==> -1.0 <= r.value <= 1.0
  {
    var total := bidVolume + askVolume;
    if total > 0.0 then Some((bidVolume - askVolume) / total) else None
  }

  /** Sum of quantities. */
  function SumQty(ts: seq<Trade>): real
  {
    if ts == [] then 0.0 else SumQty(ts[..|ts| - 1]) + ts[|ts| - 1].qty
  }

  /** Sum of price times quantity. */
  function SumNotional(ts: seq<Trade>): real
  {
    if ts == [] then 0.0 else SumNotional(ts[..|ts| - 1]) + ts[|ts| - 1].price * ts[|ts| - 1].qty
  }

  /** `calculate_vwap`: notional over volume of the last `windowSize` trades. */
  function Vwap(trades: seq<Trade>, windowSize: int): (r: Option<real>)
    ensures trades == [] || windowSize <= 0 ==> r == None
    ensures trades != [] && windowSize > 0 ==>
      (r.Some? <==> SumQty(Windows.Last(trades, windowSize)) != 0.0)
    ensures r.Some? ==>
      (windowSize > 0 &&
       r.value * SumQty(Windows.Last(trades, windowSize)) == SumNotional(Windows.Last(trades, windowSize)))
  {
    if trades == [] || windowSize <= 0 then None
    else
      var window := Windows.Last(trades, windowSize);
      var totalValue := SumNotional(window);
      var totalVolume := SumQty(window);
      if totalVolume == 0.0 then None else Some(totalValue / totalVolume)
  }

  /** Positive quantities have a positive total. */
  lemma {:induction false} SumQtyPositive(ts: seq<Trade>)
    requires ts != []
    requires forall t :: t in ts ==> t.qty > 0.0
    ensures SumQty(ts) > 0.0
  {
    var init := ts[..|ts| - 1];
    assert forall t :: t in init ==> t in ts;
    if init != [] {
      SumQtyPositive(init);
    }
  }

  /** With non-negative quantities and prices at least `lo`, the notional is at least `lo` times the volume. */
  lemma {:induction false} NotionalAtLeast(ts: seq<Trade>, lo: real)
    requires forall t :: t in ts ==> t.qty >= 0.0 && lo <= t.price
    ensures lo * SumQty(ts) <= SumNotional(ts)
  {
    if ts != [] {
      var init, t := ts[..|ts| - 1], ts[|ts| - 1];
      assert forall u :: u in init ==> u in ts;
      assert t in ts;
      NotionalAtLeast(init, lo);
      AtLeastStep(SumNotional(init), SumQty(init), t.price, t.qty, lo);
    }
  }

  /** With non-negative quantities and prices at most `hi`, the notional is at most `hi` times the volume. */
  lemma {:induction false} NotionalAtMost(ts: seq<Trade>, hi: real)
    requires forall t :: t in ts ==> t.qty >= 0.0 && t.price <= hi
    ensures SumNotional(ts) <= hi * SumQty(ts)
  {
    if ts != [] {
      var init, t := ts[..|ts| - 1], ts[|ts| - 1];
      assert forall u :: u in init ==> u in ts;
      assert t in ts;
      NotionalAtMost(init, hi);
      AtMostStep(SumNotional(init), SumQty(init), t.price, t.qty, hi);
    }
  }

  /** One more trade keeps the lower bound on the notional. */
  lemma AtLeastStep(notional: real, volume: real, price: real, qty: real, lo: real)
    requires lo * volume <= notional && qty >= 0.0 && lo <= price
    ensures lo * (volume + qty) <= notional + price * qty
  {
    ScaleMonotone(lo, price, qty);
    Distribute(lo, volume, qty);
  }

  /** One more trade keeps the upper bound on the notional. */
  lemma AtMostStep(notional: real, volume: real, price: real, qty: real, hi: real)
    requires notional <= hi * volume && qty >= 0.0 && price <= hi
    ensures notional + price * qty <= hi * (volume + qty)
  {
    ScaleMonotone(price, hi, qty);
    Distribute(hi, volume, qty);
  }

  lemma Distribute(c: real, a: real, b: real)
    ensures c * (a + b) == c * a + c * b
  {
  }

  lemma ScaleMonotone(a: real, b: real, q: real)
    requires a <= b && q >= 0.0
    ensures a * q <= b * q
  {
    assert b * q - a * q == (b - a) * q;
  }

  /**
   * With positive quantities the VWAP is defined and lies within any bounds on the
   * window's prices, in particular between its lowest and highest price.
   */
  lemma VwapWithinPrices(trades: seq<Trade>, windowSize: int, lo: real, hi: real)
    requires trades != [] && windowSize > 0
    requires forall t :: t in Windows.Last(trades, windowSize) ==> t.qty > 0.0 && lo <= t.price <= hi
    ensures Vwap(trades, windowSize).Some?
    ensures lo <= Vwap(trades, windowSize).value <= hi
  {
    var window := Windows.Last(trades, windowSize);
    SumQtyPositive(window);
    NotionalAtLeast(window, lo);
    NotionalAtMost(window, hi);
    var v, total := Vwap(trades, windowSize).value, SumQty(window);
    assert v * total == SumNotional(window);
    assert lo * total <= v * total <= hi * total;
  }

  /** The trade's time, in nanoseconds, is at or after the cutoff. */
  predicate InWindow(t: Trade, cutoffNs: int)
  {
    t.timeMs * NanosPerMilli >= cutoffNs
  }

  /** The reference definition: total quantity of ALL trades at or after the cutoff. */
  function WindowVolume(ts: seq<Trade>, cutoffNs: int): real
  {
    if ts == [] then 0.0
    else WindowVolume(ts[..|ts| - 1], cutoffNs) + (if InWindow(ts[|ts| - 1], cutoffNs) then ts[|ts| - 1].qty else 0.0)
  }

  /** What the backward scan adds up: the newest trades, up to the first one before the cutoff. */
  function NewestRunVolume(ts: seq<Trade>, cutoffNs: int): (r: real)
    ensures (forall t :: t in ts ==> InWindow(t, cutoffNs)) ==> r == SumQty(ts)
    ensures (forall t :: t in ts ==> t.qty >= 0.0) ==> r >= 0.0
  {
    if ts == [] then 0.0
    else if InWindow(ts[|ts| - 1], cutoffNs) then NewestRunVolume(ts[..|ts| - 1], cutoffNs) + ts[|ts| - 1].qty
    else 0.0
  }

  ghost predicate SortedByTime(ts: seq<Trade>)
  {
    forall i, j :: 0 <= i < j < |ts| ==> ts[i].timeMs <= ts[j].timeMs
  }

  /** Trades all before the cutoff contribute nothing. */
  lemma {:induction false} NoneInWindow(ts: seq<Trade>, cutoffNs: int)
    requires forall i :: 0 <= i < |ts| ==> !InWindow(ts[i], cutoffNs)
    ensures WindowVolume(ts, cutoffNs) == 0.0
  {
    if ts != [] {
      NoneInWindow(ts[..|ts| - 1], cutoffNs);
    }
  }

  /** On time-sorted trades the early-exit scan equals the full filtered sum. */
  lemma {:induction false} SortedScanIsWindowVolume(ts: seq<Trade>, cutoffNs: int)
    requires SortedByTime(ts)
    ensures NewestRunVolume(ts, cutoffNs) == WindowVolume(ts, cutoffNs)
  {
    if ts != [] {
      var init, last := ts[..|ts| - 1], ts[|ts| - 1];
      if InWindow(last, cutoffNs) {
        SortedScanIsWindowVolume(init, cutoffNs);
      } else {
        forall i | 0 <= i < |init|
          ensures !InWindow(init[i], cutoffNs)
        {
          assert init[i].timeMs <= last.timeMs;
        }
        NoneInWindow(init, cutoffNs);
      }
    }
  }

  /** With non-negative quantities the filtered sum is never negative. */
  lemma {:induction false} WindowVolumeNonNegative(ts: seq<Trade>, cutoffNs: int)
    requires forall t :: t in ts ==> t.qty >= 0.0
    ensures WindowVolume(ts, cutoffNs) >= 0.0
  {
    if ts != [] {
      var init := ts[..|ts| - 1];
      assert forall t :: t in init ==> t in ts;
      assert ts[|ts| - 1] in ts;
      WindowVolumeNonNegative(init, cutoffNs);
    }
  }

  /** On unsorted trades with non-negative quantities the scan can only undercount. */
  lemma {:induction false} ScanUndercounts(ts: seq<Trade>, cutoffNs: int)
    requires forall t :: t in ts ==> t.qty >= 0.0
    ensures NewestRunVolume(ts, cutoffNs) <= WindowVolume(ts, cutoffNs)
  {
    if ts != [] {
      var init := ts[..|ts| - 1];
      assert forall t :: t in init ==> t in ts;
      assert ts[|ts| - 1] in ts;
      if InWindow(ts[|ts| - 1], cutoffNs) {
        ScanUndercounts(init, cutoffNs);
      } else {
        WindowVolumeNonNegative(ts, cutoffNs);
      }
    }
  }

  /** An out-of-order older trade as the newest entry hides every in-window trade before it. */
  lemma UnsortedScanMissesTrades(t0: int)
    ensures NewestRunVolume([Trade(100.0, 1.0, t0), Trade(100.0, 2.0, t0 - 5000)], t0 * NanosPerMilli - NanosPerSecond) == 0.0
    ensures WindowVolume([Trade(100.0, 1.0, t0), Trade(100.0, 2.0, t0 - 5000)], t0 * NanosPerMilli - NanosPerSecond) == 1.0
  {
    var ts := [Trade(100.0, 1.0, t0), Trade(100.0, 2.0, t0 - 5000)];
    var cutoffNs := t0 * NanosPerMilli - NanosPerSecond;
    assert ts[..1] == [ts[0]] && [ts[0]][..0] == [];
    assert WindowVolume([ts[0]], cutoffNs) == 1.0;
  }

  /**
   * `calculate_trade_volume_per_second`: walk the trades newest first, adding each
   * quantity while the trade is at or after `current_time_ns - window_seconds` s,
   * and stop at the first one that is not.
   */
  method TradeVolumePerSecond(trades: seq<Trade>, currentTimeNs: int, windowSeconds: int) returns (volume: real)
    ensures trades == [] || windowSeconds <= 0 ==> volume == 0.0
    ensures trades != [] && windowSeconds > 0 ==>
      volume == NewestRunVolume(trades, currentTimeNs - windowSeconds * NanosPerSecond)
  {
    if trades == [] || windowSeconds <= 0 {
      return 0.0;
    }
    var windowNs := windowSeconds * NanosPerSecond;
    var cutoffNs := currentTimeNs - windowNs;
    volume := 0.0;
    var i := |trades|;
    assert trades[..i] == trades;
    while i > 0
      invariant 0 <= i <= |trades|
      invariant NewestRunVolume(trades, cutoffNs) == NewestRunVolume(trades[..i], cutoffNs) + volume
    {
      var trade := trades[i - 1];
      var tradeTimeNs := trade.timeMs * NanosPerMilli;
      assert trades[..i][..i - 1] == trades[..i - 1];
      if tradeTimeNs >= cutoffNs {
        volume := volume + trade.qty;
        i := i - 1;
      } else {
        break;
      }
    }
  }

  /**
   * The worked example of the module, with exact timestamps: trades 2.5 s, 1.8 s,
   * 0.9 s and 0.3 s before `t0` give 3.5 over one second, 4.0 over two, and a VWAP
   * of the last three trades of 100.0125.
   */
  method WorkedExample(t0: int) returns (lastSecond: real, lastTwoSeconds: real, vwap: Option<real>)
    ensures lastSecond == 3.5 && lastTwoSeconds == 4.0
    ensures vwap == Some(100.0125)
  {
    var trades := [
      Trade(99.90, 1.0, t0 - 2500),
      Trade(99.95, 0.5, t0 - 1800),
      Trade(100.00, 2.0, t0 - 900),
      Trade(100.05, 1.5, t0 - 300)
    ];
    var nowNs := t0 * NanosPerMilli;
    lastSecond := TradeVolumePerSecond(trades, nowNs, 1);
    lastTwoSeconds := TradeVolumePerSecond(trades, nowNs, 2);
    vwap := Vwap(trades, 3);
    var oneSecond, twoSeconds := nowNs - NanosPerSecond, nowNs - 2 * NanosPerSecond;
    assert trades[..3][..2] == trades[..2] && trades[..2][..1] == trades[..1] && trades[..1][..0] == [];
    assert NewestRunVolume(trades[..2], oneSecond) == 0.0;
    assert NewestRunVolume(trades[..3], oneSecond) == 2.0;
    assert NewestRunVolume(trades[..1], twoSeconds) == 0.0;
    assert NewestRunVolume(trades[..2], twoSeconds) == 0.5;
    assert NewestRunVolume(trades[..3], twoSeconds) == 2.5;
    var window := trades[1..];
    assert Windows.Last(trades, 3) == window;
    assert window[..2] == trades[1..3] && window[..2][..1] == [trades[1]] && [trades[1]][..0] == [];
    assert SumQty(window[..1]) == 0.5 && SumNotional(window[..1]) == 49.975;
    assert SumQty(window[..2]) == 2.5 && SumNotional(window[..2]) == 249.975;
    assert SumQty(window) == 4.0 && SumNotional(window) == 400.05;
  }
}
