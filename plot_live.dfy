/**
 * The state kept by the microstructure dashboard of plot_live.py: seven series of
 * at most 200 points, one point per book-ticker message, whose newest trade-derived
 * slots each trade message overwrites, and a history of at most 5000 trades.
 * `None` stands for NaN.
 */
module PlotLive {

  import opened Wrappers
  import opened Units
  import Windows
  import Metrics

  const MaxDatapoints: nat := 200
  const MaxTrades: nat := 5000
  const VwapWindowTrades: int := 100
  const VolumeWindowSeconds: int := 1

  /** The newest value of a series, or NaN when it is empty (`dq[-1] if dq else np.nan`). */
  function Newest(s: seq<Option<real>>): (r: Option<real>)
    ensures s == [] ==> r == None
    ensures s != [] ==> r == s[|s| - 1]
  {
    if s == [] then None else s[|s| - 1]
  }

  class PlotDashboard {
    var timestamps: seq<real>
    var midPrices: seq<Option<real>>
    var spreads: seq<Option<real>>
    var imbalances: seq<Option<real>>
    var vwaps: seq<Option<real>>
    var tradeVolumesPerSec: seq<Option<real>>
    var lastTradePrices: seq<Option<real>>
    var allTrades: seq<Metrics.Trade>

    /** All seven series have one point per book-ticker message kept, at most 200. */
    ghost predicate Valid()
      reads this
    {
      && |timestamps| <= MaxDatapoints
      && |midPrices| == |timestamps|
      && |spreads| == |timestamps|
      && |imbalances| == |timestamps|
      && |vwaps| == |timestamps|
      && |tradeVolumesPerSec| == |timestamps|
      && |lastTradePrices| == |timestamps|
      && |allTrades| <= MaxTrades
    }

    constructor ()
      ensures Valid()
      ensures timestamps == [] && midPrices == [] && spreads == [] && imbalances == []
      ensures vwaps == [] && tradeVolumesPerSec == [] && lastTradePrices == [] && allTrades == []
    {
      timestamps, midPrices, spreads, imbalances := [], [], [], [];
      vwaps, tradeVolumesPerSec, lastTradePrices, allTrades := [], [], [], [];
    }

    /**
     * The body of `data_collector_book_ticker` for one message: one point on every
     * series, carrying the last VWAP and volume forward and no trade price.
     */
    method OnBookTicker(receivedNs: int, bestBid: real, bestBidQty: real, bestAsk: real, bestAskQty: real)
      requires Valid()
      modifies this
      ensures Valid()
      ensures timestamps == Windows.Append(old(timestamps), NanosToSeconds(receivedNs), MaxDatapoints)
      ensures midPrices == Windows.Append(old(midPrices), Metrics.MidPrice(bestBid, bestAsk), MaxDatapoints)
      ensures spreads == Windows.Append(old(spreads), Metrics.Spread(bestBid, bestAsk), MaxDatapoints)
      ensures imbalances == Windows.Append(old(imbalances), Metrics.Imbalance(bestBidQty, bestAskQty), MaxDatapoints)
      ensures vwaps == Windows.Append(old(vwaps), Newest(old(vwaps)), MaxDatapoints)
      ensures tradeVolumesPerSec == Windows.Append(old(tradeVolumesPerSec), Newest(old(tradeVolumesPerSec)), MaxDatapoints)
      ensures lastTradePrices == Windows.Append(old(lastTradePrices), None, MaxDatapoints)
      ensures allTrades == old(allTrades)
    {
      var currentTimeSec := NanosToSeconds(receivedNs);
      var mid := Metrics.MidPrice(bestBid, bestAsk);
      var spread := Metrics.Spread(bestBid, bestAsk);
      var imbalance := Metrics.Imbalance(bestBidQty, bestAskQty);
      var lastVwap, lastVolume := Newest(vwaps), Newest(tradeVolumesPerSec);

      Windows.AppendBounded(timestamps, currentTimeSec, MaxDatapoints);
      Windows.AppendBounded(midPrices, mid, MaxDatapoints);
      Windows.AppendBounded(spreads, spread, MaxDatapoints);
      Windows.AppendBounded(imbalances, imbalance, MaxDatapoints);
      Windows.AppendBounded(vwaps, lastVwap, MaxDatapoints);
      Windows.AppendBounded(tradeVolumesPerSec, lastVolume, MaxDatapoints);
      Windows.AppendBounded(lastTradePrices, None, MaxDatapoints);

      timestamps, midPrices, spreads, imbalances, vwaps, tradeVolumesPerSec, lastTradePrices :=
        Windows.Append(timestamps, currentTimeSec, MaxDatapoints),
        Windows.Append(midPrices, mid, MaxDatapoints),
        Windows.Append(spreads, spread, MaxDatapoints),
        Windows.Append(imbalances, imbalance, MaxDatapoints),
        Windows.Append(vwaps, lastVwap, MaxDatapoints),
        Windows.Append(tradeVolumesPerSec, lastVolume, MaxDatapoints),
        Windows.Append(lastTradePrices, None, MaxDatapoints);
    }

    /**
     * The body of `data_collector_trades` for one message: record the trade, then
     * overwrite the newest VWAP, volume and trade-price slots, if there are any.
     */
    method OnTrade(trade: Metrics.Trade, receivedNs: int)
      requires Valid()
      modifies this
      ensures Valid()
      ensures allTrades == Windows.Append(old(allTrades), trade, MaxTrades)
      ensures vwaps == Windows.SetLast(old(vwaps), Metrics.Vwap(allTrades, VwapWindowTrades))
      ensures tradeVolumesPerSec == Windows.SetLast(old(tradeVolumesPerSec),
        Some(Metrics.NewestRunVolume(allTrades, receivedNs - VolumeWindowSeconds * NanosPerSecond)))
      ensures lastTradePrices == Windows.SetLast(old(lastTradePrices), Some(trade.price))
      ensures timestamps == old(timestamps) && midPrices == old(midPrices)
      ensures spreads == old(spreads) && imbalances == old(imbalances)
    {
      var currentTimeNs := receivedNs;
      var tradePrice := trade.price;

      Windows.AppendBounded(allTrades, trade, MaxTrades);
      allTrades := Windows.Append(allTrades, trade, MaxTrades);

      var latestVwap := Metrics.Vwap(allTrades, VwapWindowTrades);
      var latestVolumePerSec := Metrics.TradeVolumePerSecond(allTrades, currentTimeNs, VolumeWindowSeconds);

      if vwaps != [] {
        vwaps := Windows.SetLast(vwaps, latestVwap);
      }
      if tradeVolumesPerSec != [] {
        tradeVolumesPerSec := Windows.SetLast(tradeVolumesPerSec, Some(latestVolumePerSec));
      }
      if lastTradePrices != [] {
        lastTradePrices := Windows.SetLast(lastTradePrices, Some(tradePrice));
      }
    }
  }

  /**
   * `get_plot_data(dq)` inside `update_plot`: exactly `currentLen` points, all NaN
   * for an empty series, padded with the newest value when shorter, cut when longer.
   */
  function PlotData(dq: seq<Option<real>>, currentLen: nat): (r: seq<Option<real>>)
    ensures |r| == currentLen
    ensures dq == [] ==> forall i :: 0 <= i < currentLen ==> r[i] == None
    ensures forall i :: 0 <= i < currentLen && i < |dq| ==> r[i] == dq[i]
    ensures dq != [] ==> forall i :: |dq| <= i < currentLen ==> r[i] == dq[|dq| - 1]
  {
    if dq == [] then seq(currentLen, _ => None)
    else
      var data := if |dq| < currentLen then dq + seq(currentLen - |dq|, _ => dq[|dq| - 1]) else dq;
      data[..currentLen]
  }

  /** A series as long as the timestamps is plotted unchanged, which is every series of a valid dashboard. */
  lemma PlotDataOfFullSeries(dq: seq<Option<real>>)
    ensures PlotData(dq, |dq|) == dq
  {
  }

  /** The six `get_plot_data` calls of `update_plot`: in a valid dashboard no series is padded or cut. */
  method PlotSeries(d: PlotDashboard)
    returns (mid: seq<Option<real>>, lastTrade: seq<Option<real>>, spread: seq<Option<real>>,
             imbalance: seq<Option<real>>, vwap: seq<Option<real>>, volume: seq<Option<real>>)
    requires d.Valid()
    ensures mid == d.midPrices && lastTrade == d.lastTradePrices && spread == d.spreads
    ensures imbalance == d.imbalances && vwap == d.vwaps && volume == d.tradeVolumesPerSec
  {
    var currentLen := |d.timestamps|;
    mid := PlotData(d.midPrices, currentLen);
    lastTrade := PlotData(d.lastTradePrices, currentLen);
    spread := PlotData(d.spreads, currentLen);
    imbalance := PlotData(d.imbalances, currentLen);
    vwap := PlotData(d.vwaps, currentLen);
    volume := PlotData(d.tradeVolumesPerSec, currentLen);
  }
}
