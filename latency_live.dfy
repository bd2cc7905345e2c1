/**
 * The state kept by the latency dashboard of latency_live.py: up to 5000 latency
 * samples for the histogram and, for the rolling line, the newest 200 samples with
 * their receive times.
 */
module LatencyLive {

  import opened Units
  import Windows
  import Feed

  const MaxDatapoints: nat := 200
  const MaxDeltas: nat := 5000

  class LatencyDashboard {
    var latencyDeltasUs: seq<real>
    var wallClockTimes: seq<real>
    var rollingLatencyPlotData: seq<real>

    /** The rolling buffers are the newest 200 samples, paired with their receive times. */
    ghost predicate Valid()
      reads this
    {
      && |latencyDeltasUs| <= MaxDeltas
      && |wallClockTimes| == |rollingLatencyPlotData|
      && rollingLatencyPlotData == Windows.Last(latencyDeltasUs, MaxDatapoints)
    }

    constructor ()
      ensures Valid()
      ensures latencyDeltasUs == [] && wallClockTimes == [] && rollingLatencyPlotData == []
    {
      latencyDeltasUs, wallClockTimes, rollingLatencyPlotData := [], [], [];
    }

    /** The body of `latency_data_collector` for one trade message. */
    method OnTrade(tradeTimeMs: int, receivedNs: int)
      requires Valid()
      modifies this
      ensures Valid()
      ensures latencyDeltasUs ==
        Windows.Append(old(latencyDeltasUs), NanosToMicros(Feed.TransportLatencyNs(receivedNs, tradeTimeMs)), MaxDeltas)
      ensures wallClockTimes == Windows.Append(old(wallClockTimes), NanosToSeconds(receivedNs), MaxDatapoints)
      ensures rollingLatencyPlotData ==
        Windows.Append(old(rollingLatencyPlotData), NanosToMicros(Feed.TransportLatencyNs(receivedNs, tradeTimeMs)), MaxDatapoints)
      ensures |rollingLatencyPlotData| <= MaxDatapoints
      ensures rollingLatencyPlotData[|rollingLatencyPlotData| - 1] == latencyDeltasUs[|latencyDeltasUs| - 1]
    {
      var deltaNs := Feed.TransportLatencyNs(receivedNs, tradeTimeMs);
      var deltaUs := NanosToMicros(deltaNs);
      Windows.NarrowerAppend(latencyDeltasUs, deltaUs, MaxDatapoints, MaxDeltas);

      latencyDeltasUs := Windows.Append(latencyDeltasUs, deltaUs, MaxDeltas);
      wallClockTimes := Windows.Append(wallClockTimes, NanosToSeconds(receivedNs), MaxDatapoints);
      rollingLatencyPlotData := Windows.Append(rollingLatencyPlotData, deltaUs, MaxDatapoints);
    }
  }

  /**
   * Fed the same samples from empty, the 200-slot buffer always holds the newest
   * 200 of what the 5000-slot buffer holds.
   */
  lemma RollingIsNewestOfHistory(samples: seq<real>)
    ensures Windows.AppendAll([], samples, MaxDatapoints)
      == Windows.Last(Windows.AppendAll([], samples, MaxDeltas), MaxDatapoints)
  {
    Windows.AppendAllIsLast([], samples, MaxDatapoints);
    Windows.AppendAllIsLast([], samples, MaxDeltas);
    assert [] + samples == samples;
  }
}
