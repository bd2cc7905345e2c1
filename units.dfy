/** Time units shared by the feed, the metrics and the dashboards. */
module Units {

  const NanosPerMicro: int := 1_000
  const NanosPerMilli: int := 1_000_000
  const NanosPerSecond: int := 1_000_000_000

  /** `ns / 1000.0`: a nanosecond count in microseconds. */
  function NanosToMicros(ns: int): (r: real)
    ensures r * 1000.0 == ns as real
  {
    ns as real / NanosPerMicro as real
  }

  /** `ns / 1_000_000_000.0`: a nanosecond count in seconds. */
  function NanosToSeconds(ns: int): (r: real)
    ensures r * 1_000_000_000.0 == ns as real
  {
    ns as real / 1_000_000_000.0
  }
}
