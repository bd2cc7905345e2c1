# Single-symbol market-data feed: a Dafny model

This project models the core of a small real-time market-data tool for one
trading symbol. The tool reads Binance trade and book-ticker streams and keeps
a top-of-book order book. It derives spread, mid-price, imbalance, VWAP and
trailing trade volume, stamps each decoded frame with three monotonic-clock
readings, and feeds two live dashboards.

Modules, one per source component:

- `Wrappers` (wrappers.dfy): `Option`. `None` stands for Python's `None`, and for NaN in the dashboards.
- `Units` (units.dfy): nanosecond constants and the conversions to microseconds and seconds.
- `Windows` (windows.dfy): the suffix slice `s[-n:]` and the bounded `deque(maxlen=cap)`. It covers append with eviction and the in-place overwrite of the newest slot. Both dashboards use it.
- `OrderBooks` (orderbook.dfy): the `OrderBook` class. Its two `map<real, real>` fields change in place. Best bid and best ask are recomputed by a loop over the live price keys on every call.
- `Metrics` (metrics.dfy): the pure metrics, and the trailing-volume scan as a method with a backward loop and an early `break`.
- `Feed` (feed.dfy): the endpoint, the reconnect loop with backoff, frame stamping and the latency arithmetic. The loop is a method over a finite sequence of connection attempts. Its state (messages yielded, sleeps taken, pending backoff) is tied to a specification function `Run`.
- `PlotLive` (plot_live.dfy): the `PlotDashboard` class with the seven bounded series, the trade history, and the `get_plot_data` helper.
- `LatencyLive` (latency_live.dfy): the `LatencyDashboard` class with its three bounded buffers.

Prices and quantities are `real`. Timestamps are unbounded `int`s treated as opaque clock readings.

Four behaviours of the code worth knowing:

- A frame that fails to decode does not get dropped while the stream goes on. The exception leaves the session, and the client reconnects through the same sleep-and-backoff path as any other failure (feed.py:21-36).
- The received stamp `_ts_received_ws` is read after parsing, not on arrival (feed.py:22-27). So the transport latency includes the parse time.
- The trailing-volume window compares the trade time `T` (exchange milliseconds) with the caller's `current_time_ns` (metrics.py:51-59). The scan's early exit relies on the trades being sorted by `T`, not by arrival time.
- When the frame iterator ends without an exception (a clean close), the loop reconnects at once. There is no sleep, and the backoff stays at the 1 it was reset to (feed.py:16-21).

`orderbook.pyx` is not modelled. The model follows the behaviour its tests fix (tests/test_orderbook.py). Two choices go beyond what the tests fix:
- A non-positive quantity removes a level. The tests only use 0.
- A book-ticker update clears both sides and then upserts the reported levels. A non-positive reported quantity therefore leaves that side empty.

## Model

| member | source | states |
|---|---|---|
| `Windows.Last` | metrics.py:33 | the slice `s[-n:]` has min(n, len) elements and is a suffix of `s` |
| `Windows.Append` | plot_live.py:33-42 | appending to a deque that is not full adds the value at the end; appending to a full deque drops the oldest element, keeps the size and puts the new value last; with capacity 0 the deque stays empty |
| `Windows.SetLast` | plot_live.py:149-155 | `if dq: dq[-1] = x` keeps the length, leaves every earlier slot unchanged and writes `x` in the newest slot |
| `Windows.AppendAllIsLast` | plot_live.py:33-39 | a bounded deque that has seen a run of appends holds exactly the last `cap` values of everything appended |
| `Windows.NarrowerAppend` | latency_live.py:68-72 | a smaller deque fed the same values as a larger one keeps holding the newest part of the larger one |
| `OrderBooks.Upsert` | tests/test_orderbook.py:52-118 | a positive quantity inserts or overwrites the level at that price; any other quantity removes the key; all other prices keep their levels; levels stay positive |
| `OrderBooks.TickerSide` | tests/test_orderbook.py:175-209 | a book-ticker side is exactly the single reported level (empty if its quantity is not positive) |
| `OrderBooks.UpsertAllLevels` | tests/test_orderbook.py:86-118 | after any run of updates a price is present iff its latest update was positive, and it holds that latest quantity; prices never updated keep their old level |
| `OrderBooks.UpsertAllPositive` | tests/test_orderbook.py:102-118 | no run of updates ever leaves a zero or negative level on a side (absence, not a zero entry) |
| `OrderBooks.RemovingBestBid` | tests/test_orderbook.py:147-156 | after the best bid is removed, the new best is the highest remaining price, strictly lower than the old best, or 0 if no bids remain |
| `OrderBooks.RemovingBestAsk` | tests/test_orderbook.py:158-166 | after the best ask is removed, the new best is the lowest remaining price, strictly higher than the old best, or 0 if no asks remain |
| `OrderBooks.OrderBook.constructor` | tests/test_orderbook.py:44-47 | a fresh book has no bid and no ask levels |
| `OrderBooks.OrderBook.UpdateBid` | tests/test_orderbook.py:52-67 | the bid side becomes the upsert of the old bids and the ask side is unchanged; levels stay positive |
| `OrderBooks.OrderBook.UpdateAsk` | tests/test_orderbook.py:69-84 | the ask side becomes the upsert of the old asks and the bid side is unchanged; levels stay positive |
| `OrderBooks.OrderBook.UpdateFromBookTicker` | tests/test_orderbook.py:175-190 | both sides are replaced wholesale by the single reported levels, whatever was there before, so the previous top of book is gone |
| `OrderBooks.OrderBook.GetBids` | tests/test_orderbook.py:58-62 | returns the bid levels, every one with a positive quantity |
| `OrderBooks.OrderBook.GetAsks` | tests/test_orderbook.py:75-79 | returns the ask levels, every one with a positive quantity |
| `OrderBooks.OrderBook.GetBidQuantity` | tests/test_orderbook.py:104-109 | returns the stored bid quantity, and 0 exactly when no level sits at that price |
| `OrderBooks.OrderBook.GetAskQuantity` | tests/test_orderbook.py:113-118 | returns the stored ask quantity, and 0 exactly when no level sits at that price |
| `OrderBooks.OrderBook.GetBestBid` | tests/test_orderbook.py:121-128 | returns the maximum bid price present, or 0 for an empty side, recomputed from the live keys |
| `OrderBooks.OrderBook.GetBestAsk` | tests/test_orderbook.py:130-137 | returns the minimum ask price present, or 0 for an empty side, recomputed from the live keys |
| `OrderBooks.FreshBook` | tests/test_orderbook.py:139-145 | a fresh book reports empty sides and 0 for both best prices |
| `OrderBooks.AddOneBid` | tests/test_orderbook.py:52-67 | one positive bid on an empty book is the only level, holds its quantity and is the best bid |
| `OrderBooks.OverwriteThenRemoveAsk` | tests/test_orderbook.py:94-118 | a second update at the same price overwrites the quantity; a zero update removes the key and the lookup returns 0 |
| `OrderBooks.BestBidAfterRemoval` | tests/test_orderbook.py:147-156 | bids at p-1 and p, then p removed: best bid is p-1 |
| `OrderBooks.BestAskAfterRemoval` | tests/test_orderbook.py:158-166 | asks at p+1 and p, then p removed: best ask is p+1 |
| `OrderBooks.BookTickerClearsPreviousTop` | tests/test_orderbook.py:192-209 | after manual levels (100.0, 10.0) and (101.0, 5.0), the ticker {100.5, 12.0, 101.5, 6.0} leaves exactly {100.5: 12.0} and {101.5: 6.0}, with best bid 100.5 and best ask 101.5 |
| `Metrics.Spread` | metrics.py:6-10 | defined iff bid > 0, ask > 0 and ask > bid; then strictly positive and bid + spread = ask |
| `Metrics.MidPrice` | metrics.py:12-16 | same definedness as the spread; then strictly between bid and ask and equidistant from both |
| `Metrics.Imbalance` | metrics.py:18-23 | defined iff the total volume is positive; then imbalance × total = bid − ask, and it lies in [−1, 1] when both volumes are non-negative |
| `Metrics.Vwap` | metrics.py:26-39 | None for no trades or a window ≤ 0; otherwise defined iff the last min(window, len) trades have non-zero total quantity, and then VWAP × volume = Σ p·q over exactly those trades |
| `Metrics.VwapWithinPrices` | metrics.py:33-39 | with positive quantities the VWAP is defined and lies within any bounds on the window's prices, so between its lowest and highest price |
| `Metrics.SumQtyPositive` | metrics.py:35 | trades with positive quantities have a positive total volume |
| `Metrics.NotionalAtLeast` | metrics.py:34-35 | with non-negative quantities and prices ≥ lo, Σ p·q ≥ lo · Σ q |
| `Metrics.NotionalAtMost` | metrics.py:34-35 | with non-negative quantities and prices ≤ hi, Σ p·q ≤ hi · Σ q |
| `Metrics.TradeVolumePerSecond` | metrics.py:42-64 | returns 0 for no trades or a window ≤ 0; otherwise returns the newest run of trades whose T·10⁶ ≥ now − window·10⁹ (cutoff inclusive), stopping at the first older trade |
| `Metrics.NewestRunVolume` | metrics.py:54-63 | what the backward scan adds up, newest trade first, stopping at the first trade before the cutoff: when every trade is in the window it is the total quantity, and with non-negative quantities it is never negative |
| `Metrics.SortedScanIsWindowVolume` | metrics.py:55-63 | on trades sorted by T, the early-exit scan equals the sum of q over all trades at or after the cutoff |
| `Metrics.ScanUndercounts` | metrics.py:56-63 | on unsorted trades with non-negative quantities the scan's result is at most the full filtered sum |
| `Metrics.UnsortedScanMissesTrades` | metrics.py:56-63 | an older trade arriving last hides an in-window trade: the scan gives 0 where the filtered sum is 1 |
| `Metrics.WindowVolumeNonNegative` | metrics.py:59-60 | with non-negative quantities the filtered volume is never negative |
| `Metrics.NoneInWindow` | metrics.py:59-63 | trades all before the cutoff contribute no volume |
| `Metrics.WorkedExample` | metrics.py:98-116 | with exact times 2.5 s, 1.8 s, 0.9 s and 0.3 s before now: 3.5 over 1 s, 4.0 over 2 s, and a VWAP of the last three trades of 100.0125 |
| `Units.NanosToMicros` | latency_live.py:62 | microseconds × 1000 gives back the nanoseconds |
| `Units.NanosToSeconds` | plot_live.py:102 | seconds × 10⁹ gives back the nanoseconds |
| `Feed.Lower` | feed.py:13 | lower-casing keeps the length and maps every character through the ASCII lower-case map |
| `Feed.StreamUri` | feed.py:13 | the endpoint is the fixed host, then the symbol lower-cased, then `@`, then the stream name; the symbol part has no upper-case letter |
| `Feed.StreamUriExample` | feed.py:13 | "BTCUSDT" and "btcusdt" give the same endpoint, "wss://data-stream.binance.vision/ws/btcusdt@trade" |
| `Feed.NextBackoff` | feed.py:32 | the next backoff is never above 60; it doubles while that stays within 60 and is 60 otherwise |
| `Feed.Stamp` | feed.py:25-27 | the result has exactly the decoded keys plus the three stamp keys, with the three readings, and every other field untouched |
| `Feed.HandleFrame` | feed.py:22-27 | a frame yields a message iff it decodes to an object; the message is that object stamped with this frame's three readings, its own fields unchanged |
| `Feed.ReceiveFrames` | feed.py:21-28 | one session yields exactly its handled frames in order up to the first one that cannot be handled, and raises iff such a frame exists |
| `Feed.Client` | feed.py:12-36 | the generator over a finite run of attempts: it composes the endpoint, and the messages it yields, the sleeps it takes and its pending backoff are exactly `Run` of the attempts |
| `Feed.BackoffStaysInRange` | feed.py:29-36 | whatever the attempts, every sleep and the pending backoff stay within [1, 60] |
| `Feed.FailureKindIrrelevant` | feed.py:29-36 | two runs whose attempts differ only in which exception class was raised end in the same state: both `except` branches do the same update |
| `Feed.BackoffClosedForm` | feed.py:14-32 | after n consecutive failures the backoff is 2ⁿ for n ≤ 5 and 60 from then on |
| `Feed.ConsecutiveConnectFailures` | feed.py:29-36 | a run of failed connects yields nothing and sleeps 1, 2, 4, … capped at 60, one sleep per failure |
| `Feed.EightConnectFailures` | feed.py:29-36 | eight failed connects in a row sleep exactly 1, 2, 4, 8, 16, 32, 60, 60 |
| `Feed.ConnectResetsBackoff` | feed.py:18-20 | a successful connect resets the backoff: a session that fails sleeps 1 and leaves 2, and one that closes cleanly sleeps nothing and leaves 1 |
| `Feed.SessionMessages` | feed.py:21-28 | what the `async for` yields in one session: at most one message per frame, and if it stops before the last frame, the frame it stops at cannot be handled (the per-frame correspondence is `Feed.SessionMessagesAreHandledFrames`) |
| `Feed.OnFailure` | feed.py:29-36 | either `except` branch: nothing is yielded, one sleep of the current backoff is recorded, and the backoff becomes min(2·backoff, 60) |
| `Feed.AfterAttempt` | feed.py:16-36 | one pass of `while True`: a failed connect sleeps the current backoff; a session appends its messages, then sleeps 1 and leaves 2 if it raised, or sleeps nothing and leaves 1 if it closed cleanly; a backoff within [1, 60] stays there |
| `Feed.SessionMessagesAreHandledFrames` | feed.py:21-28 | a session yields its handled frames in order, one message per frame up to the first failure, and all of them if none fails |
| `Feed.BadFrameAbortsSession` | feed.py:21-36 | a frame that cannot be handled yields nothing from itself or any later frame of the session, and the client sleeps 1 and backs off |
| `Feed.RunStampsOrdered` | feed.py:22-27 | under a monotonic clock every yielded message has before-parse ≤ after-parse ≤ received |
| `Feed.RunFromAppend` | feed.py:16-36 | running attempts `xs` and then `ys` ends in the same state as running `xs + ys`: a later attempt starts from exactly the state the earlier ones left |
| `Feed.RunOnlyExtends` | feed.py:16-36 | later attempts only extend the messages yielded and the sleeps taken |
| `Feed.TransportLatencyNs` | feed.py:41 | latency + event time × 10⁶ = received stamp |
| `Feed.MessageLatency` | feed.py:41-43 | defined iff the three stamps are integers and the event field is a number (int, float or bool); then microseconds × 1000 + event × 10⁶ = received (the integer formula when the event field is an int), and before + parse latency = after |
| `Feed.TradeLatency` | feed.py:41-43 | `main_trades`' arithmetic against `T`: defined iff `T` is a number and the stamps are present; microseconds × 1000 + T × 10⁶ = received; parse latency = after − before |
| `Feed.BookTickerLatency` | feed.py:51-53 | `main_book_ticker`'s arithmetic, with the update id `u` in place of `T`: defined iff `u` is a number and the stamps are present; microseconds × 1000 + u × 10⁶ = received; parse latency = after − before |
| `Feed.StampedLatency` | feed.py:22-43 | every stamped message with an integer event field has a latency computed from its frame's readings; with a monotonic clock the parse latency is ≥ 0 |
| `PlotLive.Newest` | plot_live.py:119-120 | the value carried forward is the newest point, or NaN for an empty series |
| `PlotLive.PlotDashboard.constructor` | plot_live.py:33-42 | all series and the trade history start empty |
| `PlotLive.PlotDashboard.OnBookTicker` | plot_live.py:102-121 | appends one point to each of the seven series (capped at 200, oldest evicted): time in seconds, mid, spread and imbalance (NaN when undefined), the carried-forward VWAP and volume, and a NaN trade price; the trade history is unchanged and all series stay the same length |
| `PlotLive.PlotDashboard.OnTrade` | plot_live.py:138-155 | appends the trade to the 5000-trade history, then overwrites only the newest VWAP (last 100 trades), volume (1 s window ending at the receive stamp) and trade-price slots, if there are any; no series changes length |
| `PlotLive.PlotData` | plot_live.py:170-177 | exactly `current_len` values: all NaN for an empty series, the series' own values first, padded with its newest value when shorter, cut when longer |
| `PlotLive.PlotDataOfFullSeries` | plot_live.py:170-177 | a series already `current_len` long is plotted unchanged |
| `PlotLive.PlotSeries` | plot_live.py:168-184 | the six `get_plot_data` calls (mid, last trade, spread, imbalance, VWAP, volume): in a dashboard whose series all match the timestamps, each plotted series is that series, unpadded and uncut |
| `LatencyLive.LatencyDashboard.constructor` | latency_live.py:27-29 | the three buffers start empty |
| `LatencyLive.LatencyDashboard.OnTrade` | latency_live.py:58-72 | appends delta_us = (received − T·10⁶)/1000 to the 5000-sample history and to the 200-point rolling series, and received/10⁹ to the wall-clock times; the rolling series stays the newest 200 of the history, the same length as the times, and ends with the newest sample |
| `LatencyLive.RollingIsNewestOfHistory` | latency_live.py:27-29 | fed the same samples from empty, the 200-slot buffer holds the newest 200 of what the 5000-slot buffer holds |

## Left out

- The WebSocket transport, TLS and handshake (feed.py:18, 21) are abstract. Each attempt is a failed connect or a session of received frames that ended cleanly or with an exception. Decoding is a partial function passed in as a parameter, and the monotonic-clock readings come with each frame.
- `asyncio` sleeping, cancellation, task creation and `wait_for` timeouts are left out, as concurrency and lifecycle. A sleep is recorded as a value in the client's sleep sequence.
- The generator is infinite. The model runs it over any finite sequence of attempts. `Feed.RunFromAppend` shows that a run split in two gives the same state as running it whole.
- Logging and `print` output, and the matplotlib setup and redraw code are left out, as UI. The one exception is `get_plot_data`.
- The argparse and `__main__` blocks are left out, as command line.
- tools/simple_ws_test.py is a connectivity probe that only prints. It is not part of this model.
- Python `float()` parsing of the string fields `p`, `q`, `b`, `B`, `a`, `A` is left out. The handlers take the numbers already decoded, so a book-ticker message with a missing field is not modelled.
- Floating-point rounding, NaN arithmetic and `pytest.approx` tolerances are left out. Numbers are exact reals and NaN is `None`.
- `orderbook.pyx` is not modelled. Only the map behaviour the tests observe is modelled.
- `Feed.Lower`: models `str.lower()` on ASCII letters only. Other Unicode case mappings are not modelled.
- `Feed.MessageLatency`: returns `None` where the source raises: a missing field, or an event field that is a string, null, array or object. The resulting crash of the consuming task is not modelled. A float event field is computed in exact reals, not with float rounding.
- Clock meaning is not modelled. `_ts_received_ws` comes from a monotonic clock, while `T` and `u` are exchange epoch milliseconds and an update id. Latency values and the dashboard's 1-second volume window compare unrelated clocks. The model treats all stamps as opaque integers and proves nothing about the sign of a latency.
- The demo block of metrics.py (metrics.py:68-117) is left out. `Metrics.WorkedExample` restates its scenario with exact integer times instead of the truncated `time.time()` values.
- `Metrics.TradeVolumePerSecond`: its contract states what the scan returns, for any order of trades. The equality with the full filtered sum on sorted trades is the separate lemma `Metrics.SortedScanIsWindowVolume`. It is not in the method's own contract because every caller would then have to reason about sortedness.
