/**
 * The streaming client of feed.py: endpoint composition, the reconnect loop with
 * exponential backoff, the three timestamps stamped on each decoded frame, and the
 * latency arithmetic of `main_trades` / `main_book_ticker`.
 *
 * The network is abstracted as a sequence of connection attempts, each either a
 * failed connect or a session that delivered some frames and then ended. Each
 * frame carries the three monotonic-clock readings the client takes while handling
 * it, and decoding is a partial function passed in as a parameter.
 */
module Feed {

  import opened Wrappers
  import opened Units

  const StreamHost := "wss://data-stream.binance.vision/ws/"

  /** `str.lower()` on one character (ASCII letters). */
  function LowerChar(c: char): char
  {
    if 'A' <= c <= 'Z' then (c as int + 32) as char else c
  }

  function Lower(s: string): (r: string)
    ensures |r| == |s|
    ensures forall i :: 0 <= i < |s| ==> r[i] == LowerChar(s[i])
  {
    if s == [] then [] else Lower(s[..|s| - 1]) + [LowerChar(s[|s| - 1])]
  }

  /** The endpoint of one subscription: host, lower-cased symbol, `@`, stream name. */
  function StreamUri(symbol: string, streamName: string): (r: string)
    ensures |r| == |StreamHost| + |symbol| + 1 + |streamName|
    ensures r[..|StreamHost|] == StreamHost
    ensures r[|StreamHost|..|StreamHost| + |symbol|] == Lower(symbol)
    ensures forall i :: |StreamHost| <= i < |StreamHost| + |symbol| ==> !('A' <= r[i] <= 'Z')
    ensures r[|StreamHost| + |symbol|] == '@'
    ensures r[|StreamHost| + |symbol| + 1..] == streamName
  {
    StreamHost + Lower(symbol) + "@" + streamName
  }

  /** The symbol's case does not change the endpoint. */
  lemma StreamUriExample()
    ensures StreamUri("BTCUSDT", "trade") == StreamUri("btcusdt", "trade") == "wss://data-stream.binance.vision/ws/btcusdt@trade"
  {
    assert Lower("BTCUSDT") == "btcusdt";
    assert Lower("btcusdt") == "btcusdt";
  }

  // ----- backoff -----

  const InitialBackoff: nat := 1
  const MaxBackoff: nat := 60

  /** `min(backoff_time * 2, 60)`. */
  function NextBackoff(b: nat): (r: nat)
    ensures r <= MaxBackoff
    ensures 2 * b <= MaxBackoff ==> r == 2 * b
    ensures 2 * b >= MaxBackoff ==> r == MaxBackoff
    ensures 1 <= b <= MaxBackoff ==> b < r || r == MaxBackoff
  {
    if b * 2 < MaxBackoff then b * 2 else MaxBackoff
  }

  // ----- decoded frames and stamping -----

  /** A decoded JSON value. */
  datatype Json =
    | JNull
    | JBool(b: bool)
    | JInt(i: int)
    | JReal(x: real)
    | JStr(s: string)
    | JArray(items: seq<Json>)
    | JObject(fields: map<string, Json>)

  /** A decoded frame as yielded: a JSON object. */
  type Message = map<string, Json>

  const BeforeParseKey := "_ts_before_parse"
  const AfterParseKey := "_ts_after_parse"
  const ReceivedKey := "_ts_received_ws"
  const StampKeys := {BeforeParseKey, AfterParseKey, ReceivedKey}

  /** Add the three timestamp keys to a decoded object; every other field is left as it was. */
  function Stamp(data: Message, beforeNs: int, afterNs: int, receivedNs: int): (r: Message)
    ensures r.Keys == data.Keys + StampKeys
    ensures r[BeforeParseKey] == JInt(beforeNs)
    ensures r[AfterParseKey] == JInt(afterNs)
    ensures r[ReceivedKey] == JInt(receivedNs)
    ensures forall k :: k in data && k !in StampKeys ==> r[k] == data[k]
  {
    data[BeforeParseKey := JInt(beforeNs)][AfterParseKey := JInt(afterNs)][ReceivedKey := JInt(receivedNs)]
  }

  /** One raw frame with the clock readings taken before decoding, after decoding, and after that again. */
  datatype Frame = Frame(raw: string, beforeParseNs: int, afterParseNs: int, receivedNs: int)

  /**
   * Decode and stamp one frame. `None` means the handling raised: the text did not
   * decode, or it decoded to something other than an object, which cannot take keys.
   */
  function HandleFrame(f: Frame, decode: string -> Option<Json>): (r: Option<Message>)
    ensures r.Some? <==> decode(f.raw).Some? && decode(f.raw).value.JObject?
    ensures r.Some? ==> r.value.Keys == decode(f.raw).value.fields.Keys + StampKeys
    ensures r.Some? ==> r.value == Stamp(decode(f.raw).value.fields, f.beforeParseNs, f.afterParseNs, f.receivedNs)
  {
    match decode(f.raw)
    case Some(JObject(data)) => Some(Stamp(data, f.beforeParseNs, f.afterParseNs, f.receivedNs))
    case _ => None
  }

  /** What a connected session yields: its frames in order, up to the first one whose handling raises. */
  function SessionMessages(frames: seq<Frame>, decode: string -> Option<Json>): (r: seq<Message>)
    ensures |r| <= |frames|
    ensures |r| < |frames| ==> HandleFrame(frames[|r|], decode).None?
  {
    if frames == [] then []
    else match HandleFrame(frames[0], decode)
      case Some(m) => [m] + SessionMessages(frames[1..], decode)
      case None => []
  }

  /** Some frame of the session could not be handled, which aborts the session. */
  predicate SessionRaises(frames: seq<Frame>, decode: string -> Option<Json>)
  {
    exists i :: 0 <= i < |frames| && HandleFrame(frames[i], decode).None?
  }

  // ----- the reconnect loop -----

  /** The exception classes the loop distinguishes: `ConnectionClosedError`, `InvalidStatusCode`, anything else. */
  datatype Failure = ConnectionClosed | InvalidStatus | Unexpected

  /** How a session ended: the frame iterator ran out (a clean close), or an exception was raised. */
  datatype SessionEnd = ClosedCleanly | Raised(failure: Failure)

  /** One pass of `while True`: the connect raised, or it succeeded and a session ran. */
  datatype Attempt =
    | ConnectFailed(failure: Failure)
    | Session(frames: seq<Frame>, end: SessionEnd)

  /** What the client has done so far: messages yielded, backoff sleeps taken, and the current backoff. */
  datatype ClientState = ClientState(messages: seq<Message>, sleeps: seq<nat>, backoff: nat)

  const Start := ClientState([], [], InitialBackoff)

  /** Both `except` branches: sleep for the current backoff, then double it up to the cap. */
  function OnFailure(s: ClientState, failure: Failure): (r: ClientState)
    ensures r.messages == s.messages
    ensures r.sleeps == s.sleeps + [s.backoff]
    ensures r.backoff == if 2 * s.backoff <= MaxBackoff then 2 * s.backoff else MaxBackoff
  {
    ClientState(s.messages, s.sleeps + [s.backoff], NextBackoff(s.backoff))
  }

  /** The effect of one attempt. A successful connect resets the backoff before anything else. */
  function AfterAttempt(s: ClientState, a: Attempt, decode: string -> Option<Json>): (r: ClientState)
    ensures a.ConnectFailed? ==> r.messages == s.messages && r.sleeps == s.sleeps + [s.backoff]
    ensures a.Session? ==> r.messages == s.messages + SessionMessages(a.frames, decode)
    ensures a.Session? && (SessionRaises(a.frames, decode) || a.end.Raised?) ==>
      r.sleeps == s.sleeps + [InitialBackoff] && r.backoff == 2 * InitialBackoff
    ensures a.Session? && !(SessionRaises(a.frames, decode) || a.end.Raised?) ==>
      r.sleeps == s.sleeps && r.backoff == InitialBackoff
    ensures 1 <= s.backoff <= MaxBackoff ==> 1 <= r.backoff <= MaxBackoff
  {
    match a
    case ConnectFailed(failure) => OnFailure(s, failure)
    case Session(frames, end) =>
      var connected := ClientState(s.messages + SessionMessages(frames, decode), s.sleeps, InitialBackoff);
      if SessionRaises(frames, decode) then OnFailure(connected, Unexpected)
      else if end.Raised? then OnFailure(connected, end.failure)
      else connected
  }

  function RunFrom(s: ClientState, attempts: seq<Attempt>, decode: string -> Option<Json>): ClientState
  {
    if attempts == [] then s
    else AfterAttempt(RunFrom(s, attempts[..|attempts| - 1], decode), attempts[|attempts| - 1], decode)
  }

  /** The client's state after a run of attempts, from the start. */
  function Run(attempts: seq<Attempt>, decode: string -> Option<Json>): ClientState
  {
    RunFrom(Start, attempts, decode)
  }

  /**
   * The `async for` over one connected session: every frame is stamped and yielded
   * in order until one cannot be handled, whose exception ends the session.
   */
  method ReceiveFrames(frames: seq<Frame>, decode: string -> Option<Json>) returns (yielded: seq<Message>, raised: bool)
    ensures yielded == SessionMessages(frames, decode)
    ensures raised == SessionRaises(frames, decode)
  {
    yielded, raised := [], false;
    var i := 0;
    while i < |frames|
      invariant 0 <= i <= |frames|
      invariant !raised ==> SessionMessages(frames, decode) == yielded + SessionMessages(frames[i..], decode)
      invariant !raised ==> forall j :: 0 <= j < i ==> HandleFrame(frames[j], decode).Some?
      invariant raised ==> yielded == SessionMessages(frames, decode) && SessionRaises(frames, decode)
    {
      var handled := HandleFrame(frames[i], decode);
      if handled.None? {
        raised := true;
        break;
      }
      assert frames[i..][1..] == frames[i + 1..];
      yielded := yielded + [handled.value];
      i := i + 1;
    }
  }

  /**
   * `binance_websocket_client(symbol, stream_name)`, run over a finite prefix of the
   * attempts it makes: returns the endpoint, every message yielded, the backoff
   * sleeps taken, and the backoff it would sleep for next.
   */
  method Client(symbol: string, streamName: string, attempts: seq<Attempt>, decode: string -> Option<Json>)
    returns (uri: string, messages: seq<Message>, sleeps: seq<nat>, backoff: nat)
    ensures uri == StreamUri(symbol, streamName)
    ensures ClientState(messages, sleeps, backoff) == Run(attempts, decode)
  {
    uri := StreamHost + Lower(symbol) + "@" + streamName;
    backoff := InitialBackoff;
    messages, sleeps := [], [];
    var k := 0;
    while k < |attempts|
      invariant 0 <= k <= |attempts|
      invariant ClientState(messages, sleeps, backoff) == Run(attempts[..k], decode)
    {
      assert attempts[..k + 1][..k] == attempts[..k];
      var attempt := attempts[k];
      if attempt.ConnectFailed? {
        sleeps := sleeps + [backoff];
        backoff := NextBackoff(backoff);
      } else {
        backoff := InitialBackoff;
        var yielded, raised := ReceiveFrames(attempt.frames, decode);
        messages := messages + yielded;
        if raised || attempt.end.Raised? {
          sleeps := sleeps + [backoff];
          backoff := NextBackoff(backoff);
        }
      }
      k := k + 1;
    }
    assert attempts[..|attempts|] == attempts;
  }

  // ----- what the loop guarantees -----

  ghost predicate BackoffInRange(s: ClientState)
  {
    && 1 <= s.backoff <= MaxBackoff
    && forall i :: 0 <= i < |s.sleeps| ==> 1 <= s.sleeps[i] <= MaxBackoff
  }

  /** Whatever happens on the network, every sleep and the pending backoff stay within [1, 60]. */
  lemma {:induction false} BackoffStaysInRange(attempts: seq<Attempt>, decode: string -> Option<Json>)
    ensures BackoffInRange(Run(attempts, decode))
  {
    if attempts != [] {
      BackoffStaysInRange(attempts[..|attempts| - 1], decode);
    }
  }

  /** An attempt with its exception classes forgotten. */
  function EraseFailure(a: Attempt): Attempt
  {
    match a
    case ConnectFailed(_) => ConnectFailed(Unexpected)
    case Session(frames, end) => Session(frames, if end.Raised? then Raised(Unexpected) else end)
  }

  /**
   * The class of an exception never changes what the client does: two runs whose
   * attempts differ only in which exceptions were raised end in the same state.
   */
  lemma {:induction false} FailureKindIrrelevant(xs: seq<Attempt>, ys: seq<Attempt>, decode: string -> Option<Json>)
    requires |xs| == |ys|
    requires forall i :: 0 <= i < |xs| ==> EraseFailure(xs[i]) == EraseFailure(ys[i])
    ensures Run(xs, decode) == Run(ys, decode)
  {
    if xs != [] {
      var n := |xs| - 1;
      FailureKindIrrelevant(xs[..n], ys[..n], decode);
      var x, y := xs[n], ys[n];
      assert EraseFailure(x) == EraseFailure(y);
      if x.Session? {
        assert y.Session? && x.frames == y.frames && x.end.Raised? == y.end.Raised?;
      }
    }
  }

  function Pow2(n: nat): nat
  {
    if n == 0 then 1 else 2 * Pow2(n - 1)
  }

  /** The backoff after `n` consecutive failures from the initial value. */
  function BackoffAfterFailures(n: nat): nat
  {
    if n == 0 then InitialBackoff else NextBackoff(BackoffAfterFailures(n - 1))
  }

  /** Consecutive failures give 1, 2, 4, 8, 16, 32 and then 60 for ever. */
  lemma {:induction false} BackoffClosedForm(n: nat)
    ensures BackoffAfterFailures(n) == if n <= 5 then Pow2(n) else MaxBackoff
  {
    if n > 0 {
      BackoffClosedForm(n - 1);
    }
  }

  /** A run of failed connects sleeps for 1, 2, 4, ... (capped) and yields nothing. */
  lemma {:induction false} ConsecutiveConnectFailures(attempts: seq<Attempt>, decode: string -> Option<Json>)
    requires forall i :: 0 <= i < |attempts| ==> attempts[i].ConnectFailed?
    ensures Run(attempts, decode).messages == []
    ensures Run(attempts, decode).backoff == BackoffAfterFailures(|attempts|)
    ensures |Run(attempts, decode).sleeps| == |attempts|
    ensures forall i :: 0 <= i < |attempts| ==> Run(attempts, decode).sleeps[i] == BackoffAfterFailures(i)
  {
    if attempts != [] {
      ConsecutiveConnectFailures(attempts[..|attempts| - 1], decode);
    }
  }

  /** Eight failed connects in a row sleep 1, 2, 4, 8, 16, 32, 60, 60. */
  lemma EightConnectFailures(attempts: seq<Attempt>, decode: string -> Option<Json>)
    requires |attempts| == 8
    requires forall i :: 0 <= i < 8 ==> attempts[i].ConnectFailed?
    ensures Run(attempts, decode).sleeps == [1, 2, 4, 8, 16, 32, 60, 60]
  {
    ConsecutiveConnectFailures(attempts, decode);
    forall i | 0 <= i < 8
      ensures Run(attempts, decode).sleeps[i] == [1, 2, 4, 8, 16, 32, 60, 60][i]
    {
      BackoffClosedForm(i);
    }
  }

  /**
   * A successful connect resets the backoff: if the session then fails, the sleep
   * is 1 and the next backoff 2, whatever the backoff was before it.
   */
  lemma ConnectResetsBackoff(s: ClientState, frames: seq<Frame>, end: SessionEnd, decode: string -> Option<Json>)
    ensures var r := AfterAttempt(s, Session(frames, end), decode);
      if SessionRaises(frames, decode) || end.Raised? then
        r.sleeps == s.sleeps + [InitialBackoff] && r.backoff == 2
      else
        r.sleeps == s.sleeps && r.backoff == InitialBackoff
  {
  }

  /** The messages a session yields are exactly its handled frames, in order. */
  lemma {:induction false} SessionMessagesAreHandledFrames(frames: seq<Frame>, decode: string -> Option<Json>)
    ensures |SessionMessages(frames, decode)| <= |frames|
    ensures forall k :: 0 <= k < |SessionMessages(frames, decode)| ==>
      HandleFrame(frames[k], decode) == Some(SessionMessages(frames, decode)[k])
    ensures !SessionRaises(frames, decode) ==> |SessionMessages(frames, decode)| == |frames|
  {
    if frames != [] {
      SessionMessagesAreHandledFrames(frames[1..], decode);
    }
  }

  /**
   * A frame that cannot be handled ends its session: nothing from it or after it
   * is yielded, and the client sleeps and backs off as for any other failure.
   */
  lemma {:induction false} BadFrameAbortsSession(frames: seq<Frame>, i: nat, end: SessionEnd, s: ClientState, decode: string -> Option<Json>)
    requires i < |frames| && HandleFrame(frames[i], decode).None?
    ensures SessionMessages(frames, decode) == SessionMessages(frames[..i], decode)
    ensures |SessionMessages(frames, decode)| <= i
    ensures AfterAttempt(s, Session(frames, end), decode).sleeps == s.sleeps + [InitialBackoff]
  {
    if i > 0 && HandleFrame(frames[0], decode).Some? {
      var m := HandleFrame(frames[0], decode).value;
      BadFrameAbortsSession(frames[1..], i - 1, end, s, decode);
      assert frames[..i][0] == frames[0] && frames[..i][1..] == frames[1..][..i - 1];
      calc {
        SessionMessages(frames, decode);
        [m] + SessionMessages(frames[1..], decode);
        [m] + SessionMessages(frames[1..][..i - 1], decode);
        [m] + SessionMessages(frames[..i][1..], decode);
        SessionMessages(frames[..i], decode);
      }
    }
    assert SessionRaises(frames, decode);
  }

  ghost predicate MonotonicClock(frames: seq<Frame>)
  {
    forall f :: f in frames ==> f.beforeParseNs <= f.afterParseNs <= f.receivedNs
  }

  /** The three stamps are present as integers. */
  predicate StampsPresent(m: Message)
  {
    && BeforeParseKey in m && m[BeforeParseKey].JInt?
    && AfterParseKey in m && m[AfterParseKey].JInt?
    && ReceivedKey in m && m[ReceivedKey].JInt?
  }

  /** The three stamps are present and in the order they were taken. */
  predicate StampsOrdered(m: Message)
  {
    StampsPresent(m) && m[BeforeParseKey].i <= m[AfterParseKey].i <= m[ReceivedKey].i
  }

  /** Under a monotonic clock every yielded message has before-parse <= after-parse <= received. */
  lemma {:induction false} RunStampsOrdered(attempts: seq<Attempt>, decode: string -> Option<Json>)
    requires forall a :: a in attempts && a.Session? ==> MonotonicClock(a.frames)
    ensures forall m :: m in Run(attempts, decode).messages ==> StampsOrdered(m)
  {
    if attempts != [] {
      var init, last := attempts[..|attempts| - 1], attempts[|attempts| - 1];
      assert forall a :: a in init ==> a in attempts;
      RunStampsOrdered(init, decode);
      if last.Session? {
        assert last in attempts;
        var yielded := SessionMessages(last.frames, decode);
        SessionMessagesAreHandledFrames(last.frames, decode);
        forall k | 0 <= k < |yielded|
          ensures StampsOrdered(yielded[k])
        {
          assert last.frames[k] in last.frames;
        }
      }
    }
  }

  /** The loop never stops on its own: after any attempts it carries on from where it was. */
  lemma {:induction false} RunFromAppend(s: ClientState, xs: seq<Attempt>, ys: seq<Attempt>, decode: string -> Option<Json>)
    ensures RunFrom(s, xs + ys, decode) == RunFrom(RunFrom(s, xs, decode), ys, decode)
  {
    if ys == [] {
      assert xs + ys == xs;
    } else {
      var init := ys[..|ys| - 1];
      assert (xs + ys)[..|xs + ys| - 1] == xs + init;
      RunFromAppend(s, xs, init, decode);
    }
  }

  /** What was yielded and slept is never taken back: later attempts only extend it. */
  lemma {:induction false} RunOnlyExtends(s: ClientState, ys: seq<Attempt>, decode: string -> Option<Json>)
    ensures s.messages <= RunFrom(s, ys, decode).messages
    ensures s.sleeps <= RunFrom(s, ys, decode).sleeps
  {
    if ys != [] {
      RunOnlyExtends(s, ys[..|ys| - 1], decode);
    }
  }

  // ----- latency -----

  /** `_ts_received_ws - event_time_ms * 1_000_000`. */
  function TransportLatencyNs(receivedNs: int, eventTimeMs: int): (r: int)
    ensures r + eventTimeMs * NanosPerMilli == receivedNs
  {
    receivedNs - eventTimeMs * NanosPerMilli
  }

  /** Transport latency in microseconds and parse latency in nanoseconds. */
  datatype Latency = Latency(transportUs: real, parseNs: int)

  /**
   * The number an event field stands for in `x * 1_000_000`: an integer, a float,
   * or a bool (which Python multiplies as 0 or 1). Any other value makes the
   * subtraction that follows raise.
   */
  function EventNumber(j: Json): (r: Option<real>)
    ensures r.Some? <==> j.JInt? || j.JReal? || j.JBool?
    ensures j.JInt? ==> r == Some(j.i as real)
    ensures j.JReal? ==> r == Some(j.x)
    ensures j.JBool? ==> r == Some(if j.b then 1.0 else 0.0)
  {
    match j
    case JInt(i) => Some(i as real)
    case JReal(x) => Some(x)
    case JBool(b) => Some(if b then 1.0 else 0.0)
    case _ => None
  }

  /**
   * The per-message arithmetic of `main_trades` (event key `T`) and `main_book_ticker`
   * (event key `u`, the update id standing in for a time). `None` means the source
   * raises: a stamp or the event field is missing, or the event field is not a number.
   */
  function MessageLatency(m: Message, eventKey: string): (r: Option<Latency>)
    ensures r.Some? <==> eventKey in m && EventNumber(m[eventKey]).Some? && StampsPresent(m)
    ensures r.Some? ==>
      r.value.transportUs * 1000.0 + EventNumber(m[eventKey]).value * 1_000_000.0 == m[ReceivedKey].i as real
    ensures r.Some? && m[eventKey].JInt? ==>
      r.value.transportUs == NanosToMicros(TransportLatencyNs(m[ReceivedKey].i, m[eventKey].i))
    ensures r.Some? ==> m[BeforeParseKey].i + r.value.parseNs == m[AfterParseKey].i
  {
    if eventKey in m && EventNumber(m[eventKey]).Some? && StampsPresent(m) then
      var latencyNs := m[ReceivedKey].i as real - EventNumber(m[eventKey]).value * 1_000_000.0;
      Some(Latency(latencyNs / 1000.0, m[AfterParseKey].i - m[BeforeParseKey].i))
    else None
  }

  /** `main_trades`: latency against the trade time `T`. */
  function TradeLatency(m: Message): (r: Option<Latency>)
    ensures r == MessageLatency(m, "T")
    ensures r.Some? <==> "T" in m && EventNumber(m["T"]).Some? && StampsPresent(m)
    ensures r.Some? ==> r.value.transportUs * 1000.0 + EventNumber(m["T"]).value * 1_000_000.0 == m[ReceivedKey].i as real
    ensures r.Some? ==> r.value.parseNs == m[AfterParseKey].i - m[BeforeParseKey].i
  {
    MessageLatency(m, "T")
  }

  /** `main_book_ticker`: latency against the update id `u`. */
  function BookTickerLatency(m: Message): (r: Option<Latency>)
    ensures r == MessageLatency(m, "u")
    ensures r.Some? <==> "u" in m && EventNumber(m["u"]).Some? && StampsPresent(m)
    ensures r.Some? ==> r.value.transportUs * 1000.0 + EventNumber(m["u"]).value * 1_000_000.0 == m[ReceivedKey].i as real
    ensures r.Some? ==> r.value.parseNs == m[AfterParseKey].i - m[BeforeParseKey].i
  {
    MessageLatency(m, "u")
  }

  /**
   * Every message the client stamps has a latency as soon as its event field is an
   * integer, and under a monotonic clock its parse latency is never negative.
   */
  lemma StampedLatency(data: Message, f: Frame, eventKey: string, eventTime: int)
    requires eventKey in data && data[eventKey] == JInt(eventTime) && eventKey !in StampKeys
    ensures MessageLatency(Stamp(data, f.beforeParseNs, f.afterParseNs, f.receivedNs), eventKey)
      == Some(Latency(NanosToMicros(f.receivedNs - eventTime * NanosPerMilli), f.afterParseNs - f.beforeParseNs))
    ensures MonotonicClock([f]) ==>
      MessageLatency(Stamp(data, f.beforeParseNs, f.afterParseNs, f.receivedNs), eventKey).value.parseNs >= 0
  {
    assert f in [f];
  }
}
