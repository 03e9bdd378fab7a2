/** The connection manager (src/connection.cpp): the connectivity check,
    its rate limiter and the best-effort publish of one measurement.

    The WiFi and MQTT libraries are not modelled. What one call observes of
    them is a `Link`: whether WiFi and the MQTT session are up, and what a
    connect attempt would answer. The calls the manager makes on them are
    appended to a log, `calls`, instead of being performed.
 */
module Connection {
  import opened Agent

  /** What the transport reports during one call. */
  datatype Link = Link(wifiConnected: bool, mqttConnected: bool, connectAccepted: bool)

  /** The transport calls the manager makes. */
  datatype TransportCall =
    | WifiDisconnect
    | WifiBegin
    | MqttConnect
    | MqttPublish(topic: string, payload: string)

  /** Number of publish calls in a log. */
  function Publishes(calls: seq<TransportCall>): nat
    decreases |calls|
  {
    if calls == [] then 0
    else Publishes(calls[..|calls| - 1]) + (if calls[|calls| - 1].MqttPublish? then 1 else 0)
  }

  /** Number of reconnect and handshake attempts in a log. */
  function Attempts(calls: seq<TransportCall>): nat
    decreases |calls|
  {
    if calls == [] then 0
    else Attempts(calls[..|calls| - 1]) + (if calls[|calls| - 1] in {WifiBegin, MqttConnect} then 1 else 0)
  }

  lemma {:induction false} PublishesAppend(a: seq<TransportCall>, b: seq<TransportCall>)
    ensures Publishes(a + b) == Publishes(a) + Publishes(b)
    decreases |b|
  {
    if b != [] {
      assert (a + b)[..|a + b| - 1] == a + b[..|b| - 1];
      PublishesAppend(a, b[..|b| - 1]);
    } else {
      assert a + b == a;
    }
  }

  datatype CheckOutcome = CheckOutcome(connected: bool, calls: seq<TransportCall>)

  /** `checkConnections`: WiFi down means one disconnect and one begin and
      false; WiFi up and MQTT down means one connect, whose answer is the
      result; both up means true with no call. */
  function Check(link: Link): CheckOutcome
  {
    if !link.wifiConnected then CheckOutcome(false, [WifiDisconnect, WifiBegin])
    else if !link.mqttConnected then CheckOutcome(link.connectAccepted, [MqttConnect])
    else CheckOutcome(true, [])
  }

  /** The three cases of the check, each with exactly the calls it makes. */
  lemma CheckCases(link: Link)
    ensures !link.wifiConnected ==>
      !Check(link).connected && Check(link).calls == [WifiDisconnect, WifiBegin]
    ensures link.wifiConnected && !link.mqttConnected ==>
      Check(link).connected == link.connectAccepted && Check(link).calls == [MqttConnect]
    ensures link.wifiConnected && link.mqttConnected ==>
      Check(link).connected && Check(link).calls == []
  {
  }

  /** The check succeeds exactly when WiFi is up and the session is up or
      comes up on this call's attempt. */
  lemma CheckConnectedIff(link: Link)
    ensures Check(link).connected <==> link.wifiConnected && (link.mqttConnected || link.connectAccepted)
  {
  }

  /** A check makes at most one reconnect or handshake attempt and never
      publishes. */
  lemma CheckAttemptsAtMostOnce(link: Link)
    ensures Attempts(Check(link).calls) <= 1
    ensures Publishes(Check(link).calls) == 0
  {
    var c := Check(link).calls;
    if c == [WifiDisconnect, WifiBegin] {
      assert c[..1] == [WifiDisconnect];
      assert c[..1][..0] == [];
    }
  }

  /** Whether `loop` at clock reading `now` is due to check. */
  predicate Due(lastCheck: Millis, interval: Millis, now: Millis)
  {
    Elapsed(now, lastCheck) > interval
  }

  /** `lastConnectionCheck` after one `loop` call at clock reading `now`:
      the call's own reading if it checked, the old value otherwise. */
  function LastCheckAfter(lastCheck: Millis, interval: Millis, now: Millis): (r: Millis)
    ensures Due(lastCheck, interval, now) ==> Elapsed(now, r) == 0
    ensures !Due(lastCheck, interval, now) ==> Elapsed(now, r) <= interval
  {
    if Due(lastCheck, interval, now) then now else lastCheck
  }

  /** The number of checks a series of `loop` calls at the given clock
      readings performs, starting from `lastCheck`; each call is one step of
      `ConnectionManager.Loop`. */
  function ChecksIn(lastCheck: Millis, interval: Millis, clocks: seq<Millis>): nat
    decreases |clocks|
  {
    if clocks == [] then 0
    else
      (if Due(lastCheck, interval, clocks[0]) then 1 else 0)
      + ChecksIn(LastCheckAfter(lastCheck, interval, clocks[0]), interval, clocks[1..])
  }

  /** Calls no later than the interval after the last check perform no
      check. */
  lemma {:induction false} NoCheckBeforeIntervalPasses(lastCheck: Millis, interval: Millis, clocks: seq<Millis>)
    requires forall k :: 0 <= k < |clocks| ==> Elapsed(clocks[k], lastCheck) <= interval
    ensures ChecksIn(lastCheck, interval, clocks) == 0
    decreases |clocks|
  {
    if clocks != [] {
      NoCheckBeforeIntervalPasses(lastCheck, interval, clocks[1..]);
    }
  }

  /** The rate limit: however many `loop` calls fall within one interval
      after a reference reading `start`, in clock order, they perform at
      most one check between them, across a wrap of the clock too. */
  lemma {:induction false} AtMostOneCheckPerInterval(lastCheck: Millis, interval: Millis, start: Millis,
                                                    clocks: seq<Millis>)
    requires forall i, j :: 0 <= i <= j < |clocks| ==>
      Elapsed(clocks[i], start) <= Elapsed(clocks[j], start) <= interval
    ensures ChecksIn(lastCheck, interval, clocks) <= 1
    decreases |clocks|
  {
    if clocks != [] {
      if Due(lastCheck, interval, clocks[0]) {
        forall k | 0 <= k < |clocks[1..]|
          ensures Elapsed(clocks[1..][k], clocks[0]) <= interval
        {
          ElapsedWithinWindow(start, clocks[0], clocks[k + 1]);
        }
        NoCheckBeforeIntervalPasses(clocks[0], interval, clocks[1..]);
      } else {
        AtMostOneCheckPerInterval(lastCheck, interval, start, clocks[1..]);
      }
    }
  }

  /** Two consecutive `loop` calls no more than the interval apart do not
      both check. */
  lemma ConsecutiveLoopsCheckOnce(lastCheck: Millis, interval: Millis, t1: Millis, t2: Millis)
    requires Elapsed(t2, t1) <= interval
    ensures ChecksIn(lastCheck, interval, [t1, t2]) <= 1
  {
    AtMostOneCheckPerInterval(lastCheck, interval, t1, [t1, t2]);
  }

  /** The `long` measurement value: 32 bits on the target. */
  type Long = x: int | -0x8000_0000 <= x < 0x8000_0000

  /** Decimal digits of a natural number, most significant first. */
  function Digits(n: nat): string
    decreases n
  {
    if n < 10 then [Digit(n)] else Digits(n / 10) + [Digit(n % 10)]
  }

  function Digit(d: nat): char
    requires d < 10
  {
    "0123456789"[d]
  }

  /** `%d` of an integer: an optional minus sign and its digits. */
  function DecimalText(v: int): string
  {
    if v < 0 then "-" + Digits(-v) else Digits(v)
  }

  function DigitValue(c: char): nat
  {
    if '0' <= c <= '9' then (c - '0') as nat else 0
  }

  predicate AllDigits(s: string)
  {
    forall k :: 0 <= k < |s| ==> '0' <= s[k] <= '9'
  }

  /** The number a string of decimal digits denotes. */
  function DigitsValue(s: string): nat
    decreases |s|
  {
    if s == [] then 0 else DigitsValue(s[..|s| - 1]) * 10 + DigitValue(s[|s| - 1])
  }

  /** Reads back what `DecimalText` writes. */
  function ParseDecimal(s: string): Option<int>
  {
    if |s| > 0 && s[0] == '-' then
      if |s| > 1 && AllDigits(s[1..]) then Some(-(DigitsValue(s[1..]) as int)) else None
    else if |s| > 0 && AllDigits(s) then Some(DigitsValue(s) as int)
    else None
  }

  lemma {:induction false} DigitsRoundTrip(n: nat)
    ensures |Digits(n)| > 0 && AllDigits(Digits(n))
    ensures DigitsValue(Digits(n)) == n
    ensures n == 0 || Digits(n)[0] != '0'
    decreases n
  {
    if n >= 10 {
      DigitsRoundTrip(n / 10);
      var s := Digits(n);
      assert s[..|s| - 1] == Digits(n / 10);
      assert s[0] == Digits(n / 10)[0];
    } else {
      assert Digits(n) == ["0123456789"[n]];
    }
  }

  lemma DecimalRoundTrip(v: int)
    ensures ParseDecimal(DecimalText(v)) == Some(v)
  {
    var t := DecimalText(v);
    if v < 0 {
      var d := Digits(-v);
      DigitsRoundTrip(-v);
      assert t == "-" + d;
      assert t[0] == '-' && |t| > 1;
      assert t[1..] == d;
    } else {
      var d := Digits(v);
      DigitsRoundTrip(v);
      assert t == d;
      assert '0' <= t[0] <= '9';
    }
  }

  /** The parts of the payload template around the two substituted
      values. */
  const PayloadHead: string := "{\"time\":\""
  const PayloadMiddle: string := "\",\"value\":"
  const PayloadTail: string := ",\"sensor\":\"main\",\"measurement\":\"consumption\",\"field\":\"electricity\"}"

  /** The message `sendMeasurement` publishes: the fixed template with the
      timestamp text and the value substituted. */
  function Payload(time: string, value: Long): string
  {
    PayloadHead + time + PayloadMiddle + DecimalText(value) + PayloadTail
  }

  /** The first index of a double quote in `s`, if any. */
  function QuoteIndex(s: string): (r: Option<nat>)
    ensures r.Some? ==> r.value < |s| && s[r.value] == '"' && '"' !in s[..r.value]
    ensures r.None? ==> '"' !in s
    decreases |s|
  {
    if s == [] then None
    else if s[0] == '"' then Some(0)
    else
      match QuoteIndex(s[1..])
      case None => None
      case Some(i) =>
        assert s[..i + 1] == [s[0]] + s[1..][..i];
        Some(i + 1)
  }

  /** Reads the timestamp text and the value back out of a payload. */
  function ParsePayload(m: string): Option<(string, int)>
  {
    if |m| < |PayloadHead| + |PayloadTail| || m[..|PayloadHead|] != PayloadHead
       || m[|m| - |PayloadTail|..] != PayloadTail then None
    else ParseBody(m[|PayloadHead|..|m| - |PayloadTail|])
  }

  /** Reads `time","value":v` back: the timestamp runs up to the first
      double quote. */
  function ParseBody(body: string): Option<(string, int)>
  {
    match QuoteIndex(body)
    case None => None
    case Some(q) =>
      var rest := body[q..];
      if |rest| < |PayloadMiddle| || rest[..|PayloadMiddle|] != PayloadMiddle then None
      else
        match ParseDecimal(rest[|PayloadMiddle|..])
        case None => None
        case Some(v) => Some((body[..q], v))
  }

  lemma BodyRoundTrip(time: string, value: Long)
    requires '"' !in time
    ensures ParseBody(time + PayloadMiddle + DecimalText(value)) == Some((time, value))
  {
    var d := DecimalText(value);
    var body := time + PayloadMiddle + d;
    assert body == time + (PayloadMiddle + d);
    QuoteIndexAfter(time, PayloadMiddle + d);
    assert body[|time|..] == PayloadMiddle + d;
    assert body[..|time|] == time;
    assert (PayloadMiddle + d)[..|PayloadMiddle|] == PayloadMiddle;
    assert (PayloadMiddle + d)[|PayloadMiddle|..] == d;
    DecimalRoundTrip(value);
  }

  /** The payload carries its timestamp and value intact: both can be read
      back, provided the timestamp text has no double quote (an RFC 3339
      timestamp has none). */
  lemma PayloadRoundTrip(time: string, value: Long)
    requires '"' !in time
    ensures ParsePayload(Payload(time, value)) == Some((time, value))
  {
    var body := time + PayloadMiddle + DecimalText(value);
    var m := Payload(time, value);
    assert m == PayloadHead + body + PayloadTail;
    assert m[..|PayloadHead|] == PayloadHead;
    assert m[|m| - |PayloadTail|..] == PayloadTail;
    assert m[|PayloadHead|..|m| - |PayloadTail|] == body;
    BodyRoundTrip(time, value);
  }

  /** The first quote of `a + b` is that of `b` when `a` has none and `b`
      starts with one. */
  lemma {:induction false} QuoteIndexAfter(a: string, b: string)
    requires '"' !in a && |b| > 0 && b[0] == '"'
    ensures QuoteIndex(a + b) == Some(|a|)
    decreases |a|
  {
    if a != [] {
      assert (a + b)[1..] == a[1..] + b;
      QuoteIndexAfter(a[1..], b);
    }
  }

  /** The template's constant fields: sensor "main", measurement
      "consumption", field "electricity", whatever the value. */
  lemma PayloadFixedFields(time: string, value: Long)
    ensures Payload(time, value)[..|PayloadHead| + |time|] == PayloadHead + time
    ensures Payload(time, value)[|Payload(time, value)| - |PayloadTail|..]
         == ",\"sensor\":\"main\",\"measurement\":\"consumption\",\"field\":\"electricity\"}"
  {
    var m := Payload(time, value);
    assert m == (PayloadHead + time) + (PayloadMiddle + DecimalText(value) + PayloadTail);
    assert m == (PayloadHead + time + PayloadMiddle + DecimalText(value)) + PayloadTail;
  }

  /** The calls `sendMeasurement` makes: the check's, then one publish if
      and only if the check succeeded. */
  function SendCalls(link: Link, topic: string, time: string, value: Long): seq<TransportCall>
  {
    var c := Check(link);
    c.calls + (if c.connected then [MqttPublish(topic, Payload(time, value))] else [])
  }

  /** Best effort: exactly one publish of this measurement when connected,
      none otherwise. */
  lemma SendPublishesOnceIffConnected(link: Link, topic: string, time: string, value: Long)
    ensures Publishes(SendCalls(link, topic, time, value)) == if Check(link).connected then 1 else 0
    ensures Check(link).connected ==>
      SendCalls(link, topic, time, value)[|SendCalls(link, topic, time, value)| - 1]
        == MqttPublish(topic, Payload(time, value))
  {
    var c := Check(link);
    CheckAttemptsAtMostOnce(link);
    var p: seq<TransportCall> := if c.connected then [MqttPublish(topic, Payload(time, value))] else [];
    PublishesAppend(c.calls, p);
    assert p == [] || p[..0] == [];
  }

  /** The connection manager object. Its WiFi and MQTT clients are the
      `Link` each call observes; `calls` records what it asks of them. */
  class ConnectionManager {
    const connectionCheckInterval: Millis
    var lastConnectionCheck: Millis
    var calls: seq<TransportCall>

    constructor (connectionCheckInterval: Millis := DefaultConnectionCheckInterval)
      ensures this.connectionCheckInterval == connectionCheckInterval
      ensures lastConnectionCheck == 0 && calls == []
    {
      this.connectionCheckInterval := connectionCheckInterval;
      lastConnectionCheck := 0;
      calls := [];
    }

    method CheckConnections(link: Link) returns (connected: bool)
      modifies this`calls
      ensures connected == Check(link).connected
      ensures calls == old(calls) + Check(link).calls
    {
      if !link.wifiConnected {
        calls := calls + [WifiDisconnect];
        calls := calls + [WifiBegin];
        connected := false;
      } else {
        if !link.mqttConnected {
          calls := calls + [MqttConnect];
          connected := link.connectAccepted;
        } else {
          connected := true;
        }
      }
    }

    /** The rate limiter, at clock reading `now`. */
    method Loop(now: Millis, link: Link)
      modifies this`calls, this`lastConnectionCheck
      ensures Due(old(lastConnectionCheck), connectionCheckInterval, now) ==>
        lastConnectionCheck == now && calls == old(calls) + Check(link).calls
      ensures !Due(old(lastConnectionCheck), connectionCheckInterval, now) ==>
        lastConnectionCheck == old(lastConnectionCheck) && calls == old(calls)
      ensures lastConnectionCheck == LastCheckAfter(old(lastConnectionCheck), connectionCheckInterval, now)
    {
      if (now - lastConnectionCheck) % ClockModulus > connectionCheckInterval {
        var connected := CheckConnections(link);
        lastConnectionCheck := now;
      }
    }

    /** The first check at start-up; the WiFi mode and the MQTT client's
        endpoint are configuration, not modelled. */
    method Setup(link: Link)
      modifies this`calls
      ensures calls == old(calls) + Check(link).calls
    {
      var connected := CheckConnections(link);
    }

    /** Publishes one measurement if the check succeeds; `time` is the
        current UTC timestamp text and `topic` the configured topic. */
    method SendMeasurement(link: Link, topic: string, time: string, value: Long)
      modifies this`calls
      ensures calls == old(calls) + SendCalls(link, topic, time, value)
      ensures Publishes(calls) == Publishes(old(calls)) + (if Check(link).connected then 1 else 0)
    {
      var connected := CheckConnections(link);
      if connected {
        calls := calls + [MqttPublish(topic, Payload(time, value))];
      }
      assert calls == old(calls) + SendCalls(link, topic, time, value);
      PublishesAppend(old(calls), SendCalls(link, topic, time, value));
      SendPublishesOnceIffConnected(link, topic, time, value);
    }
  }
}
