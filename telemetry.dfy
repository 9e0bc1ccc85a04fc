/**
 The state the dashboard's MQTT message handler maintains: the current
 temperature, the current humidity and a bounded history of merged points, and
 the pure step that one inbound message applies to it. Every message, whatever
 its topic, appends exactly one point; the metric the message did not update is
 carried forward from the last point.
 */
module Telemetry {
  import opened Numbers

  /** One point of the trend chart. */
  datatype Point = Point(timestamp: string, temperature: Number, humidity: Number)

  /**
   One inbound message: its topic, its payload already turned into a number and
   the local time string taken when it was handled.
   */
  datatype Message = Message(topic: string, value: Number, timestamp: string)

  /** The three state cells of the page that the handler writes. */
  datatype State = State(temperature: Number, humidity: Number, history: seq<Point>)

  const TemperatureTopic: string := "farm/temperature"
  const HumidityTopic: string := "farm/humidity"

  /** Initial values of the state cells, also the fallback when the history is empty. */
  const InitialTemperature: Number := Finite(27.0)
  const InitialHumidity: Number := Finite(80.0)
  const Initial: State := State(InitialTemperature, InitialHumidity, [])

  /** Points kept from the previous history (`slice(-47)`), and the resulting bound. */
  const Retained: nat := 47
  const Capacity: nat := 48

  function Min(a: int, b: int): int
  {
    if a <= b then a else b
  }

  /** The last `n` elements of `s` in their order, or all of `s` when it is shorter. */
  function Last<T>(s: seq<T>, n: nat): (r: seq<T>)
    requires n > 0
    ensures |r| == Min(|s|, n)
    ensures r == s[|s| - |r|..]
  {
    if |s| <= n then s else s[|s| - n..]
  }

  /** `[...prev.slice(-47), p]` */
  function Window(prev: seq<Point>, p: Point): (h: seq<Point>)
    ensures |h| == Min(|prev|, Retained) + 1 && |h| <= Capacity
    ensures h[|h| - 1] == p
    ensures h[..|h| - 1] == prev[|prev| - (|h| - 1)..]
  {
    Last(prev, Retained) + [p]
  }

  /**
   The point a message appends: the metric named by the topic takes the new
   value, the other one is copied from the last point of the history, or from
   the initial values when the history is empty.
   */
  function NewPoint(prev: seq<Point>, m: Message): (p: Point)
    ensures p.timestamp == m.timestamp
    ensures m.topic == TemperatureTopic ==> p.temperature == m.value
    ensures m.topic != TemperatureTopic && prev != [] ==> p.temperature == prev[|prev| - 1].temperature
    ensures m.topic != TemperatureTopic && prev == [] ==> p.temperature == Finite(27.0)
    ensures m.topic == HumidityTopic ==> p.humidity == m.value
    ensures m.topic != HumidityTopic && prev != [] ==> p.humidity == prev[|prev| - 1].humidity
    ensures m.topic != HumidityTopic && prev == [] ==> p.humidity == Finite(80.0)
  {
    var lastTemperature := if |prev| > 0 then prev[|prev| - 1].temperature else InitialTemperature;
    var lastHumidity := if |prev| > 0 then prev[|prev| - 1].humidity else InitialHumidity;
    Point(m.timestamp,
          if m.topic == TemperatureTopic then m.value else lastTemperature,
          if m.topic == HumidityTopic then m.value else lastHumidity)
  }

  /** The effect of one message on the three state cells. */
  function Ingest(s: State, m: Message): (r: State)
    ensures |r.history| == Min(|s.history|, Retained) + 1 && |r.history| <= Capacity
    ensures r.history[|r.history| - 1] == NewPoint(s.history, m)
    ensures Consistent(s) ==> Consistent(r)
  {
    State(if m.topic == TemperatureTopic then m.value else s.temperature,
          if m.topic == HumidityTopic then m.value else s.humidity,
          Window(s.history, NewPoint(s.history, m)))
  }

  /**
   The invariant the handler keeps: the history is within capacity, and the
   current values are those of the last point, or the initial values while no
   message has arrived.
   */
  predicate Consistent(s: State)
  {
    && |s.history| <= Capacity
    && (if |s.history| == 0
        then s.temperature == InitialTemperature && s.humidity == InitialHumidity
        else (s.history[|s.history| - 1].temperature == s.temperature
              && s.history[|s.history| - 1].humidity == s.humidity))
  }

  lemma InitialConsistent()
    ensures Consistent(Initial)
  {
  }

  /** Every message keeps the invariant, whatever its topic or value. */
  lemma IngestConsistent(s: State, m: Message)
    requires Consistent(s)
    ensures Consistent(Ingest(s, m))
    ensures Ingest(s, m).history != []
  {
  }

  /** The history after a message: the last min(|old|, 47) old points in order, then the new one. */
  lemma IngestHistory(s: State, m: Message)
    ensures var h := Ingest(s, m).history;
      && |h| == Min(|s.history|, Retained) + 1
      && |h| <= Capacity
      && h[..|h| - 1] == s.history[|s.history| - Min(|s.history|, Retained)..]
      && h[|h| - 1] == NewPoint(s.history, m)
  {
  }

  /**
   A temperature message sets only the temperature, a humidity message only the
   humidity, and any other topic neither.
   */
  lemma IngestCurrent(s: State, m: Message)
    ensures m.topic == TemperatureTopic ==>
      Ingest(s, m).temperature == m.value && Ingest(s, m).humidity == s.humidity
    ensures m.topic == HumidityTopic ==>
      Ingest(s, m).humidity == m.value && Ingest(s, m).temperature == s.temperature
    ensures m.topic != TemperatureTopic && m.topic != HumidityTopic ==>
      Ingest(s, m).temperature == s.temperature && Ingest(s, m).humidity == s.humidity
  {
  }

  /**
   Under the invariant, the point a message appends is the new current state:
   the handler's fallback to the initial values (captured once when the
   subscription was set up) agrees with the current values, because the
   history is only empty before the first message.
   */
  lemma AppendedPointIsCurrent(s: State, m: Message)
    requires Consistent(s)
    ensures var r := Ingest(s, m);
      r.history[|r.history| - 1] == Point(m.timestamp, r.temperature, r.humidity)
  {
  }

  /** What the chart is given: one zero-valued placeholder point for an empty history. */
  function ChartData(history: seq<Point>): (data: seq<Point>)
    ensures |data| >= 1
    ensures history != [] ==> data == history
    ensures history == [] ==> data == [Point("", Finite(0.0), Finite(0.0))]
  {
    if |history| > 0 then history else [Point("", Finite(0.0), Finite(0.0))]
  }
}
