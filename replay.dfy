/**
 The handler applied to a whole stream of messages, in arrival order, starting
 from the page's initial state. The result is characterised independently of
 the step function: the current values are the latest value seen on each
 topic, and the history is the last 48 points of the full merged trace.
 */
module Replay {
  import opened Numbers
  import opened Telemetry

  /** State after handling `msgs` one after the other from the initial state. */
  function Run(msgs: seq<Message>): State
    decreases |msgs|
  {
    if msgs == [] then Initial else Ingest(Run(msgs[..|msgs| - 1]), msgs[|msgs| - 1])
  }

  /** The value of the last message on `topic`, or `default` if there is none. */
  function Latest(msgs: seq<Message>, topic: string, default: Number): Number
    decreases |msgs|
  {
    if msgs == [] then default
    else if msgs[|msgs| - 1].topic == topic then msgs[|msgs| - 1].value
    else Latest(msgs[..|msgs| - 1], topic, default)
  }

  /** One merged point per message; history retention is not applied. */
  function Trace(msgs: seq<Message>): (t: seq<Point>)
    ensures |t| == |msgs|
    decreases |msgs|
  {
    if msgs == [] then []
    else Trace(msgs[..|msgs| - 1]) +
         [Point(msgs[|msgs| - 1].timestamp,
                Latest(msgs, TemperatureTopic, InitialTemperature),
                Latest(msgs, HumidityTopic, InitialHumidity))]
  }

  /** Point `i` of the trace holds the latest values as of message `i`. */
  lemma {:induction false} TraceAt(msgs: seq<Message>, i: nat)
    requires i < |msgs|
    ensures Trace(msgs)[i] ==
      Point(msgs[i].timestamp,
            Latest(msgs[..i + 1], TemperatureTopic, InitialTemperature),
            Latest(msgs[..i + 1], HumidityTopic, InitialHumidity))
  {
    var init := msgs[..|msgs| - 1];
    if i < |msgs| - 1 {
      TraceAt(init, i);
      assert init[..i + 1] == msgs[..i + 1];
    } else {
      assert msgs[..i + 1] == msgs;
    }
  }

  lemma LastOfLast<T>(t: seq<T>, m: nat, n: nat)
    requires 0 < m <= n
    ensures Last(Last(t, n), m) == Last(t, m)
  {
  }

  /** Keeping 47 points and appending one is keeping the last 48 of the longer sequence. */
  lemma WindowIsLast(t: seq<Point>, p: Point)
    ensures Window(Last(t, Capacity), p) == Last(t + [p], Capacity)
  {
    LastOfLast(t, Retained, Capacity);
    var r := Last(t + [p], Capacity);
    assert r[..|r| - 1] == Last(t, Retained);
  }

  /** The current values after any stream are the latest value on each topic. */
  lemma {:induction false} RunCurrent(msgs: seq<Message>)
    ensures Run(msgs).temperature == Latest(msgs, TemperatureTopic, InitialTemperature)
    ensures Run(msgs).humidity == Latest(msgs, HumidityTopic, InitialHumidity)
    decreases |msgs|
  {
    if msgs != [] {
      RunCurrent(msgs[..|msgs| - 1]);
    }
  }

  lemma LatestSnoc(init: seq<Message>, m: Message, topic: string, default: Number)
    ensures Latest(init + [m], topic, default) ==
      if m.topic == topic then m.value else Latest(init, topic, default)
  {
    assert (init + [m])[..|init|] == init;
  }

  lemma TraceSnoc(init: seq<Message>, m: Message)
    ensures Trace(init + [m]) == Trace(init) +
      [Point(m.timestamp,
             Latest(init + [m], TemperatureTopic, InitialTemperature),
             Latest(init + [m], HumidityTopic, InitialHumidity))]
  {
    assert (init + [m])[..|init|] == init;
  }

  /** The point a message appends to the retained trace of the messages before it. */
  lemma AppendedPoint(init: seq<Message>, m: Message)
    ensures NewPoint(Last(Trace(init), Capacity), m) ==
      Point(m.timestamp,
            Latest(init + [m], TemperatureTopic, InitialTemperature),
            Latest(init + [m], HumidityTopic, InitialHumidity))
  {
    LatestSnoc(init, m, TemperatureTopic, InitialTemperature);
    LatestSnoc(init, m, HumidityTopic, InitialHumidity);
    var h := Last(Trace(init), Capacity);
    if init != [] {
      var t := Trace(init);
      assert h[|h| - 1] == t[|t| - 1];
      assert init == init[..|init| - 1] + [init[|init| - 1]];
      TraceSnoc(init[..|init| - 1], init[|init| - 1]);
    }
  }

  /** The state after any stream of messages, stated without the step function. */
  lemma {:induction false} RunCharacterised(msgs: seq<Message>)
    ensures Run(msgs) ==
      State(Latest(msgs, TemperatureTopic, InitialTemperature),
            Latest(msgs, HumidityTopic, InitialHumidity),
            Last(Trace(msgs), Capacity))
    decreases |msgs|
  {
    RunCurrent(msgs);
    if msgs != [] {
      var init := msgs[..|msgs| - 1];
      var m := msgs[|msgs| - 1];
      assert msgs == init + [m];
      RunCharacterised(init);
      AppendedPoint(init, m);
      TraceSnoc(init, m);
      WindowIsLast(Trace(init), NewPoint(Run(init).history, m));
    }
  }

  /** The invariant holds after any stream of messages. */
  lemma {:induction false} RunConsistent(msgs: seq<Message>)
    ensures Consistent(Run(msgs))
    decreases |msgs|
  {
    if msgs != [] {
      RunConsistent(msgs[..|msgs| - 1]);
      IngestConsistent(Run(msgs[..|msgs| - 1]), msgs[|msgs| - 1]);
    }
  }

  /**
   Bounded history and oldest-first eviction: after `n` messages the history
   holds the points of the last min(n, 48) messages, oldest first.
   */
  lemma RunWindow(msgs: seq<Message>)
    ensures |Run(msgs).history| == Min(|msgs|, Capacity)
    ensures Run(msgs).history == Trace(msgs)[|msgs| - Min(|msgs|, Capacity)..]
  {
    RunCharacterised(msgs);
  }

  lemma RunSnoc(init: seq<Message>, m: Message)
    ensures Run(init + [m]) == Ingest(Run(init), m)
  {
    assert (init + [m])[..|init|] == init;
  }

  /** One step of the example below, from a known state. */
  lemma ExampleStep(s: State, m: Message, t: Number, h: Number)
    requires Consistent(s) && |s.history| < Retained
    requires t == (if m.topic == TemperatureTopic then m.value else s.temperature)
    requires h == (if m.topic == HumidityTopic then m.value else s.humidity)
    ensures Ingest(s, m) == State(t, h, s.history + [Point(m.timestamp, t, h)])
  {
    AppendedPointIsCurrent(s, m);
  }

  lemma ExampleFirst(a: string)
    ensures Run([Message(TemperatureTopic, Finite(25.0), a)]) ==
      State(Finite(25.0), Finite(80.0), [Point(a, Finite(25.0), Finite(80.0))])
  {
    var m0 := Message(TemperatureTopic, Finite(25.0), a);
    assert TemperatureTopic != HumidityTopic;
    RunSnoc([], m0);
    assert [] + [m0] == [m0];
    ExampleStep(Initial, m0, Finite(25.0), Finite(80.0));
  }

  lemma ExampleSecond(a: string, b: string)
    ensures Run([Message(TemperatureTopic, Finite(25.0), a), Message(HumidityTopic, Finite(80.0), b)]) ==
      State(Finite(25.0), Finite(80.0), [Point(a, Finite(25.0), Finite(80.0)), Point(b, Finite(25.0), Finite(80.0))])
  {
    var m0 := Message(TemperatureTopic, Finite(25.0), a);
    var m1 := Message(HumidityTopic, Finite(80.0), b);
    assert TemperatureTopic != HumidityTopic;
    ExampleFirst(a);
    RunSnoc([m0], m1);
    assert [m0] + [m1] == [m0, m1];
    ExampleStep(Run([m0]), m1, Finite(25.0), Finite(80.0));
  }

  /** A temperature of 25, a humidity of 80, then a temperature of 30. */
  lemma CarryForwardExample(a: string, b: string, c: string)
    ensures Run([Message(TemperatureTopic, Finite(25.0), a),
                 Message(HumidityTopic, Finite(80.0), b),
                 Message(TemperatureTopic, Finite(30.0), c)]).history ==
      [Point(a, Finite(25.0), Finite(80.0)),
       Point(b, Finite(25.0), Finite(80.0)),
       Point(c, Finite(30.0), Finite(80.0))]
  {
    var m0 := Message(TemperatureTopic, Finite(25.0), a);
    var m1 := Message(HumidityTopic, Finite(80.0), b);
    var m2 := Message(TemperatureTopic, Finite(30.0), c);
    assert TemperatureTopic != HumidityTopic;
    ExampleSecond(a, b);
    var msgs := [m0, m1, m2];
    assert msgs[..2] == [m0, m1];
    assert Run(msgs) == Ingest(Run([m0, m1]), m2);
    var s2 := Run([m0, m1]);
    ExampleStep(s2, m2, Finite(30.0), Finite(80.0));
    var p2 := Point(c, Finite(30.0), Finite(80.0));
    assert Run([m0, m1, m2]).history == s2.history + [p2];
  }
}
