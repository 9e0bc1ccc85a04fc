/**
 The dashboard page as an object: the state cells its MQTT message handler
 updates, whether an MQTT client has been created, and the publishes handed to
 that client. The network itself is outside the model: a handled message is a
 call of OnMessage and a publish is an entry appended to `outbox`.
 */
module Page {
  import opened Numbers
  import opened Telemetry
  import opened Commands
  import Status

  class Dashboard {
    var temperature: Number
    var humidity: Number
    var history: seq<Point>
    /** Whether the `client` cell holds a client; it is null until the connection is set up. */
    var hasClient: bool
    /** Every publish handed to the client, oldest first. */
    var outbox: seq<Publish>

    /** The three telemetry cells as one value. */
    function Cells(): State
      reads this
    {
      State(temperature, humidity, history)
    }

    ghost predicate Valid()
      reads this
    {
      Consistent(Cells())
    }

    /** The page's initial state: 27, 80, no history, no client, nothing sent. */
    constructor ()
      ensures Valid()
      ensures Cells() == Initial
      ensures !hasClient && outbox == []
    {
      temperature := InitialTemperature;
      humidity := InitialHumidity;
      history := [];
      hasClient := false;
      outbox := [];
    }

    /** The client is stored once the connection is started. */
    method AttachClient()
      requires Valid()
      modifies this`hasClient
      ensures Valid()
      ensures hasClient
    {
      hasClient := true;
    }

    /** The `message` handler for one message on `topic` with parsed value `val`. */
    method OnMessage(topic: string, val: Number, timestamp: string)
      requires Valid()
      modifies this`temperature, this`humidity, this`history
      ensures Valid()
      ensures Cells() == Ingest(old(Cells()), Message(topic, val, timestamp))
      ensures temperature == (if topic == TemperatureTopic then val else old(temperature))
      ensures humidity == (if topic == HumidityTopic then val else old(humidity))
      ensures |history| == Min(|old(history)|, Retained) + 1
      ensures history[..|history| - 1] == Last(old(history), Retained)
      ensures history[|history| - 1] == Point(timestamp, temperature, humidity)
    {
      var prev := history;
      if topic == TemperatureTopic {
        temperature := val;
      }
      if topic == HumidityTopic {
        humidity := val;
      }
      var point := NewPoint(prev, Message(topic, val, timestamp));
      history := Last(prev, Retained) + [point];
      IngestConsistent(old(Cells()), Message(topic, val, timestamp));
      AppendedPointIsCurrent(old(Cells()), Message(topic, val, timestamp));
    }

    /** `client?.publish("farm/device", cmd)`: nothing is sent while there is no client. */
    method Send(cmd: string)
      requires Valid()
      modifies this`outbox
      ensures Valid()
      ensures outbox == old(outbox) + (if hasClient then [Publish(DeviceTopic, cmd)] else [])
    {
      if hasClient {
        outbox := outbox + [Publish(DeviceTopic, cmd)];
      }
    }

    /** The ON or OFF button of a device row. */
    method Press(device: Device, action: Action)
      requires Valid()
      modifies this`outbox
      ensures Valid()
      ensures hasClient ==> outbox == old(outbox) + [Publish(DeviceTopic, Token(device.code, action))]
      ensures !hasClient ==> outbox == old(outbox)
    {
      Send(Token(device.code, action));
    }
  }

  /**
   A payload that does not parse is not dropped: it is stored as NaN, appended
   to the history, and the temperature is then flagged.
   */
  lemma NotANumberIsAdmitted(s: State, timestamp: string)
    ensures var r := Ingest(s, Message(TemperatureTopic, NaN, timestamp));
      && r.temperature == NaN
      && |r.history| == Min(|s.history|, Retained) + 1
      && r.history[|r.history| - 1].temperature == NaN
      && Status.TemperatureChip(r.temperature) == "Check"
      && Status.TemperatureStatus(r.temperature) == "Alert"
  {
  }

  /** A session: carry-forward through the object, then an ON press with and without a client. */
  method Session()
  {
    DeviceCodes();
    FanOnToken();
    assert TemperatureTopic != HumidityTopic;
    assert "farm/other" != TemperatureTopic && "farm/other" != HumidityTopic;
    var page := new Dashboard();
    page.Press(Devices[0], On);
    assert page.outbox == [];
    page.OnMessage(TemperatureTopic, Finite(25.0), "10:00:00");
    page.OnMessage(HumidityTopic, Finite(85.0), "10:00:01");
    page.OnMessage("farm/other", Finite(1.0), "10:00:02");
    assert page.temperature == Finite(25.0) && page.humidity == Finite(85.0);
    assert page.history[|page.history| - 1] == Point("10:00:02", Finite(25.0), Finite(85.0));
    assert Status.TemperatureOk(page.temperature) && Status.HumidityOk(page.humidity);
    page.AttachClient();
    page.Press(Devices[0], On);
    assert page.outbox == [Publish("farm/device", "FAN_ON")];
  }
}
