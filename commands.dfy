/**
 Device commands: each row of the device control panel has an ON and an OFF
 button, and pressing one publishes the device's code followed by `_ON` or
 `_OFF` on the single command topic.
 */
module Commands {

  datatype Action = On | Off

  /** A row of the device table: the name shown and the code sent. */
  datatype Device = Device(name: string, code: string)

  /** One publish handed to the MQTT client. */
  datatype Publish = Publish(topic: string, payload: string)

  const DeviceTopic: string := "farm/device"

  const Devices: seq<Device> := [
    Device("Exhaust Fan", "FAN"),
    Device("Heater", "HEATER"),
    Device("Humidifier", "HUMIDIFIER"),
    Device("Air Cooler", "COOLER")
  ]

  function Suffix(a: Action): string
  {
    match a
    case On => "_ON"
    case Off => "_OFF"
  }

  /** The command token `${code}_ON` or `${code}_OFF`. */
  function Token(code: string, a: Action): (token: string)
    ensures |token| > |code| && token[..|code|] == code
    ensures token[|code|..] == (if a == On then "_ON" else "_OFF")
  {
    code + Suffix(a)
  }

  /** Different buttons, different tokens: a token determines the code and the action. */
  lemma TokenInjective(c1: string, a1: Action, c2: string, a2: Action)
    requires Token(c1, a1) == Token(c2, a2)
    ensures c1 == c2 && a1 == a2
  {
    var t := Token(c1, a1);
    assert t[|t| - 1] == (if a1 == On then 'N' else 'F');
    assert t[|t| - 1] == (if a2 == On then 'N' else 'F');
    assert |c1| == |c2|;
    assert c1 == t[..|c1|] == c2;
  }

  /** The four rows of the table: FAN, HEATER, HUMIDIFIER and COOLER, all distinct. */
  lemma DeviceCodes()
    ensures |Devices| == 4
    ensures Devices[0].code == "FAN" && Devices[1].code == "HEATER"
    ensures Devices[2].code == "HUMIDIFIER" && Devices[3].code == "COOLER"
    ensures forall i, j | 0 <= i < j < |Devices| :: Devices[i].code != Devices[j].code
  {
  }

  /** No two buttons of the panel publish the same token. */
  lemma PanelTokensDistinct(i: nat, a: Action, j: nat, b: Action)
    requires i < |Devices| && j < |Devices|
    requires (i, a) != (j, b)
    ensures Token(Devices[i].code, a) != Token(Devices[j].code, b)
  {
    DeviceCodes();
    if Token(Devices[i].code, a) == Token(Devices[j].code, b) {
      TokenInjective(Devices[i].code, a, Devices[j].code, b);
    }
  }

  lemma FanOnToken()
    ensures Token("FAN", On) == "FAN_ON" && Token("FAN", Off) == "FAN_OFF"
  {
  }
}
