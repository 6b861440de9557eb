/** The three IoT tools tools/iot.py registers: `set_rgb`, `set_fan` and
    `get_temphum`. Each command tool first makes sure the controller is
    initialised, then checks its arguments' ranges, then publishes one JSON
    command; each returns a reply record instead of raising. */
module IotTools {
  import opened Wrappers
  import opened Json
  import Numerals
  import DeviceColor
  import Session
  import Telemetry

  const RgbTopic: string := "esp32/rgbled"
  const FanTopic: string := "esp32/fan"

  /** What a successful command tool reports back. */
  datatype Note = ColorSet(r: int, g: int, b: int) | FanSpeedSet(speed: int)
  {
    function Words(): string
    {
      match this
      case ColorSet(r, g, b) =>
        "颜色设置为(" + Numerals.Decimal(r) + "," + Numerals.Decimal(g) + "," + Numerals.Decimal(b) + ")"
      case FanSpeedSet(s) => "风扇转速设置为" + Numerals.Decimal(s) + "%"
    }
  }

  /** The distinct failure kinds of the command tools. */
  datatype ToolError = Unavailable | RgbOutOfRange | SpeedOutOfRange | PublishFailed
  {
    function Words(): string
    {
      match this
      case Unavailable => "MQTT连接不可用"
      case RgbOutOfRange => "RGB值必须在0-255之间"
      case SpeedOutOfRange => "转速必须在0-100之间"
      case PublishFailed => "MQTT发布失败"
    }
  }

  /** `{"success": True, "message": ...}` or `{"success": False, "error": ...}`. */
  datatype Reply = Done(note: Note) | Failed(error: ToolError)

  /** `get_temphum`'s reply: both readings, or the "no data yet" error. */
  datatype TemphumReply = Readings(temperature: real, humidity: real) | NoData
  {
    function Words(): string
      requires NoData?
    {
      "No data received yet."
    }
  }

  /** The JSON object `json.dumps({"r": r, "g": g, "b": b})` serialises. */
  function RgbPayload(r: int, g: int, b: int): Value
  {
    Object(map["r" := Int(r), "g" := Int(g), "b" := Int(b)])
  }

  /** The JSON object `json.dumps({"speed": speed})` serialises. */
  function FanPayload(speed: int): Value
  {
    Object(map["speed" := Int(speed)])
  }

  /** Initialise, then validate, then publish, as `set_rgb` and `set_fan` both
      do; `valid` is the tool's range check. */
  function Command(c: Session.Controller, attempt: Session.ConnectAttempt, valid: bool,
                   rangeError: ToolError, topic: string, payload: Value, note: Note,
                   t: Session.Transport): (r: (Reply, Session.Controller))
    ensures var (ok, c1) := Session.Initialize(c, attempt);
            && (!ok ==> r == (Failed(Unavailable), c1))
            && (ok && !valid ==> r == (Failed(rangeError), c1))
            && (ok && valid ==>
                  && r.1 == c1.(outbox := c.outbox + [Session.Message(topic, payload)])
                  && r.0 == (if t == Session.Returned(Session.MqttErrSuccess) then Done(note) else Failed(PublishFailed)))
  {
    var (ok, c1) := Session.Initialize(c, attempt);
    if !ok then (Failed(Unavailable), c1)
    else if !valid then (Failed(rangeError), c1)
    else
      var (sent, c2) := Session.Publish(c1, topic, payload, t);
      (if sent then Done(note) else Failed(PublishFailed), c2)
  }

  /** `set_rgb(r, g, b)`. */
  function SetRgb(c: Session.Controller, r: int, g: int, b: int,
                  attempt: Session.ConnectAttempt, t: Session.Transport): (res: (Reply, Session.Controller))
    // A connectivity failure wins over a range failure, whatever the channels
    // are, and leaves the controller as `initialize` left it.
    ensures !Session.Initialize(c, attempt).0 ==>
              res.0 == Failed(Unavailable) && res.1 == Session.Initialize(c, attempt).1
    // Out-of-range channels on a live connection: range error, nothing published.
    ensures Session.Initialize(c, attempt).0 && !(DeviceColor.IsByte(r) && DeviceColor.IsByte(g) && DeviceColor.IsByte(b))
            ==> res.0 == Failed(RgbOutOfRange) && res.1 == Session.Initialize(c, attempt).1
    // A valid command the transport did not accept is a publish failure.
    ensures Session.Initialize(c, attempt).0 && DeviceColor.IsByte(r) && DeviceColor.IsByte(g) && DeviceColor.IsByte(b)
            && t != Session.Returned(Session.MqttErrSuccess)
            ==> res.0 == Failed(PublishFailed)
    // Valid channels on a live connection: exactly one command on the LED topic.
    ensures Session.Initialize(c, attempt).0 && DeviceColor.IsByte(r) && DeviceColor.IsByte(g) && DeviceColor.IsByte(b)
            ==> res.1.outbox == c.outbox + [Session.Message(RgbTopic, RgbPayload(r, g, b))]
    ensures res.0.Done? <==> (Session.Initialize(c, attempt).0 && DeviceColor.IsByte(r) && DeviceColor.IsByte(g) && DeviceColor.IsByte(b)
                               && t == Session.Returned(Session.MqttErrSuccess))
    ensures res.0.Done? ==> res.0.note == ColorSet(r, g, b)
    ensures |res.1.outbox| <= |c.outbox| + 1
  {
    Command(c, attempt, DeviceColor.IsByte(r) && DeviceColor.IsByte(g) && DeviceColor.IsByte(b), RgbOutOfRange,
            RgbTopic, RgbPayload(r, g, b), ColorSet(r, g, b), t)
  }

  /** `set_fan(speed)`. */
  function SetFan(c: Session.Controller, speed: int,
                  attempt: Session.ConnectAttempt, t: Session.Transport): (res: (Reply, Session.Controller))
    ensures !Session.Initialize(c, attempt).0 ==>
              res.0 == Failed(Unavailable) && res.1 == Session.Initialize(c, attempt).1
    ensures Session.Initialize(c, attempt).0 && !(0 <= speed <= 100)
            ==> res.0 == Failed(SpeedOutOfRange) && res.1 == Session.Initialize(c, attempt).1
    ensures Session.Initialize(c, attempt).0 && 0 <= speed <= 100
            && t != Session.Returned(Session.MqttErrSuccess)
            ==> res.0 == Failed(PublishFailed)
    ensures Session.Initialize(c, attempt).0 && 0 <= speed <= 100
            ==> res.1.outbox == c.outbox + [Session.Message(FanTopic, FanPayload(speed))]
    ensures res.0.Done? <==> (Session.Initialize(c, attempt).0 && 0 <= speed <= 100
                               && t == Session.Returned(Session.MqttErrSuccess))
    ensures res.0.Done? ==> res.0.note == FanSpeedSet(speed)
    ensures |res.1.outbox| <= |c.outbox| + 1
  {
    Command(c, attempt, 0 <= speed <= 100, SpeedOutOfRange,
            FanTopic, FanPayload(speed), FanSpeedSet(speed), t)
  }

  /** `get_temphum()`: reads the cache and never touches the connection. */
  function GetTemphum(cache: Telemetry.Cache): (r: TemphumReply)
    ensures r.NoData? <==> cache.temperature.None? || cache.humidity.None?
    ensures r.Readings? ==> Some(r.temperature) == cache.temperature && Some(r.humidity) == cache.humidity
  {
    match (cache.temperature, cache.humidity)
    case (Some(t), Some(h)) => Readings(t, h)
    case _ => NoData
  }

  /** A command tool changes nothing of the controller but what `initialize`
      changes and the one message it may publish; `set_rgb` and `set_fan` are
      both instances of `Command`. */
  lemma CommandsTouchOnlyOutbox(c: Session.Controller, attempt: Session.ConnectAttempt, valid: bool,
                                rangeError: ToolError, topic: string, payload: Value, note: Note,
                                t: Session.Transport)
    ensures var c1 := Session.Initialize(c, attempt).1;
            var d := Command(c, attempt, valid, rangeError, topic, payload, note, t).1;
            && d.connected == c1.connected && d.subscribeLog == c1.subscribeLog
            && d.hasClient == c1.hasClient && d.connectCalls == c1.connectCalls
            && d.reconnectRequests == c.reconnectRequests
            && (d.outbox == c.outbox || d.outbox == c.outbox + [Session.Message(topic, payload)])
  {
  }

  /** The reply texts of distinct successful commands are distinct: the text
      names the arguments. */
  lemma ColorWordsInjective(r1: int, g1: int, b1: int, r2: int, g2: int, b2: int)
    requires ColorSet(r1, g1, b1).Words() == ColorSet(r2, g2, b2).Words()
    ensures r1 == r2 && g1 == g2 && b1 == b2
  {
    var p := "颜色设置为(";
    ColorText(r1, g1, b1);
    ColorText(r2, g2, b2);
    var tail1 := Numerals.Decimal(g1) + [','] + (Numerals.Decimal(b1) + ")");
    var tail2 := Numerals.Decimal(g2) + [','] + (Numerals.Decimal(b2) + ")");
    Numerals.StripPrefix(p, Numerals.Decimal(r1) + [','] + tail1, Numerals.Decimal(r2) + [','] + tail2);
    Numerals.DecimalNoSeparator(r1);
    Numerals.DecimalNoSeparator(r2);
    Numerals.SplitAt(Numerals.Decimal(r1), Numerals.Decimal(r2), ',', tail1, tail2);
    Numerals.DecimalNoSeparator(g1);
    Numerals.DecimalNoSeparator(g2);
    Numerals.SplitAt(Numerals.Decimal(g1), Numerals.Decimal(g2), ',',
                     Numerals.Decimal(b1) + ")", Numerals.Decimal(b2) + ")");
    Numerals.StripSuffix(Numerals.Decimal(b1), Numerals.Decimal(b2), ")");
    Numerals.DecimalInjective(r1, r2);
    Numerals.DecimalInjective(g1, g2);
    Numerals.DecimalInjective(b1, b2);
  }

  /** The colour reply text, grouped at its separators. */
  lemma ColorText(r: int, g: int, b: int)
    ensures ColorSet(r, g, b).Words()
            == "颜色设置为(" + (Numerals.Decimal(r) + [','] + (Numerals.Decimal(g) + [','] + (Numerals.Decimal(b) + ")")))
  {
    Regroup("颜色设置为(", Numerals.Decimal(r), Numerals.Decimal(g), Numerals.Decimal(b), ")");
  }

  /** Concatenation regrouped around the two separators. */
  lemma Regroup(p: string, x: string, y: string, z: string, q: string)
    ensures p + x + "," + y + "," + z + q == p + (x + [','] + (y + [','] + (z + q)))
  {
  }

  /** Distinct fan speeds are reported with distinct texts. */
  lemma FanWordsInjective(s1: int, s2: int)
    requires FanSpeedSet(s1).Words() == FanSpeedSet(s2).Words()
    ensures s1 == s2
  {
    var p := "风扇转速设置为";
    assert FanSpeedSet(s1).Words() == p + (Numerals.Decimal(s1) + "%");
    assert FanSpeedSet(s2).Words() == p + (Numerals.Decimal(s2) + "%");
    Numerals.StripPrefix(p, Numerals.Decimal(s1) + "%", Numerals.Decimal(s2) + "%");
    Numerals.StripSuffix(Numerals.Decimal(s1), Numerals.Decimal(s2), "%");
    Numerals.DecimalInjective(s1, s2);
  }

  /** The four failure texts are pairwise distinct. */
  lemma ErrorWordsDistinct(e1: ToolError, e2: ToolError)
    requires e1 != e2
    ensures e1.Words() != e2.Words()
  {
  }

  /** Before any telemetry has arrived the tool reports "no data", never a
      zero reading; after a complete document it reports exactly its values. */
  lemma TemphumAfterTelemetry(fields: map<string, Value>, t: real, h: real)
    requires "temperature" in fields && ToFloat(fields["temperature"]) == Some(t)
    requires "humidity" in fields && ToFloat(fields["humidity"]) == Some(h)
    ensures GetTemphum(Telemetry.Empty) == NoData
    ensures GetTemphum(Telemetry.OnMessage(Telemetry.Empty, Session.TelemetryTopic, Parsed(Object(fields))))
            == Readings(t, h)
  {
    Telemetry.ReadingIsStored(Telemetry.Empty, fields, t, h);
  }

  /** The documented example reply: 25.5 degrees and 60.2 percent. */
  lemma TemphumExample()
    ensures var doc := Object(map["temperature" := Float(25.5), "humidity" := Float(60.2)]);
            GetTemphum(Telemetry.OnMessage(Telemetry.Empty, Session.TelemetryTopic, Parsed(doc)))
            == Readings(25.5, 60.2)
  {
  }
}
