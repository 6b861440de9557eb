/** `sub_cb` of m5_device.py: a command on the LED topic is decoded into the
    three channels `set_color` receives. A missing key counts as 0, nothing
    is range-checked, and any exception drops the message. */
module DeviceMessages {
  import opened Wrappers
  import opened Json
  import Bits
  import DeviceColor
  import IotTools

  /** One call `set_color(r, g, b)`; it fills the LED with `Pack(r, g, b)`. */
  datatype ColorCall = ColorCall(r: int, g: int, b: int)
  {
    function Fill(): int { DeviceColor.Pack(r, g, b) }
  }

  /** `int(data.get(key, 0))`: 0 for a missing key, `None` if `int` raises. */
  function ChannelOf(fields: map<string, Value>, key: string): (r: Option<int>)
    ensures key !in fields ==> r == Some(0)
    ensures key in fields ==> r == ToInt(fields[key])
  {
    if key in fields then ToInt(fields[key]) else Some(0)
  }

  /** `sub_cb(topic, msg)`: the `set_color` call it makes, or `None` when an
      exception (bad JSON, a document that is not an object, a channel
      `int()` rejects) is caught and printed instead. */
  function SubCb(msg: Payload): (call: Option<ColorCall>)
    ensures !msg.Parsed? || !msg.value.Object? ==> call == None
    ensures msg.Parsed? && msg.value.Object? ==>
              var f := msg.value.fields;
              (call.Some? <==> && ("r" in f ==> ToInt(f["r"]).Some?)
                               && ("g" in f ==> ToInt(f["g"]).Some?)
                               && ("b" in f ==> ToInt(f["b"]).Some?))
    // A channel the command leaves out is 0; a present one is its `int()`.
    ensures call.Some? ==>
              && msg.Parsed? && msg.value.Object?
              && ("r" !in msg.value.fields ==> call.value.r == 0)
              && ("g" !in msg.value.fields ==> call.value.g == 0)
              && ("b" !in msg.value.fields ==> call.value.b == 0)
              && ("r" in msg.value.fields ==> Some(call.value.r) == ToInt(msg.value.fields["r"]))
              && ("g" in msg.value.fields ==> Some(call.value.g) == ToInt(msg.value.fields["g"]))
              && ("b" in msg.value.fields ==> Some(call.value.b) == ToInt(msg.value.fields["b"]))
  {
    match msg
    case Parsed(Object(fields)) =>
      (match (ChannelOf(fields, "r"), ChannelOf(fields, "g"), ChannelOf(fields, "b"))
       case (Some(r), Some(g), Some(b)) => Some(ColorCall(r, g, b))
       case _ => None)
    case _ => None
  }

  /** A command whose fields are all integers is obeyed: the channels it
      carries are used as given and the ones it leaves out are 0. */
  lemma MissingChannelsAreZero(fields: map<string, Value>)
    requires forall k :: k in fields ==> fields[k].Int?
    ensures var call := SubCb(Parsed(Object(fields)));
            && call.Some?
            && ("r" !in fields ==> call.value.r == 0)
            && ("g" !in fields ==> call.value.g == 0)
            && ("b" !in fields ==> call.value.b == 0)
            && ("r" in fields ==> call.value.r == fields["r"].i)
            && ("g" in fields ==> call.value.g == fields["g"].i)
            && ("b" in fields ==> call.value.b == fields["b"].i)
  {
  }

  /** A blue above 255 reaches `set_color` unmasked and spills into green: a
      command without green lights the colour of green `b / 256` and blue
      `b % 256`, so blue 256 lights green 1. */
  lemma OutOfRangeChannelBleeds(r: int, b: int)
    requires DeviceColor.IsByte(r) && 256 <= b < 65536
    ensures SubCb(Parsed(Object(map["r" := Int(r), "b" := Int(b)]))) == Some(ColorCall(r, 0, b))
    ensures ColorCall(r, 0, b).Fill() == ColorCall(r, b / 256, b % 256).Fill()
    ensures ColorCall(r, 0, b).Fill() != ColorCall(r, 0, b % 256).Fill()
  {
    DeviceColor.BlueSpillsIntoGreen(r, b);
    DeviceColor.Unpack(r, b / 256, b % 256);
    DeviceColor.Unpack(r, 0, b % 256);
  }

  /** The command `set_rgb` publishes is decoded by the device into the same
      channels, and the colour it fills gives those bytes back. */
  lemma CommandRoundTrip(r: int, g: int, b: int)
    requires DeviceColor.IsByte(r) && DeviceColor.IsByte(g) && DeviceColor.IsByte(b)
    ensures SubCb(Parsed(IotTools.RgbPayload(r, g, b))) == Some(ColorCall(r, g, b))
    ensures Bits.ByteAt(ColorCall(r, g, b).Fill(), 16) == r
    ensures Bits.ByteAt(ColorCall(r, g, b).Fill(), 8) == g
    ensures Bits.ByteAt(ColorCall(r, g, b).Fill(), 0) == b
  {
    DeviceColor.Unpack(r, g, b);
  }
}
