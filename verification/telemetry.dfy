/** The process-wide telemetry cache `latest_data` of tools/iot.py and the
    inbound-message callback `_on_message` that is its only writer. */
module Telemetry {
  import opened Wrappers
  import opened Json
  import Session

  /** `latest_data`: each field is `None` until a reading has arrived. */
  datatype Cache = Cache(temperature: Option<real>, humidity: Option<real>)

  /** The cache as the module creates it. */
  const Empty: Cache := Cache(None, None)

  /** A JSON object on the telemetry topic carrying both keys: the only
      message `_on_message` converts. */
  predicate Document(topic: string, payload: Payload)
  {
    && topic == Session.TelemetryTopic && payload.Parsed? && payload.value.Object?
    && "temperature" in payload.value.fields && "humidity" in payload.value.fields
  }

  /** `_on_message` on a message of topic `topic`. Only a JSON object on the
      telemetry topic that has both keys is looked at; the temperature is
      converted and stored before the humidity is converted, so a humidity
      that `float()` rejects leaves a new temperature beside an old humidity.
      Every other exception (undecodable bytes, bad JSON, a non-object
      document) leaves the cache as it was. */
  function OnMessage(cache: Cache, topic: string, payload: Payload): (r: Cache)
    ensures topic != Session.TelemetryTopic ==> r == cache
    ensures !payload.Parsed? || !payload.value.Object? ==> r == cache
    ensures payload.Parsed? && payload.value.Object?
            && ("temperature" !in payload.value.fields || "humidity" !in payload.value.fields)
            ==> r == cache
    // A temperature `float()` rejects raises before anything is stored.
    ensures Document(topic, payload) && ToFloat(payload.value.fields["temperature"]).None? ==> r == cache
    // A humidity `float()` rejects raises after the temperature was stored.
    ensures Document(topic, payload) && ToFloat(payload.value.fields["temperature"]).Some?
            && ToFloat(payload.value.fields["humidity"]).None?
            ==> r == cache.(temperature := ToFloat(payload.value.fields["temperature"]))
    ensures Document(topic, payload) && ToFloat(payload.value.fields["temperature"]).Some?
            && ToFloat(payload.value.fields["humidity"]).Some?
            ==> r == Cache(ToFloat(payload.value.fields["temperature"]), ToFloat(payload.value.fields["humidity"]))
    ensures r.humidity == cache.humidity || r.humidity.Some?
    ensures r.temperature == cache.temperature || r.temperature.Some?
  {
    if topic != Session.TelemetryTopic then cache
    else
      match payload
      case Parsed(Object(fields)) =>
        if "temperature" in fields && "humidity" in fields then
          (match ToFloat(fields["temperature"])
           case None => cache
           case Some(t) =>
             (match ToFloat(fields["humidity"])
              case None => cache.(temperature := Some(t))
              case Some(h) => Cache(Some(t), Some(h))))
        else cache
      case _ => cache
  }

  /** A telemetry document whose two fields both convert sets both cache fields
      to exactly those values. */
  lemma ReadingIsStored(cache: Cache, fields: map<string, Value>, t: real, h: real)
    requires "temperature" in fields && ToFloat(fields["temperature"]) == Some(t)
    requires "humidity" in fields && ToFloat(fields["humidity"]) == Some(h)
    ensures OnMessage(cache, Session.TelemetryTopic, Parsed(Object(fields))) == Cache(Some(t), Some(h))
  {
  }

  /** The update is not atomic: a convertible temperature beside a humidity
      `float()` rejects changes the temperature only. */
  lemma TornUpdate(cache: Cache, fields: map<string, Value>, t: real)
    requires "temperature" in fields && ToFloat(fields["temperature"]) == Some(t)
    requires "humidity" in fields && ToFloat(fields["humidity"]) == None
    ensures OnMessage(cache, Session.TelemetryTopic, Parsed(Object(fields))) == Cache(Some(t), cache.humidity)
  {
  }

  /** The humidity `null` is one such value. */
  lemma TornUpdateOnNull(cache: Cache, t: real)
    ensures var fields := map["temperature" := Float(t), "humidity" := Null];
            OnMessage(cache, Session.TelemetryTopic, Parsed(Object(fields)))
            == Cache(Some(t), cache.humidity)
  {
  }

  /** Once a field holds a reading it never goes back to `None`. */
  lemma ReadingsPersist(cache: Cache, topic: string, payload: Payload)
    ensures cache.temperature.Some? ==> OnMessage(cache, topic, payload).temperature.Some?
    ensures cache.humidity.Some? ==> OnMessage(cache, topic, payload).humidity.Some?
  {
  }
}
