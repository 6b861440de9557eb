/** The MQTT session controller of tools/iot.py (`MQTTController`), as a
    sequential state machine. Each method and each transport callback is one
    atomic transition over an immutable `Controller` record; the lock, the
    threads and the broker itself are not modelled. */
module Session {
  import Json

  /** Topic the device publishes temperature/humidity on; the controller
      subscribes to it on every connect. */
  const TelemetryTopic: string := "esp32/temphumi"

  /** paho-mqtt's `MQTT_ERR_SUCCESS`. */
  const MqttErrSuccess: int := 0

  /** One call of `client.publish(topic, payload, qos=1)`. The payload is kept
      as the JSON value that `json.dumps` serialises. */
  datatype Message = Message(topic: string, payload: Json.Value)

  /** The observable state of an `MQTTController`:
      - `hasClient`: `self.client is not None`;
      - `connected`: `self.connected`;
      - `connectCalls`: how many times `client.connect` was issued;
      - `subscribeLog`: every `client.subscribe` request, in order;
      - `outbox`: every `client.publish` call, in order;
      - `reconnectRequests`: how many reconnect tasks `_attempt_reconnect` started. */
  datatype Controller = Controller(
    hasClient: bool,
    connected: bool,
    connectCalls: nat,
    subscribeLog: seq<string>,
    outbox: seq<Message>,
    reconnectRequests: nat)

  /** The controller as `__init__` leaves it. */
  const Fresh: Controller := Controller(false, false, 0, [], [], 0)

  /** What happens to the connect `initialize` issues. `client.connect` either
      raises, or returns and the controller polls `self.connected` for up to
      five seconds; whether the acknowledgement's callback ran within the poll
      is not decided by the model but taken as input. */
  datatype ConnectAttempt = ConnectRaised | ConnectIssued(ackedDuringPoll: bool)

  /** What `client.publish` does: return a result code, or raise. */
  datatype Transport = Returned(rc: int) | Raised

  /** Everything of the controller except `connected` and `subscribeLog`. */
  predicate SameTraffic(c: Controller, d: Controller)
  {
    c.hasClient == d.hasClient && c.connectCalls == d.connectCalls
    && c.outbox == d.outbox && c.reconnectRequests == d.reconnectRequests
  }

  /** `_on_connect(client, userdata, flags, rc)`: marks the controller connected
      whatever `rc` says and subscribes to the telemetry topic again. */
  function OnConnect(c: Controller, rc: int): (d: Controller)
    ensures d.connected
    ensures d.subscribeLog == c.subscribeLog + [TelemetryTopic]
    ensures SameTraffic(c, d)
  {
    c.(connected := true, subscribeLog := c.subscribeLog + [TelemetryTopic])
  }

  /** `_on_disconnect(client, userdata, rc)`: marks the controller disconnected
      and starts one more reconnect task; nothing else changes. */
  function OnDisconnect(c: Controller, rc: int): (d: Controller)
    ensures !d.connected
    ensures d.reconnectRequests == c.reconnectRequests + 1
    ensures d.hasClient == c.hasClient && d.connectCalls == c.connectCalls
    ensures d.subscribeLog == c.subscribeLog && d.outbox == c.outbox
  {
    c.(connected := false, reconnectRequests := c.reconnectRequests + 1)
  }

  /** `initialize()`: returns whether the controller is connected, together
      with the state afterwards. Only when no client exists yet does it create
      one and issue a connect. This is the intended behaviour, in which an
      acknowledgement arriving during the five-second poll is seen by it; the
      code as written holds the lock across the poll, so it never is (see
      `InitializeAsWritten`). */
  function Initialize(c: Controller, attempt: ConnectAttempt): (r: (bool, Controller))
    ensures c.hasClient ==> r.0 == c.connected && r.1 == c
    ensures !c.hasClient ==> r.1.hasClient && r.1.connectCalls == c.connectCalls + 1
    ensures !c.hasClient ==> (r.0 <==> attempt == ConnectIssued(true))
    // A connect that raised or was not acknowledged in time changes nothing
    // but the new client and its one connect.
    ensures !c.hasClient && !r.0 ==> r.1 == c.(hasClient := true, connectCalls := c.connectCalls + 1)
    // An acknowledged connect has also run the connect callback once.
    ensures !c.hasClient && r.0 ==>
              r.1 == OnConnect(c.(hasClient := true, connectCalls := c.connectCalls + 1), MqttErrSuccess)
    ensures r.0 ==> r.1.connected
    ensures r.1.outbox == c.outbox && r.1.reconnectRequests == c.reconnectRequests
  {
    if c.hasClient then (c.connected, c)
    else
      var created := c.(hasClient := true, connectCalls := c.connectCalls + 1);
      match attempt
      case ConnectRaised => (false, created)
      case ConnectIssued(acked) =>
        if acked then (true, OnConnect(created, MqttErrSuccess)) else (false, created)
  }

  /** `initialize()` as written: the poll runs with `self.lock` held, and
      `_on_connect` must take the same lock before it can set `connected`, so
      on a fresh controller the poll always sees `False` and the call returns
      `False` after five seconds. The acknowledgement, if any, is applied
      afterwards as a separate `OnConnect` step. */
  function InitializeAsWritten(c: Controller, attempt: ConnectAttempt): (r: (bool, Controller))
    ensures c.hasClient ==> r == Initialize(c, attempt)
    ensures !c.hasClient ==> !r.0 && r.1 == c.(hasClient := true, connectCalls := c.connectCalls + 1)
  {
    if c.hasClient then (c.connected, c)
    else (false, c.(hasClient := true, connectCalls := c.connectCalls + 1))
  }

  /** The code as written behaves as the corrected `initialize` does when the
      broker's acknowledgement misses the poll, so every result stated for all
      connect outcomes covers it too. */
  lemma AsWrittenIsUnacked(c: Controller, attempt: ConnectAttempt)
    ensures InitializeAsWritten(c, attempt) == Initialize(c, ConnectIssued(false))
  {
  }

  /** The discrepancy: on a fresh controller with a broker that acknowledges
      at once, the code as written reports failure where the intended
      behaviour reports success; the connection only shows up on the next
      call. */
  lemma FirstInitializeAlwaysFails(attempt: ConnectAttempt)
    ensures !InitializeAsWritten(Fresh, attempt).0
    ensures Initialize(Fresh, ConnectIssued(true)).0
    ensures var c := OnConnect(InitializeAsWritten(Fresh, ConnectIssued(true)).1, MqttErrSuccess);
            c == Initialize(Fresh, ConnectIssued(true)).1 && InitializeAsWritten(c, attempt).0
  {
  }

  /** `publish(topic, payload)`: refuses without touching the transport while
      disconnected; otherwise hands the message to `client.publish` exactly
      once and reports whether it returned `MQTT_ERR_SUCCESS`. */
  function Publish(c: Controller, topic: string, payload: Json.Value, t: Transport): (r: (bool, Controller))
    ensures !c.connected ==> !r.0 && r.1 == c
    ensures c.connected ==> r.1 == c.(outbox := c.outbox + [Message(topic, payload)])
    ensures r.0 <==> c.connected && t == Returned(MqttErrSuccess)
  {
    if !c.connected then (false, c)
    else
      var sent := c.(outbox := c.outbox + [Message(topic, payload)]);
      match t
      case Returned(code) => (code == MqttErrSuccess, sent)
      case Raised => (false, sent)
  }

  /** A run of `initialize` calls, one per connect outcome offered. */
  function InitializeRun(c: Controller, attempts: seq<ConnectAttempt>): (d: Controller)
    decreases |attempts|
  {
    if |attempts| == 0 then c
    else InitializeRun(Initialize(c, attempts[0]).1, attempts[1..])
  }

  /** However many times `initialize` is called, at most one connect is ever
      issued: the client, once created, is never dropped. */
  lemma {:induction false} SingleConnectAttempt(c: Controller, attempts: seq<ConnectAttempt>)
    requires c.hasClient ==> c.connectCalls <= 1
    requires !c.hasClient ==> c.connectCalls == 0
    ensures InitializeRun(c, attempts).connectCalls <= 1
    ensures |attempts| > 0 ==> InitializeRun(c, attempts).hasClient
    decreases |attempts|
  {
    if |attempts| > 0 {
      var d := Initialize(c, attempts[0]).1;
      SingleConnectAttempt(d, attempts[1..]);
    }
  }

  /** A connect that raised leaves a client behind, so every later
      `initialize` answers `False` without retrying, until a connect callback
      arrives from elsewhere. */
  lemma FailedConnectIsSticky(again: ConnectAttempt)
    ensures var (ok, c) := Initialize(Fresh, ConnectRaised);
            !ok && Initialize(c, again) == (false, c)
  {
  }

  /** A reconnect after a disconnect subscribes to the telemetry topic again,
      so the subscription does not depend on the broker remembering it. */
  lemma ResubscribeOnReconnect(c: Controller, rcDown: int, rcUp: int)
    ensures var d := OnConnect(OnDisconnect(c, rcDown), rcUp);
            d.connected && d.subscribeLog == c.subscribeLog + [TelemetryTopic]
            && d.outbox == c.outbox && d.reconnectRequests == c.reconnectRequests + 1
  {
  }

  /** Two disconnects in a row start two reconnect tasks: the source keeps no
      flag that would make the second one a no-op. */
  lemma DisconnectTwiceStartsTwoTasks(c: Controller, rc1: int, rc2: int)
    ensures OnDisconnect(OnDisconnect(c, rc1), rc2).reconnectRequests == c.reconnectRequests + 2
  {
  }

  // ----- Runs of the controller -----

  /** One thing that can happen to the controller: a call of `initialize` or
      `publish`, or a transport callback. */
  datatype Event =
    | Init(attempt: ConnectAttempt)
    | Connected(rc: int)
    | Disconnected(rc: int)
    | Send(topic: string, payload: Json.Value, t: Transport)

  /** The controller after one event. The callbacks are registered on the
      client, so before a client exists a callback event is no step. */
  function Apply(c: Controller, e: Event): Controller
  {
    match e
    case Init(a) => Initialize(c, a).1
    case Connected(rc) => if c.hasClient then OnConnect(c, rc) else c
    case Disconnected(rc) => if c.hasClient then OnDisconnect(c, rc) else c
    case Send(topic, payload, t) => Publish(c, topic, payload, t).1
  }

  /** The controller after a run of events. */
  function Play(c: Controller, es: seq<Event>): Controller
    decreases |es|
  {
    if |es| == 0 then c else Play(Apply(c, es[0]), es[1..])
  }

  /** The messages of the `Send` events of a run that found the controller
      connected, in order. */
  function Delivered(c: Controller, es: seq<Event>): seq<Message>
    decreases |es|
  {
    if |es| == 0 then []
    else
      (if es[0].Send? && c.connected then [Message(es[0].topic, es[0].payload)] else [])
      + Delivered(Apply(c, es[0]), es[1..])
  }

  /** A client exists iff exactly one connect was issued, and only a client
      can be connected. */
  predicate Consistent(c: Controller)
  {
    c.connectCalls == (if c.hasClient then 1 else 0) && (c.connected ==> c.hasClient)
  }

  /** Every run keeps the controller consistent, and the transport has been
      handed exactly the messages sent while connected. */
  lemma {:induction false} RunInvariant(c: Controller, es: seq<Event>)
    requires Consistent(c)
    ensures Consistent(Play(c, es))
    ensures Play(c, es).outbox == c.outbox + Delivered(c, es)
    decreases |es|
  {
    if |es| > 0 {
      var c1 := Apply(c, es[0]);
      var head := if es[0].Send? && c.connected then [Message(es[0].topic, es[0].payload)] else [];
      assert c1.outbox == c.outbox + head;
      RunInvariant(c1, es[1..]);
      assert c.outbox + head + Delivered(c1, es[1..]) == c.outbox + (head + Delivered(c1, es[1..]));
    }
  }

  /** From a fresh controller: at most one connect, never connected without a
      client, and nothing handed to the transport while disconnected. */
  lemma SessionRun(es: seq<Event>)
    ensures Play(Fresh, es).connectCalls <= 1
    ensures Play(Fresh, es).connected ==> Play(Fresh, es).hasClient
    ensures Play(Fresh, es).outbox == Delivered(Fresh, es)
  {
    RunInvariant(Fresh, es);
  }
}
