/** Both entry points of backend/app/main.py write to one table. This module
    runs any sequence of MQTT messages and HTTP posts, one handler call at a
    time, and states what the unique idempotency_key gives across them. */
module Ingestion {
  import opened PyValues
  import opened Schema
  import Mqtt
  import Http

  /** One handler call, with the instant at which its insert happens. */
  datatype Delivery =
    | Message(topic: string, payload: seq<bv8>, at: Instant)
    | Post(request: Http.Request, at: Instant)

  function Deliver(lib: Library, t: Table, e: Delivery): (t': Table)
    ensures TableValid(t) ==> TableValid(t')
    ensures t.rows <= t'.rows && |t'.rows| <= |t.rows| + 1
  {
    match e
    case Message(topic, payload, at) => Mqtt.MessageEffect(lib, t, topic, payload, at).1
    case Post(req, at) => Http.PostEffect(lib, t, req, at).1
  }

  function Run(lib: Library, t: Table, es: seq<Delivery>): Table
    decreases |es|
  {
    if |es| == 0 then t else Run(lib, Deliver(lib, t, es[0]), es[1..])
  }

  /** Every constraint of the table holds after any sequence of calls. */
  lemma {:induction false} RunKeepsConstraints(lib: Library, t: Table, es: seq<Delivery>)
    requires TableValid(t)
    ensures TableValid(Run(lib, t, es))
    decreases |es|
  {
    if |es| > 0 {
      RunKeepsConstraints(lib, Deliver(lib, t, es[0]), es[1..]);
    }
  }

  /** Rows are never changed or removed: the table only grows at its end. */
  lemma {:induction false} RunOnlyAppends(lib: Library, t: Table, es: seq<Delivery>)
    ensures t.rows <= Run(lib, t, es).rows
    decreases |es|
  {
    if |es| > 0 {
      RunOnlyAppends(lib, Deliver(lib, t, es[0]), es[1..]);
    }
  }

  /** First write wins: once a row holds a key, every later lookup of that
      key, after any mix of messages and posts, finds that very row. */
  lemma FirstWriteWins(lib: Library, t: Table, es: seq<Delivery>, i: int)
    requires TableValid(t)
    requires 0 <= i < |t.rows|
    ensures Lookup(Run(lib, t, es).rows, t.rows[i].idempotencyKey) == Some(t.rows[i])
  {
    RunKeepsConstraints(lib, t, es);
    RunOnlyAppends(lib, t, es);
    var rows := Run(lib, t, es).rows;
    assert rows[i] == t.rows[i];
    LookupFindsTheRow(rows, i);
  }

  /** A key stored from MQTT, posted again over HTTP: 200 with the id the
      MQTT insert received, and no change to the table. */
  lemma MqttThenHttp(lib: Library, t: Table, deviceId: string, data: Json, now: Instant,
                     req: Http.Request, now2: Instant)
    requires TableValid(t)
    requires Mqtt.PayloadEffect(lib, t, deviceId, data, now).0.Stored?
    requires req.idempotencyKey == Some(Mqtt.PrepareMqtt(lib, deviceId, data).value.idempotencyKey)
    requires Http.Prepare(lib, req).Ok? && Bindable(Http.Prepare(lib, req).value)
    ensures var (stored, t1) := Mqtt.PayloadEffect(lib, t, deviceId, data, now);
            Http.PostEffect(lib, t1, req, now2) == (Http.Existing(stored.id, AsStored(now)), t1)
  {
    var (stored, t1) := Mqtt.PayloadEffect(lib, t, deviceId, data, now);
    var n := |t.rows|;
    assert t1.rows[n].idempotencyKey == req.idempotencyKey.value;
    Http.StoredKeyAnswersExisting(lib, t1, req, now2, n);
  }

  /** A key stored over HTTP, then delivered by MQTT: the commit fails, it
      is rolled back, and the table is the one the post left. */
  lemma HttpThenMqtt(lib: Library, t: Table, req: Http.Request, now: Instant,
                     deviceId: string, data: Json, now2: Instant)
    requires TableValid(t)
    requires Http.PostEffect(lib, t, req, now).0.Created?
    requires Mqtt.PrepareMqtt(lib, deviceId, data).Ok? && Bindable(Mqtt.PrepareMqtt(lib, deviceId, data).value)
    requires Mqtt.PrepareMqtt(lib, deviceId, data).value.idempotencyKey == req.idempotencyKey.value
    ensures var t1 := Http.PostEffect(lib, t, req, now).1;
            Mqtt.PayloadEffect(lib, t1, deviceId, data, now2) == (Mqtt.RolledBack, t1)
  {
  }

  /** A message the broker delivers twice (QoS 1) is stored once. */
  lemma MqttRedelivery(lib: Library, t: Table, topic: string, payload: seq<bv8>, now: Instant, now2: Instant)
    requires TableValid(t)
    requires Mqtt.MessageEffect(lib, t, topic, payload, now).0.Stored?
    ensures var t1 := Mqtt.MessageEffect(lib, t, topic, payload, now).1;
            Mqtt.MessageEffect(lib, t1, topic, payload, now2) == (Mqtt.RolledBack, t1)
  {
    var t1 := Mqtt.MessageEffect(lib, t, topic, payload, now).1;
    var data := lib.loads(payload).value;
    var d := Mqtt.PrepareMqtt(lib, Mqtt.TopicDeviceId(topic), data).value;
    assert t1.rows[|t.rows|].idempotencyKey == d.idempotencyKey;
    assert HasKey(t1.rows, d.idempotencyKey);
  }

  /** The request of the POST / re-POST scenario: device "robo-1", the given
      key, the given body. */
  function ScenarioRequest(key: string, body: Json): Http.Request {
    Http.Request(Some("robo-1"), Some(key), Http.Parsed(body))
  }

  /** On a fresh database, POST then the identical re-POST: 201, then 200
      with `idempotent: true`, the same id and the same stored_at. */
  method RepostScenario(lib: Library, key: string, body: Json, now: Instant, later: Instant)
    returns (first: Http.PostResult, second: Http.PostResult)
    requires Http.Prepare(lib, ScenarioRequest(key, body)).Ok?
    requires Bindable(Http.Prepare(lib, ScenarioRequest(key, body)).value)
    requires PresencaAllowed(Http.Prepare(lib, ScenarioRequest(key, body)).value.presenca)
    ensures first.Created? && first.Status() == 201 && first.storedAt == AsStored(now)
    ensures second.Existing? && second.Status() == 200 && second.Idempotent()
    ensures second.id == first.id && second.storedAt == first.storedAt
  {
    var store := new Store();
    var req := ScenarioRequest(key, body);
    first := Http.PostLeituras(store, lib, req, now);
    second := Http.PostLeituras(store, lib, req, later);
    Http.RepostIsIdempotent(lib, EMPTY, req, req, now, later);
  }
}
