/** The subscribe-driven entry point of backend/app/main.py: the device id
    taken from the topic in on_message, and handle_payload_from_mqtt, which
    drops every message it cannot store and never reports a failure. */
module Mqtt {
  import opened PyValues
  import opened Schema
  import opened Helpers

  /** `s.split("/")`, built from the right: the parts between the slashes. */
  function Split(s: string): (parts: seq<string>)
    ensures |parts| >= 1
    ensures forall i :: 0 <= i < |parts| ==> '/' !in parts[i]
    decreases |s|
  {
    if |s| == 0 then [""]
    else
      var rest := Split(s[..|s| - 1]);
      var c := s[|s| - 1];
      if c == '/' then rest + [""]
      else rest[..|rest| - 1] + [rest[|rest| - 1] + [c]]
  }

  /** `"/".join(parts)`. */
  function Join(parts: seq<string>): string
    requires |parts| >= 1
    decreases |parts|
  {
    if |parts| == 1 then parts[0]
    else Join(parts[..|parts| - 1]) + "/" + parts[|parts| - 1]
  }

  /** One more character at the end: a "/" opens a new part, any other
      character extends the last one. */
  lemma SplitSnoc(init: string, c: char)
    ensures c == '/' ==> Split(init + [c]) == Split(init) + [""]
    ensures c != '/' ==>
              var rest := Split(init);
              Split(init + [c]) == rest[..|rest| - 1] + [rest[|rest| - 1] + [c]]
  {
    assert (init + [c])[..|init + [c]| - 1] == init;
  }

  lemma JoinSnoc(parts: seq<string>, p: string)
    requires |parts| >= 1
    ensures Join(parts + [p]) == Join(parts) + "/" + p
  {
    assert (parts + [p])[..|parts|] == parts;
  }

  /** Extending the last part extends the joined string. */
  lemma JoinExtendLast(front: seq<string>, last: string, c: char)
    ensures Join(front + [last + [c]]) == Join(front + [last]) + [c]
  {
    if |front| == 0 {
      assert front + [last + [c]] == [last + [c]];
      assert front + [last] == [last];
    } else {
      JoinSnoc(front, last);
      JoinSnoc(front, last + [c]);
      var j := Join(front);
      assert j + "/" + (last + [c]) == (j + "/" + last) + [c];
    }
  }

  /** One induction step of JoinSplit: appending a character to a string
      whose parts join back to it. */
  lemma JoinSplitStep(init: string, c: char)
    requires Join(Split(init)) == init
    ensures Join(Split(init + [c])) == init + [c]
  {
    SplitSnoc(init, c);
    var rest := Split(init);
    if c == '/' {
      JoinSnoc(rest, "");
    } else {
      var front, last := rest[..|rest| - 1], rest[|rest| - 1];
      assert rest == front + [last];
      JoinExtendLast(front, last, c);
    }
  }

  /** Splitting loses nothing: joining the parts gives the topic back. */
  lemma {:induction false} JoinSplit(s: string)
    ensures Join(Split(s)) == s
    decreases |s|
  {
    if |s| > 0 {
      var init := s[..|s| - 1];
      assert s == init + [s[|s| - 1]];
      JoinSplit(init);
      JoinSplitStep(init, s[|s| - 1]);
    }
  }

  /** The last part is the text after the last "/" (or the whole string). */
  lemma {:induction false} LastPartIsSuffix(s: string)
    ensures var l := Split(s)[|Split(s)| - 1];
            |l| <= |s| && s[|s| - |l|..] == l && (|l| < |s| ==> s[|s| - |l| - 1] == '/')
    decreases |s|
  {
    if |s| > 0 {
      var init := s[..|s| - 1];
      var c := s[|s| - 1];
      LastPartIsSuffix(init);
      var rest := Split(init);
      var l := rest[|rest| - 1];
      assert s == init + [c];
      SplitSnoc(init, c);
      if c != '/' {
        var l2 := l + [c];
        assert s[|s| - |l2|..] == init[|init| - |l|..] + [c];
        if |l2| < |s| {
          assert s[|s| - |l2| - 1] == init[|init| - |l| - 1];
        }
      }
    }
  }

  /** `parts[-1] if parts else "unknown"` in on_message. */
  function TopicDeviceId(topic: string): (d: string)
    ensures d == Split(topic)[|Split(topic)| - 1]
    ensures '/' !in d
    ensures |d| <= |topic| && topic[|topic| - |d|..] == d
    ensures |d| < |topic| ==> topic[|topic| - |d| - 1] == '/'
  {
    LastPartIsSuffix(topic);
    var parts := Split(topic);
    if |parts| > 0 then parts[|parts| - 1] else "unknown"
  }

  /** Why handle_payload_from_mqtt returned early. */
  datatype SkipReason = MissingKey | KeyNotUuid | MissingTimestamp

  /** What became of one message. `Raised` is an exception that on_message
      catches and logs; nothing ever reaches the MQTT client loop. */
  datatype MqttOutcome = Stored(id: int) | Skipped(reason: SkipReason) | RolledBack | Raised(error: PyError)

  /** `str(data.get("idempotency_key") or "")`: a missing, null or otherwise
      falsy key reads as "", a string key as itself. */
  function KeyText(lib: Library, fields: map<string, Json>): (k: string)
    ensures "idempotency_key" !in fields ==> k == ""
    ensures "idempotency_key" in fields && !Truthy(fields["idempotency_key"]) ==> k == ""
    ensures "idempotency_key" in fields && fields["idempotency_key"].JStr? ==> k == fields["idempotency_key"].s
  {
    var v := Get(fields, "idempotency_key");
    Str(lib, if Truthy(v) then v else JStr(""))
  }

  /** A message that gets past the early returns: a dict whose key text is
      non-empty and a UUID, and whose timestamp is truthy. */
  predicate PassesChecks(lib: Library, data: Json) {
    && data.JObject?
    && KeyText(lib, data.fields) != ""
    && lib.isUuid(KeyText(lib, data.fields))
    && Truthy(Get(data.fields, "timestamp"))
  }

  /** The checks of handle_payload_from_mqtt and the construction of the row,
      in source order. */
  function PrepareMqtt(lib: Library, deviceId: string, data: Json): (r: Result<Draft, MqttOutcome>)
    ensures r.Ok? ==> PassesChecks(lib, data) && r.value.idempotencyKey == KeyText(lib, data.fields)
    ensures r.Ok? ==> r.value.deviceId == deviceId && r.value.idempotencyKey != ""
    ensures r.Ok? ==> lib.isUuid(r.value.idempotencyKey) && Truthy(Get(data.fields, "timestamp"))
    ensures PassesChecks(lib, data) ==>
              var built := BuildDraft(lib, deviceId, KeyText(lib, data.fields), Get(data.fields, "timestamp"), data.fields);
              && (r.Ok? <==> built.Ok?)
              && (built.Ok? ==> r == Ok(built.value))
              && (built.Err? ==> r == Err(Raised(built.error)))
    ensures r.Err? ==> !r.error.Stored? && !r.error.RolledBack?
  {
    if !data.JObject? then Err(Raised(AttributeError))
    else
      var idem := KeyText(lib, data.fields);
      if idem == "" then Err(Skipped(MissingKey))
      else if !lib.isUuid(idem) then Err(Skipped(KeyNotUuid))
      else
        var ts := Get(data.fields, "timestamp");
        if !Truthy(ts) then Err(Skipped(MissingTimestamp))
        else
          match BuildDraft(lib, deviceId, idem, ts, data.fields)
          case Ok(d) => Ok(d)
          case Err(e) => Err(Raised(e))
  }

  /** What handle_payload_from_mqtt does to the table and how it ends. */
  function PayloadEffect(lib: Library, t: Table, deviceId: string, data: Json, now: Instant): (res: (MqttOutcome, Table))
    ensures TableValid(t) ==> TableValid(res.1)
    ensures res.0.Stored? ==>
              && PrepareMqtt(lib, deviceId, data).Ok?
              && res.1.rows == t.rows + [RowOf(PrepareMqtt(lib, deviceId, data).value, res.0.id, now)]
              && res.0.id == t.nextId
    ensures !res.0.Stored? ==> res.1 == t
    ensures PrepareMqtt(lib, deviceId, data).Ok? && Insert(t, PrepareMqtt(lib, deviceId, data).value, now).0.Committed? ==>
              res.0 == Stored(t.nextId)
    ensures res.0 == RolledBack <==>
              PrepareMqtt(lib, deviceId, data).Ok? && Insert(t, PrepareMqtt(lib, deviceId, data).value, now).0 == IntegrityError
  {
    match PrepareMqtt(lib, deviceId, data)
    case Err(o) => (o, t)
    case Ok(d) =>
      var (c, t') := Insert(t, d, now);
      match c
      case Committed(row) => (Stored(row.id), t')
      case IntegrityError => (RolledBack, t')
      case DriverError(e) => (Raised(e), t')
  }

  /** A message that passes the checks, whose row converts, fits the INTEGER
      columns and has an allowed presenca, and whose key is fresh, is stored
      under the next id as the row built from its fields. */
  lemma WellFormedMessageIsStored(lib: Library, t: Table, deviceId: string, data: Json, now: Instant)
    requires PassesChecks(lib, data)
    requires var built := BuildDraft(lib, deviceId, KeyText(lib, data.fields), Get(data.fields, "timestamp"), data.fields);
             && built.Ok? && Bindable(built.value) && PresencaAllowed(built.value.presenca)
             && !HasKey(t.rows, KeyText(lib, data.fields))
    ensures var built := BuildDraft(lib, deviceId, KeyText(lib, data.fields), Get(data.fields, "timestamp"), data.fields);
            PayloadEffect(lib, t, deviceId, data, now) ==
              (Stored(t.nextId), Table(t.rows + [RowOf(built.value, t.nextId, now)], t.nextId + 1))
  {
  }

  /** What on_message does with one delivered message. */
  function MessageEffect(lib: Library, t: Table, topic: string, payload: seq<bv8>, now: Instant): (res: (MqttOutcome, Table))
    ensures TableValid(t) ==> TableValid(res.1)
    ensures !res.0.Stored? ==> res.1 == t
    ensures lib.loads(payload).None? ==> res == (Raised(ValueError), t)
    ensures lib.loads(payload).Some? ==> res == PayloadEffect(lib, t, TopicDeviceId(topic), lib.loads(payload).value, now)
  {
    var deviceId := TopicDeviceId(topic);
    match lib.loads(payload)
    case None => (Raised(ValueError), t)
    case Some(data) => PayloadEffect(lib, t, deviceId, data, now)
  }

  /** The four ways a message is dropped without a row and without an
      exception: no key, a key that is not a UUID, a falsy timestamp, a key
      already in the table. */
  lemma MqttDropsQuietly(lib: Library, t: Table, deviceId: string, fields: map<string, Json>, now: Instant)
    ensures !Truthy(Get(fields, "idempotency_key")) ==>
              PayloadEffect(lib, t, deviceId, JObject(fields), now) == (Skipped(MissingKey), t)
    ensures KeyText(lib, fields) != "" && !lib.isUuid(KeyText(lib, fields)) ==>
              PayloadEffect(lib, t, deviceId, JObject(fields), now) == (Skipped(KeyNotUuid), t)
    ensures KeyText(lib, fields) != "" && lib.isUuid(KeyText(lib, fields)) && !Truthy(Get(fields, "timestamp")) ==>
              PayloadEffect(lib, t, deviceId, JObject(fields), now) == (Skipped(MissingTimestamp), t)
    ensures var p := PrepareMqtt(lib, deviceId, JObject(fields));
            p.Ok? && Bindable(p.value) && HasKey(t.rows, p.value.idempotencyKey) ==>
              PayloadEffect(lib, t, deviceId, JObject(fields), now) == (RolledBack, t)
  {
  }

  /** handle_payload_from_mqtt: early returns on bad input, then one insert
      whose IntegrityError is rolled back and ignored. Any other exception
      propagates to on_message, which is why it is returned as `Raised`. */
  method HandlePayloadFromMqtt(store: Store, lib: Library, deviceId: string, data: Json, now: Instant)
    returns (outcome: MqttOutcome)
    requires store.Valid()
    modifies store
    ensures store.Valid()
    ensures (outcome, store.State()) == PayloadEffect(lib, old(store.State()), deviceId, data, now)
  {
    if !data.JObject? {
      return Raised(AttributeError);
    }
    var keyValue := Get(data.fields, "idempotency_key");
    var idem := Str(lib, if Truthy(keyValue) then keyValue else JStr(""));
    if idem == "" {
      return Skipped(MissingKey);
    }
    if !lib.isUuid(idem) {
      return Skipped(KeyNotUuid);
    }
    var ts := Get(data.fields, "timestamp");
    if !Truthy(ts) {
      return Skipped(MissingTimestamp);
    }
    var leitura := BuildDraft(lib, deviceId, idem, ts, data.fields);
    if leitura.Err? {
      return Raised(leitura.error);
    }
    var committed := store.Commit(leitura.value, now);
    match committed
    case Committed(row) => outcome := Stored(row.id);
    case IntegrityError => outcome := RolledBack;
    case DriverError(e) => outcome := Raised(e);
  }

  /** on_message: device id from the topic, decode, hand over; every
      exception is caught here. */
  method OnMessage(store: Store, lib: Library, topic: string, payload: seq<bv8>, now: Instant)
    returns (outcome: MqttOutcome)
    requires store.Valid()
    modifies store
    ensures store.Valid()
    ensures (outcome, store.State()) == MessageEffect(lib, old(store.State()), topic, payload, now)
  {
    var deviceId := TopicDeviceId(topic);
    var data := lib.loads(payload);
    if data.None? {
      return Raised(ValueError);
    }
    outcome := HandlePayloadFromMqtt(store, lib, deviceId, data.value, now);
  }
}
