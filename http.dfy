/** The request-driven entry point of backend/app/main.py, post_leituras:
    header and body validation in a fixed order, one insert, and on an
    IntegrityError a lookup that turns a duplicate into an idempotent 200. */
module Http {
  import opened PyValues
  import opened Schema
  import opened Helpers

  /** The body as `request.get_json(force=True)` sees it. */
  datatype Body = Unparseable | Parsed(json: Json)

  /** The parts of a POST /leituras the handler reads; a header is None when absent. */
  datatype Request = Request(deviceId: Option<string>, idempotencyKey: Option<string>, body: Body)

  datatype Reason =
    | MissingHeader(name: string)
    | InvalidUuid
    | TimestampRequired
    | InvalidValue       // a ValueError raised while building the row
    | InternalError      // any other exception
    | ConflictNotFound   // IntegrityError, and no row holds the key

  /** The response: 201 with the new id, 200 with the stored id and
      `idempotent: true`, or an error status. */
  datatype PostResult =
    | Created(id: int, storedAt: Instant)
    | Existing(id: int, storedAt: Instant)
    | Failed(code: int, reason: Reason)
  {
    function Status(): int {
      match this
      case Created(_, _) => 201
      case Existing(_, _) => 200
      case Failed(code, _) => code
    }

    predicate Idempotent() {
      Existing?
    }
  }

  /** require_header: a header that is absent or empty is missing; any other
      value is accepted as it is. */
  function Present(h: Option<string>): (b: bool)
    ensures h == None ==> !b
    ensures h == Some("") ==> !b
    ensures h.Some? && |h.value| > 0 ==> b
  {
    h.Some? && h.value != ""
  }

  /** The two except clauses: ValueError gives 400, any other exception 500. */
  function ErrorResponse(e: PyError): (r: PostResult)
    ensures r.Failed? && (r.code == 400 <==> e == ValueError) && (r.code == 500 <==> e != ValueError)
  {
    if e == ValueError then Failed(400, InvalidValue) else Failed(500, InternalError)
  }

  /** Python's `needle in hay` on two strings. */
  predicate Contains(hay: string, needle: string)
    decreases |hay|
  {
    |needle| <= |hay| && (hay[..|needle|] == needle || Contains(hay[1..], needle))
  }

  /** The needle occurs in the haystack starting at offset i. */
  predicate OccursAt(hay: string, needle: string, i: int) {
    0 <= i && i + |needle| <= |hay| && hay[i..i + |needle|] == needle
  }

  /** `Contains` is substring search: the needle occurs at some offset. */
  lemma {:induction false} ContainsIsSubstring(hay: string, needle: string)
    ensures Contains(hay, needle) <==> exists i :: OccursAt(hay, needle, i)
    decreases |hay|
  {
    if |needle| <= |hay| && hay[..|needle|] == needle {
      assert OccursAt(hay, needle, 0);
    } else if |needle| <= |hay| {
      ContainsIsSubstring(hay[1..], needle);
      if exists i :: OccursAt(hay, needle, i) {
        var i :| OccursAt(hay, needle, i);
        assert OccursAt(hay[1..], needle, i - 1);
      }
      if exists i :: OccursAt(hay[1..], needle, i) {
        var i :| OccursAt(hay[1..], needle, i);
        assert OccursAt(hay, needle, i + 1);
      }
    }
  }

  /** Python's `key in data` on a decoded JSON value. */
  function In(data: Json, key: string): (r: Result<bool, PyError>)
    ensures r.Ok? <==> data.JObject? || data.JList? || data.JStr?
    ensures data.JObject? ==> r == Ok(key in data.fields)
    ensures data.JList? ==> r == Ok(JStr(key) in data.items)
    ensures data.JStr? ==> r == Ok(Contains(data.s, key))
    ensures r.Err? ==> r.error == TypeError
  {
    match data
    case JObject(fields) => Ok(key in fields)
    case JList(items) => Ok(JStr(key) in items)
    case JStr(s) => Ok(Contains(s, key))
    case _ => Err(TypeError)
  }

  /** What the checks before the row is built let through. */
  datatype Admitted = Admitted(deviceId: string, key: string, fields: map<string, Json>)

  /** A request that gets past every check before the row is built: both
      headers, a UUID key, a JSON object body holding "timestamp". (A falsy
      body becomes `{}`, which has no "timestamp".) */
  predicate PassesChecks(lib: Library, req: Request) {
    && Present(req.deviceId)
    && Present(req.idempotencyKey)
    && lib.isUuid(req.idempotencyKey.value)
    && req.body.Parsed?
    && req.body.json.JObject?
    && "timestamp" in req.body.json.fields
  }

  /** The checks of post_leituras, in source order: X-Device-Id, then
      Idempotency-Key, then the UUID, then the JSON body and its "timestamp". */
  function Admit(lib: Library, req: Request): (r: Result<Admitted, PostResult>)
    ensures r.Ok? <==> PassesChecks(lib, req)
    ensures r.Ok? ==> r == Ok(Admitted(req.deviceId.value, req.idempotencyKey.value, req.body.json.fields))
    ensures r.Ok? ==> Present(req.deviceId) && r.value.deviceId == req.deviceId.value
    ensures r.Ok? ==> Present(req.idempotencyKey) && r.value.key == req.idempotencyKey.value && lib.isUuid(r.value.key)
    ensures r.Ok? ==> req.body.Parsed? && "timestamp" in r.value.fields
    ensures r.Err? ==> r.error.Failed? && (r.error.code == 400 || r.error.code == 500)
  {
    if !Present(req.deviceId) then Err(Failed(400, MissingHeader("X-Device-Id")))
    else if !Present(req.idempotencyKey) then Err(Failed(400, MissingHeader("Idempotency-Key")))
    else if !lib.isUuid(req.idempotencyKey.value) then Err(Failed(400, InvalidUuid))
    else
      match req.body
      case Unparseable => Err(Failed(500, InternalError))
      case Parsed(v) =>
        var data := if Truthy(v) then v else JObject(map[]);
        match In(data, "timestamp")
        case Err(e) => Err(ErrorResponse(e))
        case Ok(found) =>
          if !found then Err(Failed(400, TimestampRequired))
          else if data.JObject? then Ok(Admitted(req.deviceId.value, req.idempotencyKey.value, data.fields))
          else Err(ErrorResponse(TypeError))   // data["timestamp"] on a list or a string
  }

  /** Everything before `with SessionLocal()`: the checks and the row. */
  function Prepare(lib: Library, req: Request): (r: Result<Draft, PostResult>)
    ensures PassesChecks(lib, req) ==>
              var fields := req.body.json.fields;
              var built := BuildDraft(lib, req.deviceId.value, req.idempotencyKey.value, fields["timestamp"], fields);
              && (r.Ok? <==> built.Ok?)
              && (built.Ok? ==> r == Ok(built.value))
              && (built.Err? ==> r == Err(ErrorResponse(built.error)))
    ensures r.Ok? ==> PassesChecks(lib, req)
    ensures r.Ok? ==> Admit(lib, req).Ok? && r.value.idempotencyKey == req.idempotencyKey.value
    ensures r.Ok? ==> r.value.deviceId == req.deviceId.value && lib.isUuid(r.value.idempotencyKey)
    ensures r.Err? ==> r.error.Failed? && (r.error.code == 400 || r.error.code == 500)
  {
    var a :- Admit(lib, req);
    match BuildDraft(lib, a.deviceId, a.key, a.fields["timestamp"], a.fields)
    case Ok(d) => Ok(d)
    case Err(e) => Err(ErrorResponse(e))
  }

  /** The session block: insert; on IntegrityError roll back and look the key up. */
  function Persist(t: Table, d: Draft, now: Instant): (res: (PostResult, Table))
    ensures TableValid(t) ==> TableValid(res.1)
    ensures !res.0.Created? ==> res.1 == t
    ensures res.0.Created? ==>
              && res.0 == Created(t.nextId, AsStored(now))
              && res.1.rows == t.rows + [RowOf(d, t.nextId, now)]
    ensures res.0.Created? <==> Bindable(d) && !HasKey(t.rows, d.idempotencyKey) && PresencaAllowed(d.presenca)
    ensures res.0.Existing? <==> Bindable(d) && HasKey(t.rows, d.idempotencyKey)
    ensures res.0.Existing? ==>
              var row := Lookup(t.rows, d.idempotencyKey).value;
              res.0 == Existing(row.id, row.receivedAt)
    ensures res.0 == Failed(409, ConflictNotFound) <==>
              Bindable(d) && !HasKey(t.rows, d.idempotencyKey) && !PresencaAllowed(d.presenca)
  {
    var (c, t') := Insert(t, d, now);
    match c
    case Committed(row) => (Created(row.id, row.receivedAt), t')
    case DriverError(e) => (ErrorResponse(e), t')
    case IntegrityError =>
      match Lookup(t'.rows, d.idempotencyKey)
      case Some(existing) => (Existing(existing.id, existing.receivedAt), t')
      case None => (Failed(409, ConflictNotFound), t')
  }

  /** What post_leituras does to the table and what it answers. */
  function PostEffect(lib: Library, t: Table, req: Request, now: Instant): (res: (PostResult, Table))
    ensures TableValid(t) ==> TableValid(res.1)
    ensures !res.0.Created? ==> res.1 == t
    ensures res.0.Status() in {200, 201, 400, 409, 500}
    ensures res.0.Created? ==>
              && Prepare(lib, req).Ok?
              && res.1.rows == t.rows + [RowOf(Prepare(lib, req).value, res.0.id, now)]
              && res.1.rows[|t.rows|].idempotencyKey == req.idempotencyKey.value
  {
    match Prepare(lib, req)
    case Err(r) => (r, t)
    case Ok(d) => Persist(t, d, now)
  }

  /** The checks run in a fixed order and each failing one answers 400
      (500 for a body that is not JSON) without touching the table. */
  lemma ValidationOrder(lib: Library, t: Table, req: Request, now: Instant)
    ensures !Present(req.deviceId) ==>
              PostEffect(lib, t, req, now) == (Failed(400, MissingHeader("X-Device-Id")), t)
    ensures Present(req.deviceId) && !Present(req.idempotencyKey) ==>
              PostEffect(lib, t, req, now) == (Failed(400, MissingHeader("Idempotency-Key")), t)
    ensures Present(req.deviceId) && Present(req.idempotencyKey) && !lib.isUuid(req.idempotencyKey.value) ==>
              PostEffect(lib, t, req, now) == (Failed(400, InvalidUuid), t)
    ensures Present(req.deviceId) && Present(req.idempotencyKey) && lib.isUuid(req.idempotencyKey.value)
            && req.body.Unparseable? ==>
              PostEffect(lib, t, req, now) == (Failed(500, InternalError), t)
    ensures Present(req.deviceId) && Present(req.idempotencyKey) && lib.isUuid(req.idempotencyKey.value)
            && req.body.Parsed? && req.body.json.JObject? && "timestamp" !in req.body.json.fields ==>
              PostEffect(lib, t, req, now) == (Failed(400, TimestampRequired), t)
    ensures Admit(lib, req).Ok? && ParseIso8601(lib, Admit(lib, req).value.fields["timestamp"]).Err? ==>
              PostEffect(lib, t, req, now) == (Failed(400, InvalidValue), t)
  {
  }

  /** A key already in the table, whichever entry point stored it: the
      answer is 200 with the stored row's id and received_at, and the table,
      that row included, is not changed, even when the body differs. */
  lemma StoredKeyAnswersExisting(lib: Library, t: Table, req: Request, now: Instant, i: int)
    requires TableValid(t)
    requires 0 <= i < |t.rows|
    requires Prepare(lib, req).Ok? && Bindable(Prepare(lib, req).value)
    requires req.idempotencyKey == Some(t.rows[i].idempotencyKey)
    ensures PostEffect(lib, t, req, now) == (Existing(t.rows[i].id, t.rows[i].receivedAt), t)
    ensures PostEffect(lib, t, req, now).0.Status() == 200 && PostEffect(lib, t, req, now).0.Idempotent()
  {
    LookupFindsTheRow(t.rows, i);
  }

  /** Posting twice with one key: the first answer is 201, the second 200
      with the same id and stored_at, and the second leaves the table as the
      first left it. */
  lemma RepostIsIdempotent(lib: Library, t: Table, req: Request, req2: Request, now: Instant, now2: Instant)
    requires TableValid(t)
    requires PostEffect(lib, t, req, now).0.Created?
    requires req2.idempotencyKey == req.idempotencyKey
    requires Prepare(lib, req2).Ok? && Bindable(Prepare(lib, req2).value)
    ensures var (first, t1) := PostEffect(lib, t, req, now);
            PostEffect(lib, t1, req2, now2) == (Existing(first.id, first.storedAt), t1)
  {
  }

  /** 409 is answered exactly when the insert fails on a key that no row
      holds; with one request at a time that is a presenca outside {0, 1}. */
  lemma ConflictExactly(lib: Library, t: Table, req: Request, now: Instant)
    ensures PostEffect(lib, t, req, now).0.Status() == 409 <==>
              && Prepare(lib, req).Ok?
              && Bindable(Prepare(lib, req).value)
              && !HasKey(t.rows, req.idempotencyKey.value)
              && !PresencaAllowed(Prepare(lib, req).value.presenca)
    ensures PostEffect(lib, t, req, now).0.Status() == 409 ==> PostEffect(lib, t, req, now).1 == t
  {
  }

  /** No concurrency is needed to reach the "conflict but record not found"
      409: a fresh key with `"presenca": 2` gets there. */
  lemma ConflictWithoutRace(lib: Library, t: Table, key: string, ts: string, now: Instant)
    requires key != "" && lib.isUuid(key) && !HasKey(t.rows, key)
    requires lib.fromIsoFormat(RewriteZ(ts)).Some?
    ensures var req := Request(Some("robo-1"), Some(key),
                               Parsed(JObject(map["timestamp" := JStr(ts), "presenca" := JInt(2)])));
            PostEffect(lib, t, req, now) == (Failed(409, ConflictNotFound), t)
  {
    var fields := map["timestamp" := JStr(ts), "presenca" := JInt(2)];
    var req := Request(Some("robo-1"), Some(key), Parsed(JObject(fields)));
    assert Truthy(JObject(fields)) by {
      assert "timestamp" in fields;
    }
    assert Admit(lib, req) == Ok(Admitted("robo-1", key, fields));
    assert Get(fields, "presenca") == JInt(2);
    assert Get(fields, "temperatura_c") == JNull;
    assert Get(fields, "umidade_pct") == JNull;
    assert Get(fields, "luminosidade") == JNull;
    assert Get(fields, "probabilidade_vida") == JNull;
    var d := Draft("robo-1", key, lib.fromIsoFormat(RewriteZ(ts)).value, None, None, None, Some(2), None);
    assert BuildDraft(lib, "robo-1", key, JStr(ts), fields) == Ok(d);
    assert Prepare(lib, req) == Ok(d);
  }

  /** A request that passes the checks, whose row converts, fits the INTEGER
      columns and has an allowed presenca, and whose key is fresh, answers
      201 with the next id and appends the row built from its body. */
  lemma WellFormedPostIsCreated(lib: Library, t: Table, req: Request, now: Instant)
    requires PassesChecks(lib, req)
    requires var fields := req.body.json.fields;
             var built := BuildDraft(lib, req.deviceId.value, req.idempotencyKey.value, fields["timestamp"], fields);
             && built.Ok? && Bindable(built.value) && PresencaAllowed(built.value.presenca)
             && !HasKey(t.rows, req.idempotencyKey.value)
    ensures var fields := req.body.json.fields;
            var built := BuildDraft(lib, req.deviceId.value, req.idempotencyKey.value, fields["timestamp"], fields);
            PostEffect(lib, t, req, now) ==
              (Created(t.nextId, AsStored(now)), Table(t.rows + [RowOf(built.value, t.nextId, now)], t.nextId + 1))
  {
  }

  /** 201 exactly for a fresh key whose row passes every constraint. */
  lemma CreatedExactly(lib: Library, t: Table, req: Request, now: Instant)
    requires TableValid(t)
    ensures PostEffect(lib, t, req, now).0.Created? <==>
              && Prepare(lib, req).Ok?
              && Bindable(Prepare(lib, req).value)
              && !HasKey(t.rows, req.idempotencyKey.value)
              && PresencaAllowed(Prepare(lib, req).value.presenca)
    ensures PostEffect(lib, t, req, now).0.Created? ==>
              var (res, t1) := PostEffect(lib, t, req, now);
              && t1.rows[..|t.rows|] == t.rows
              && |t1.rows| == |t.rows| + 1
              && (forall i :: 0 <= i < |t.rows| ==> t.rows[i].id != res.id)
  {
  }

  /** received_at is never taken from the payload: adding a "received_at"
      field to the body changes nothing. */
  lemma ReceivedAtNotFromPayload(lib: Library, t: Table, device: string, key: string,
                                 fields: map<string, Json>, v: Json, now: Instant)
    requires "timestamp" in fields
    ensures var with := Request(Some(device), Some(key), Parsed(JObject(fields["received_at" := v])));
            var without := Request(Some(device), Some(key), Parsed(JObject(fields)));
            PostEffect(lib, t, with, now) == PostEffect(lib, t, without, now)
  {
    var f := fields["received_at" := v];
    assert Truthy(JObject(fields)) && Truthy(JObject(f)) by {
      assert "timestamp" in fields && "timestamp" in f;
    }
    assert f["timestamp"] == fields["timestamp"];
    BuildDraftIgnoresOtherFields(lib, device, key, fields["timestamp"], fields, "received_at", v);
  }

  /** post_leituras. */
  method PostLeituras(store: Store, lib: Library, req: Request, now: Instant) returns (res: PostResult)
    requires store.Valid()
    modifies store
    ensures store.Valid()
    ensures (res, store.State()) == PostEffect(lib, old(store.State()), req, now)
  {
    if !Present(req.deviceId) {
      return Failed(400, MissingHeader("X-Device-Id"));
    }
    var deviceId := req.deviceId.value;
    if !Present(req.idempotencyKey) {
      return Failed(400, MissingHeader("Idempotency-Key"));
    }
    var idemp := req.idempotencyKey.value;
    if !lib.isUuid(idemp) {
      return Failed(400, InvalidUuid);
    }
    if req.body.Unparseable? {
      return Failed(500, InternalError);
    }
    var data := if Truthy(req.body.json) then req.body.json else JObject(map[]);
    var found := In(data, "timestamp");
    if found.Err? {
      return ErrorResponse(found.error);
    }
    if !found.value {
      return Failed(400, TimestampRequired);
    }
    if !data.JObject? {
      return ErrorResponse(TypeError);
    }
    var leitura := BuildDraft(lib, deviceId, idemp, data.fields["timestamp"], data.fields);
    if leitura.Err? {
      return ErrorResponse(leitura.error);
    }
    var committed := store.Commit(leitura.value, now);
    match committed
    case Committed(row) =>
      res := Created(row.id, row.receivedAt);
    case DriverError(e) =>
      res := ErrorResponse(e);
    case IntegrityError =>
      var existing := store.SelectByKey(idemp);
      if existing.Some? {
        res := Existing(existing.value.id, existing.value.receivedAt);
      } else {
        res := Failed(409, ConflictNotFound);
      }
  }
}
