# iot-esp32-robo-espacial backend: a Dafny model of the ingestion core

The backend ingests sensor readings ("leituras") from ESP32 robots. There are two ways in, and both write to one SQLite table, `leituras`:

- **MQTT** (`on_message` → `handle_payload_from_mqtt`). The device id is the last segment of the topic. A message the handler cannot store is dropped, and nothing is reported back.
- **HTTP** (`POST /leituras`, `post_leituras`). The handler reads the `X-Device-Id` and `Idempotency-Key` headers and a JSON body. It answers 201 for a new row, 200 with `idempotent: true` for a key that is already stored, 400 for a validation error, 409 for "conflict but record not found", and 500 for anything else.

Readings go back out through `GET /leituras?limit=N` (`get_leituras`). The limit is clamped to [1, 1000] and defaults to 100. Rows come newest first by timestamp.

The table's unique `idempotency_key` is what makes a delivery idempotent. That holds across both entry points.

Modules, one file each:

- `PyValues` (`pyvalues.dfy`): the Python values the handlers see.
  - Decoded JSON.
  - Truthiness.
  - `dict.get`.
  - `int()` and `float()`, with their `TypeError`, `ValueError` and `OverflowError` cases.
  - A `Library` value that carries the library calls: `uuid.UUID`, `datetime.fromisoformat`, `str()` of a non-string, `int`/`float` of a string, and `json.loads` of the payload.
- `Schema` (`schema.dfy`): the rest of `model.py`.
  - The `Leitura` row.
  - The table constraints: unique key, the presenca CHECK, NOT NULL columns, the autoincrement id, and the `received_at` default.
  - `Insert`, the spec function of one INSERT transaction.
  - The `Store` class, whose methods are the two statements the handlers issue.
- `Helpers` (`helpers.dfy`): `parse_iso8601`, `_i`, `_f`, and the `Leitura(...)` construction both handlers use.
- `Mqtt` (`mqtt.dfy`): the topic split in `on_message`, and `handle_payload_from_mqtt`.
- `Http` (`http.dfy`): `post_leituras`.
- `Query` (`query.dfy`): `get_leituras`, covering the limit clamp and `ORDER BY timestamp DESC LIMIT n`.
- `Ingestion` (`ingestion.dfy`): any sequence of MQTT messages and HTTP posts, handled one at a time, against one table.

Each handler is an imperative module-level method that takes the `Store` as an argument (`Mqtt.HandlePayloadFromMqtt`, `Mqtt.OnMessage`, `Http.PostLeituras`, `Query.GetLeituras`). Each one is proved equal to a spec function on table values (`PayloadEffect`, `MessageEffect`, `PostEffect`, `Recent`). The lemmas are stated over those spec functions.

In a few places the code does less than its own comments and docstrings, or than the schema suggests. The model follows the code in each of them:

- **Timestamps.** The `parse_iso8601` docstring (backend/app/main.py:48) promises an aware UTC datetime. The code only rewrites a trailing `Z` to `+00:00` and calls `fromisoformat`. A naive string therefore stays naive, and an offset other than zero is kept, not converted. `Instant` records the wall-clock reading and the optional offset.
- **Stored datetimes.** The columns are declared `DateTime(timezone=True)` (backend/app/model.py:14, 20-21), but on SQLite that type keeps only the wall-clock reading and drops the offset. So every value read back is naive. That includes `received_at` after `s.refresh` (the 201's `stored_at`), the stored row's `received_at` (the 200's `stored_at`), and every row `GET /leituras` returns. `Schema.AsStored` is this conversion. `Schema.RowOf` applies it to both datetime columns, and `Schema.NaiveDatetimes` is part of the table invariant. Rows therefore order by the wall-clock reading alone (`Query.NewestByWallClock`).
- **presenca.** Nothing checks presenca before the insert. The CHECK constraint `presenca IN (0,1) OR presenca IS NULL` (backend/app/model.py:27) then raises `IntegrityError`. No row holds the key, so the handler answers 409 "idempotency conflict but record not found" (backend/app/main.py:203) without any race (`Http.ConflictExactly`, `Http.ConflictWithoutRace`). On MQTT the same failure is rolled back and ignored like a duplicate, despite the "idempotente" comment at backend/app/main.py:91 (`Mqtt.PayloadEffect`).
- **MQTT device id.** `topic.split("/")` is never empty, so the `"unknown"` fallback (backend/app/main.py:106) is unreachable. A topic ending in `/` gives the empty device id (`Mqtt.TopicDeviceId`).
- **Body that is not JSON.** `request.get_json(force=True)` raises a `BadRequest` on such a body. That is not a `ValueError`, so the `except Exception` clause answers 500, not 400.
- **NaN measurements.** `float("nan")` is accepted for `temperatura_c` and `probabilidade_vida`, but SQLite stores a NaN REAL as NULL, so the row reads back None there (`Schema.AsStoredReal`).
- **Integers too wide for SQLite.** An integer field outside the signed 64-bit range fails when the value is bound. The error is `OverflowError`, not `IntegrityError`. On HTTP that gives 500. On MQTT it propagates to `on_message`, which logs it.

## Model

| member | source | states |
|---|---|---|
| PyValues.FalsyExactly | backend/app/main.py:64 | `bool(v)` (`PyValues.Truthy`) is false exactly for None, False, 0, 0.0, "", [] and {} |
| PyValues.Str | backend/app/main.py:64 | `str(v)` of a string is that string |
| PyValues.Get | backend/app/main.py:79-83 | `data.get(k)`: a missing key and a JSON null both read as None |
| PyValues.Truncate | backend/app/main.py:56-57 | `int()` of a finite float truncates toward zero, for either sign |
| PyValues.IntOf | backend/app/main.py:56-57 | `int(v)`: an int is itself, a bool is 0/1, and null, a list or a dict raise TypeError |
| PyValues.FloatOf | backend/app/main.py:59-60 | `float(v)`: a float is itself, and null, a list or a dict raise TypeError |
| Schema.AsStored | backend/app/model.py:14 | a `DateTime(timezone=True)` value on SQLite reads back with its wall-clock reading and no offset |
| Schema.AsStoredReal | backend/app/model.py:15-19 | a `Float` column on SQLite reads a NaN back as NULL and every other value, NULL included, as itself |
| Schema.RowOf | backend/app/model.py:11-23 | the new row takes its id and received_at from the store, and every column from the handler's Leitura(...). Both datetime columns read back naive, and a NaN temperatura_c or probabilidade_vida reads back NULL |
| Schema.Insert | backend/app/model.py:25-27 | a commit succeeds exactly for a bindable row with a fresh key and presenca in {0,1,NULL}. Then it appends the row with the next id, which no other row has. IntegrityError happens exactly for a taken key or a bad presenca. Otherwise OverflowError. A failed commit leaves the table unchanged. Every constraint is preserved, including that the next id is one past the last id (1 on an empty table) and that both datetime columns are naive |
| Schema.Lookup | backend/app/main.py:193-195 | the select by key finds a row exactly when some row holds the key, and the row it finds holds it |
| Schema.LookupFindsTheRow | backend/app/main.py:193-196 | with the unique constraint, the select by key returns the one row holding that key |
| Schema.IndexesAreNotUnique | backend/app/model.py:28-29 | the two indexes are not unique: a row with an existing device and timestamp reading but a new key is stored, and the table stays valid |
| Schema.Store.constructor | backend/app/main.py:30 | `create_all` on an empty database: no rows, next id 1 |
| Schema.Store.Commit | backend/app/main.py:86-92 | `s.add; s.commit()` changes the store exactly as `Insert` says, and keeps the constraints |
| Schema.Store.SelectByKey | backend/app/main.py:193-195 | returns the row `Lookup` finds, so it is present exactly when a row holds the key |
| Helpers.RewriteZ | backend/app/main.py:51-53 | a trailing "Z" becomes "+00:00", any other string passes unchanged, and the result never ends in "Z" |
| Helpers.RewriteZIdempotent | backend/app/main.py:52-53 | rewriting twice is rewriting once |
| Helpers.ZuluMeansZeroOffset | backend/app/main.py:52-53 | "…Z" and "…+00:00" reach fromisoformat as the same string |
| Helpers.ParseIso8601 | backend/app/main.py:47-54 | succeeds exactly when fromisoformat accepts the rewritten `str(value)`, and returns what fromisoformat returns. The only error is ValueError |
| Helpers.ParseZuluAsOffset | backend/app/main.py:47-54 | a "Z" suffix and "+00:00" parse to the same instant |
| Helpers.OptInt | backend/app/main.py:56-57 | `_i`: None exactly for None (never 0), and otherwise exactly `int(v)`, its error included |
| Helpers.OptFloat | backend/app/main.py:59-60 | `_f`: None exactly for None, and otherwise exactly `float(v)`, its error included |
| Helpers.BuildDraft | backend/app/main.py:75-84 | a row is built exactly when the timestamp parses and all five conversions succeed. It carries the given device and key, the parsed timestamp, `_f` of temperatura_c and probabilidade_vida, and `_i` of umidade_pct, luminosidade and presenca, so an absent or null field is None. The timestamp is converted first, then temperatura_c: whichever raises first decides the error |
| Helpers.BuildDraftIgnoresOtherFields | backend/app/main.py:167-178 | payload keys other than the five measurement fields (received_at among them) do not affect the row |
| Mqtt.Split | backend/app/main.py:105 | `split("/")` returns at least one part, and no part contains "/" |
| Mqtt.JoinSplit | backend/app/main.py:105 | joining the parts with "/" gives the topic back |
| Mqtt.LastPartIsSuffix | backend/app/main.py:105-106 | the last part is a suffix of the topic, preceded by "/" when it is not the whole topic |
| Mqtt.TopicDeviceId | backend/app/main.py:105-106 | the device id is the text after the last "/" (the whole topic if there is none), so the "unknown" branch is never taken |
| Mqtt.KeyText | backend/app/main.py:64 | `str(data.get("idempotency_key") or "")` is "" for a missing, null or falsy key, and the key itself when it is a string |
| Mqtt.PrepareMqtt | backend/app/main.py:62-84 | a row is built only from a dict that passes the early returns: its key `str(get(key) or "")` is non-empty and a UUID, and its timestamp is truthy. For such a dict, a row is built exactly when `Helpers.BuildDraft` of the payload succeeds. The row is then that draft, and a conversion error is raised as that error. An early return is never a store or a rollback |
| Mqtt.WellFormedMessageIsStored | backend/app/main.py:62-92 | a message that passes the checks, converts, binds, has presenca 0/1/None and carries a fresh key is stored under the next id. The table gains exactly that row |
| Mqtt.PayloadEffect | backend/app/main.py:62-92 | a message that passes the checks and whose insert commits is stored under the next id, with its row appended. It is rolled back exactly when the insert raises IntegrityError. Nothing else changes the table, and the constraints are kept |
| Mqtt.MessageEffect | backend/app/main.py:103-110 | a payload that does not decode raises ValueError and changes nothing. Otherwise the handler runs with the topic's device id |
| Mqtt.MqttDropsQuietly | backend/app/main.py:64-92 | no key, a non-UUID key, a falsy timestamp, or a key already stored: each ends silently with the table unchanged |
| Mqtt.HandlePayloadFromMqtt | backend/app/main.py:62-92 | the imperative handler's outcome and new store are those of `PayloadEffect` |
| Mqtt.OnMessage | backend/app/main.py:103-110 | the imperative callback's outcome and new store are those of `MessageEffect` |
| Http.ErrorResponse | backend/app/main.py:205-208 | a ValueError answers 400 and every other exception answers 500 |
| Http.In | backend/app/main.py:164 | `"timestamp" in data` succeeds exactly on a dict, a list or a string. On a dict it is key membership, on a list element membership, on a string substring search. Anything else raises TypeError |
| Http.ContainsIsSubstring | backend/app/main.py:164 | `key in s` on strings holds exactly when the key occurs in s at some offset |
| Http.Present | backend/app/main.py:41-45 | `require_header`: an absent header and an empty header are both missing. Any non-empty value is accepted |
| Http.Admit | backend/app/main.py:152-165 | a request is admitted exactly when both headers are present, the key is a UUID and the body parses to an object holding "timestamp". It is then admitted with those headers and that object. Every refusal is 400 or 500 |
| Http.Prepare | backend/app/main.py:151-178 | a row is built only for an admitted request. For an admitted request, a row is built exactly when `Helpers.BuildDraft` of the headers and body succeeds. The row is then that draft, and a conversion error becomes its error response. Every failure before the session is 400 or 500 |
| Http.Persist | backend/app/main.py:180-203 | 201 exactly for a bindable row with a fresh key and allowed presenca. It appends the row under the next id, and its stored_at is the insert instant without offset. 200 exactly for a stored key, with the stored row's id and received_at. 409 exactly for a fresh key with a bad presenca. Only 201 changes the table |
| Http.PostEffect | backend/app/main.py:144-208 | the status is one of 200, 201, 400, 409, 500. Only 201 changes the table, by appending the row for the header key. The constraints are kept |
| Http.WellFormedPostIsCreated | backend/app/main.py:151-189 | a request that passes the checks, converts, binds, has presenca 0/1/None and carries a fresh key gets 201 with the next id and the insert instant without offset. The table gains exactly that row |
| Http.ValidationOrder | backend/app/main.py:151-178 | the checks apply in order: device header, key header, UUID, JSON body, timestamp present, timestamp parses. The first failing one decides the answer, and the table is untouched |
| Http.StoredKeyAnswersExisting | backend/app/main.py:190-202 | a key stored by either entry point answers 200 `idempotent` with that row's id and received_at, even for a different body, and changes nothing |
| Http.RepostIsIdempotent | backend/app/main.py:180-202 | after a 201, a re-post with the same key answers 200 with the same id and stored_at, and leaves the table as it was |
| Http.ConflictExactly | backend/app/main.py:190-203 | 409 is answered exactly for a fresh key whose presenca breaks the CHECK, and it leaves the table unchanged |
| Http.ConflictWithoutRace | backend/app/main.py:190-203 | a single request with a fresh key and `"presenca": 2` gets the 409 |
| Http.CreatedExactly | backend/app/main.py:180-189 | 201 is answered exactly for a fresh key whose row passes every constraint. It appends one row, keeps the old rows, and its id is new |
| Http.ReceivedAtNotFromPayload | backend/app/main.py:167-178 | a "received_at" field in the body changes neither the answer nor the table |
| Http.PostLeituras | backend/app/main.py:144-208 | the imperative handler's answer and new store are those of `PostEffect` |
| Query.ClampLimit | backend/app/main.py:217-221 | the limit is always in [1, 1000]. It is 100 when absent or when int() fails, n when in range, 1000 above and 1 below |
| Query.InsertNewestFirst | backend/app/main.py:225 | inserting into a newest-first list keeps it newest first and adds exactly that row |
| Query.OrderByTimestampDesc | backend/app/main.py:225 | the ordered rows are newest first and a permutation of the table |
| Query.TakeNewest | backend/app/main.py:225 | cutting a newest-first list after n keeps it ordered, and no row cut off is newer than a row kept |
| Query.NewestByWallClock | backend/app/main.py:225 | under `ORDER BY timestamp DESC` (`Query.SortKey`), of two rows the one with the later wall-clock reading comes first, whatever the offset it was written with |
| Query.Recent | backend/app/main.py:223-226 | returns min(limit, rows) rows of the table, newest first, and no row left out is newer than one returned |
| Query.GetLeituras | backend/app/main.py:210-226 | returns `Recent` of the store under the clamped limit: between 1 and 1000 rows unless the table is empty, newest first, all from the table |
| Ingestion.Deliver | backend/app/main.py:103-208 | one handler call of either kind keeps every constraint and appends at most one row |
| Ingestion.RunKeepsConstraints | backend/app/model.py:25-27 | the constraints hold after any sequence of messages and posts |
| Ingestion.RunOnlyAppends | backend/app/main.py:180-191 | no sequence of calls changes or removes a stored row |
| Ingestion.FirstWriteWins | backend/app/model.py:26 | once a row holds a key, the lookup by that key finds that row after any later sequence of calls |
| Ingestion.MqttThenHttp | backend/app/main.py:190-202 | a key that arrived by MQTT, posted over HTTP, answers 200 with the MQTT row's id and its received_at as stored (naive), and changes nothing |
| Ingestion.HttpThenMqtt | backend/app/main.py:86-92 | a key that arrived by HTTP, delivered by MQTT, is rolled back, and the table stays as the post left it |
| Ingestion.MqttRedelivery | backend/app/main.py:86-92 | a message delivered twice is stored once, and the second delivery is rolled back |
| Ingestion.RepostScenario | backend/app/main.py:180-202 | on a fresh store, a POST then the same POST answer 201 then 200 `idempotent`, with the same id and stored_at. That stored_at is the insert instant without offset |

## Left out

- Flask routing, the `/` and `/health` routes, and the JSON shaping of responses (`isoformat`, error strings). The model returns the status, the id and the stored instant.
- `require_api_key`: both calls to it are commented out, so it never runs.
- The MQTT client: connection, subscription, credentials and the background thread (`make_mqtt_client`, `start_mqtt_background`). `on_message` is modelled as a callback that receives topic, payload and the current instant.
- Configuration (`load_dotenv`, environment variables) and `backend/app/db.py`. The root `main.py` is not part of this model.
- The library calls `uuid.UUID`, `datetime.fromisoformat`, `json.loads` with UTF-8 decoding, and `int`/`float`/`str` on strings. They are parameters (`PyValues.Library`), and the model assumes nothing about them beyond totality.
- The clock. `datetime.now(timezone.utc)` for `received_at` is the `now` parameter of each handler.
- Floating-point values. They are opaque (`PyValues.Float`), and `float()` of text and of a large int go through the `Library`.
- The `isinstance(value, datetime)` branch of `parse_iso8601`. Both callers pass decoded JSON, which is never a datetime.
- Concurrency. Handlers run one at a time, so the race the 409 comment has in mind cannot happen in the model. That 409 is reached instead through the CHECK constraint.
- Database failures other than binding a too-wide integer: a locked or unreachable database, and disk errors.
- The stored key is the header or payload text as given. It is not canonicalised, so two spellings of one UUID are two keys, as in the code.
- Query.Recent: does not state an order among rows with equal timestamp readings, because SQLite does not fix one.
- PyValues.Str: states only that `str()` of a string is itself. Rendering any other value belongs to the `Library`.
- PyValues.FloatOf: states only the float, null, list and dict cases. The other cases depend on the `Library`.
