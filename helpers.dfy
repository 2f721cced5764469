/** The pure helpers of backend/app/main.py that both handlers use to turn a
    decoded payload into a row: parse_iso8601, _i, _f and the Leitura(...)
    construction. */
module Helpers {
  import opened PyValues
  import opened Schema

  predicate EndsWithZ(s: string) {
    |s| > 0 && s[|s| - 1] == 'Z'
  }

  /** The text rewrite parse_iso8601 applies before calling fromisoformat: a
      trailing "Z" becomes "+00:00"; any other string passes unchanged. */
  function RewriteZ(s: string): (t: string)
    ensures EndsWithZ(s) ==> t == s[..|s| - 1] + "+00:00"
    ensures !EndsWithZ(s) ==> t == s
    ensures !EndsWithZ(t)
  {
    if EndsWithZ(s) then s[..|s| - 1] + "+00:00" else s
  }

  /** The rewrite is idempotent. */
  lemma RewriteZIdempotent(s: string)
    ensures RewriteZ(RewriteZ(s)) == RewriteZ(s)
  {
  }

  /** "...Z" and "...+00:00" reach fromisoformat as the very same string. */
  lemma ZuluMeansZeroOffset(p: string)
    ensures RewriteZ(p + "Z") == p + "+00:00"
    ensures RewriteZ(p + "+00:00") == p + "+00:00"
  {
  }

  /** parse_iso8601 on a decoded JSON value (never a datetime there): str(),
      the Z rewrite, then fromisoformat, which raises ValueError on bad text.
      No normalisation to UTC is applied: a naive string stays naive. */
  function ParseIso8601(lib: Library, v: Json): (r: Result<Instant, PyError>)
    ensures r.Ok? <==> lib.fromIsoFormat(RewriteZ(Str(lib, v))).Some?
    ensures r.Ok? ==> r.value == lib.fromIsoFormat(RewriteZ(Str(lib, v))).value
    ensures r.Err? ==> r.error == ValueError
  {
    var parsed := lib.fromIsoFormat(RewriteZ(Str(lib, v)));
    if parsed.Some? then Ok(parsed.value) else Err(ValueError)
  }

  /** The same instant is produced for "...Z" and for "...+00:00". */
  lemma ParseZuluAsOffset(lib: Library, p: string)
    ensures ParseIso8601(lib, JStr(p + "Z")) == ParseIso8601(lib, JStr(p + "+00:00"))
  {
  }

  /** `_i`: None stays None (never 0), anything else goes through int(). */
  function OptInt(lib: Library, v: Json): (r: Result<Option<int>, PyError>)
    ensures r == Ok(None) <==> v == JNull
    ensures v.JInt? ==> r == Ok(Some(v.i))
    ensures v != JNull && r.Ok? ==> IntOf(lib, v) == Ok(r.value.value)
    ensures v != JNull && r.Err? ==> IntOf(lib, v) == Err(r.error)
  {
    if v == JNull then Ok(None)
    else
      var i :- IntOf(lib, v);
      Ok(Some(i))
  }

  /** `_f`: None stays None, anything else goes through float(). */
  function OptFloat(lib: Library, v: Json): (r: Result<Option<Float>, PyError>)
    ensures r == Ok(None) <==> v == JNull
    ensures v.JFloat? ==> r == Ok(Some(v.f))
    ensures v != JNull && r.Ok? ==> FloatOf(lib, v) == Ok(r.value.value)
    ensures v != JNull && r.Err? ==> FloatOf(lib, v) == Err(r.error)
  {
    if v == JNull then Ok(None)
    else
      var f :- FloatOf(lib, v);
      Ok(Some(f))
  }

  /** `Leitura(device_id=..., idempotency_key=..., timestamp=parse_iso8601(ts), ...)`:
      the keyword arguments are evaluated left to right and the first one
      that raises decides the error. id and received_at are not passed. */
  function BuildDraft(lib: Library, deviceId: string, key: string, ts: Json, fields: map<string, Json>): (r: Result<Draft, PyError>)
    ensures r.Ok? <==>
              && ParseIso8601(lib, ts).Ok?
              && OptFloat(lib, Get(fields, "temperatura_c")).Ok?
              && OptInt(lib, Get(fields, "umidade_pct")).Ok?
              && OptInt(lib, Get(fields, "luminosidade")).Ok?
              && OptInt(lib, Get(fields, "presenca")).Ok?
              && OptFloat(lib, Get(fields, "probabilidade_vida")).Ok?
    ensures r.Ok? ==> r.value.deviceId == deviceId && r.value.idempotencyKey == key
    ensures r.Ok? ==> ParseIso8601(lib, ts) == Ok(r.value.timestamp)
    ensures r.Ok? ==> OptFloat(lib, Get(fields, "temperatura_c")) == Ok(r.value.temperaturaC)
    ensures r.Ok? ==> OptInt(lib, Get(fields, "umidade_pct")) == Ok(r.value.umidadePct)
    ensures r.Ok? ==> OptInt(lib, Get(fields, "luminosidade")) == Ok(r.value.luminosidade)
    ensures r.Ok? ==> OptInt(lib, Get(fields, "presenca")) == Ok(r.value.presenca)
    ensures r.Ok? ==> OptFloat(lib, Get(fields, "probabilidade_vida")) == Ok(r.value.probabilidadeVida)
    ensures ParseIso8601(lib, ts).Err? ==> r == Err(ValueError)
    ensures ParseIso8601(lib, ts).Ok? && OptFloat(lib, Get(fields, "temperatura_c")).Err? ==>
              r == Err(OptFloat(lib, Get(fields, "temperatura_c")).error)
  {
    var timestamp :- ParseIso8601(lib, ts);
    var temperaturaC :- OptFloat(lib, Get(fields, "temperatura_c"));
    var umidadePct :- OptInt(lib, Get(fields, "umidade_pct"));
    var luminosidade :- OptInt(lib, Get(fields, "luminosidade"));
    var presenca :- OptInt(lib, Get(fields, "presenca"));
    var probabilidadeVida :- OptFloat(lib, Get(fields, "probabilidade_vida"));
    Ok(Draft(deviceId, key, timestamp, temperaturaC, umidadePct, luminosidade, presenca, probabilidadeVida))
  }

  /** The draft is built from the named fields only: a "received_at" (or any
      other unknown key) in the payload has no effect on it. */
  lemma BuildDraftIgnoresOtherFields(lib: Library, deviceId: string, key: string, ts: Json,
                                     fields: map<string, Json>, extra: string, v: Json)
    requires extra !in {"temperatura_c", "umidade_pct", "luminosidade", "presenca", "probabilidade_vida"}
    ensures BuildDraft(lib, deviceId, key, ts, fields[extra := v]) == BuildDraft(lib, deviceId, key, ts, fields)
  {
  }
}
