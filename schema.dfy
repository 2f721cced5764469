/** The `leituras` table: the row shape, the constraints the database enforces
    (unique idempotency_key, the presenca CHECK, NOT NULL columns, the
    autoincrement id, the received_at default) and the store that holds it. */
module Schema {
  import opened PyValues

  /** A reading as a handler builds it: no id and no received_at yet. */
  datatype Draft = Draft(
    deviceId: string,
    idempotencyKey: string,
    timestamp: Instant,
    temperaturaC: Option<Float>,
    umidadePct: Option<int>,
    luminosidade: Option<int>,
    presenca: Option<int>,
    probabilidadeVida: Option<Float>)

  /** A stored row. The NOT NULL columns (device_id, idempotency_key,
      timestamp, received_at) are the fields that are not an Option. */
  datatype Leitura = Leitura(
    id: int,
    deviceId: string,
    idempotencyKey: string,
    timestamp: Instant,
    temperaturaC: Option<Float>,
    umidadePct: Option<int>,
    luminosidade: Option<int>,
    presenca: Option<int>,
    probabilidadeVida: Option<Float>,
    receivedAt: Instant)

  /** The table's contents and the id the next insert receives. */
  datatype Table = Table(rows: seq<Leitura>, nextId: int)

  const EMPTY: Table := Table([], 1)

  /** A `DateTime(timezone=True)` column on SQLite keeps the wall-clock
      reading of the datetime it is given and drops its tzinfo, so the value
      read back is naive. */
  function AsStored(i: Instant): (s: Instant)
    ensures s.wall == i.wall && s.utcOffset == None
  {
    Instant(i.wall, None)
  }

  /** A Float column on SQLite stores a NaN as NULL; every other value,
      infinities included, reads back as it was bound. */
  function AsStoredReal(f: Option<Float>): (s: Option<Float>)
    ensures s.None? <==> f.None? || f == Some(NaN)
    ensures s.Some? ==> s == f
  {
    if f == Some(NaN) then None else f
  }

  /** The row an insert of `d` creates, as it reads back: the id and
      received_at come from the store, every other column from the draft,
      both datetime columns come back naive and a NaN measurement comes back
      NULL. */
  function RowOf(d: Draft, id: int, receivedAt: Instant): (row: Leitura)
    ensures row.id == id && row.receivedAt == AsStored(receivedAt)
    ensures row.deviceId == d.deviceId && row.idempotencyKey == d.idempotencyKey
    ensures row.timestamp == AsStored(d.timestamp) && row.presenca == d.presenca
    ensures row.temperaturaC == AsStoredReal(d.temperaturaC) && row.umidadePct == d.umidadePct
    ensures row.luminosidade == d.luminosidade && row.probabilidadeVida == AsStoredReal(d.probabilidadeVida)
  {
    Leitura(id, d.deviceId, d.idempotencyKey, AsStored(d.timestamp), AsStoredReal(d.temperaturaC),
            d.umidadePct, d.luminosidade, d.presenca, AsStoredReal(d.probabilidadeVida), AsStored(receivedAt))
  }

  const INT64_MIN: int := -0x8000_0000_0000_0000
  const INT64_MAX: int := 0x7FFF_FFFF_FFFF_FFFF

  /** SQLite binds a Python int only if it fits in a signed 64-bit INTEGER. */
  predicate FitsInteger(v: Option<int>) {
    v.None? || INT64_MIN <= v.value <= INT64_MAX
  }

  predicate Bindable(d: Draft) {
    FitsInteger(d.umidadePct) && FitsInteger(d.luminosidade) && FitsInteger(d.presenca)
  }

  /** ck_presenca_bin: presenca IN (0,1) OR presenca IS NULL. */
  predicate PresencaAllowed(p: Option<int>) {
    p == None || p == Some(0) || p == Some(1)
  }

  predicate HasKey(rows: seq<Leitura>, key: string) {
    exists i :: 0 <= i < |rows| && rows[i].idempotencyKey == key
  }

  /** uq_leituras_idemp. */
  predicate UniqueKeys(rows: seq<Leitura>) {
    forall i, j :: 0 <= i < j < |rows| ==> rows[i].idempotencyKey != rows[j].idempotencyKey
  }

  predicate PresencaChecked(rows: seq<Leitura>) {
    forall i :: 0 <= i < |rows| ==> PresencaAllowed(rows[i].presenca)
  }

  /** The id column (INTEGER PRIMARY KEY): positive, assigned in increasing
      order, and the next id is one more than the largest, 1 for an empty
      table (rows are never deleted, so the largest is the last). */
  predicate IdsAssigned(t: Table) {
    && t.nextId == (if |t.rows| == 0 then 1 else t.rows[|t.rows| - 1].id + 1)
    && (forall i :: 0 <= i < |t.rows| ==> 1 <= t.rows[i].id < t.nextId)
    && (forall i, j :: 0 <= i < j < |t.rows| ==> t.rows[i].id < t.rows[j].id)
  }

  /** Both datetime columns read back without an offset. */
  predicate NaiveDatetimes(rows: seq<Leitura>) {
    forall i :: 0 <= i < |rows| ==> rows[i].timestamp.utcOffset == None && rows[i].receivedAt.utcOffset == None
  }

  /** Every constraint of the table. */
  predicate TableValid(t: Table) {
    UniqueKeys(t.rows) && PresencaChecked(t.rows) && IdsAssigned(t) && NaiveDatetimes(t.rows)
  }

  /** What `s.add(row); s.commit()` ends in. */
  datatype CommitOutcome = Committed(row: Leitura) | IntegrityError | DriverError(error: PyError)

  /** One INSERT in its own transaction: a value that cannot be bound raises
      OverflowError, a broken constraint raises IntegrityError and is rolled
      back, otherwise the row is appended with the next id and received_at set
      to the instant of the insert. */
  function Insert(t: Table, d: Draft, now: Instant): (res: (CommitOutcome, Table))
    ensures res.0.Committed? <==> Bindable(d) && !HasKey(t.rows, d.idempotencyKey) && PresencaAllowed(d.presenca)
    ensures res.0 == IntegrityError <==> Bindable(d) && (HasKey(t.rows, d.idempotencyKey) || !PresencaAllowed(d.presenca))
    ensures res.0.DriverError? ==> res.0.error == OverflowError
    ensures res.0.Committed? ==>
              && res.0.row == RowOf(d, t.nextId, now)
              && res.1 == Table(t.rows + [res.0.row], t.nextId + 1)
    ensures TableValid(t) && res.0.Committed? ==>
              forall i :: 0 <= i < |t.rows| ==> t.rows[i].id != res.0.row.id
    ensures !res.0.Committed? ==> res.1 == t
    ensures TableValid(t) ==> TableValid(res.1)
  {
    if !Bindable(d) then
      (DriverError(OverflowError), t)
    else if HasKey(t.rows, d.idempotencyKey) || !PresencaAllowed(d.presenca) then
      (IntegrityError, t)
    else
      var row := RowOf(d, t.nextId, now);
      (Committed(row), Table(t.rows + [row], t.nextId + 1))
  }

  /** `select(Leitura).where(Leitura.idempotency_key == key)`, first match. */
  function Lookup(rows: seq<Leitura>, key: string): (r: Option<Leitura>)
    ensures r.Some? <==> HasKey(rows, key)
    ensures r.Some? ==> r.value in rows && r.value.idempotencyKey == key
    decreases |rows|
  {
    if |rows| == 0 then None
    else if rows[0].idempotencyKey == key then Some(rows[0])
    else
      var r := Lookup(rows[1..], key);
      assert HasKey(rows, key) ==> HasKey(rows[1..], key) by {
        if HasKey(rows, key) {
          var i :| 0 <= i < |rows| && rows[i].idempotencyKey == key;
          assert rows[1..][i - 1].idempotencyKey == key;
        }
      }
      assert HasKey(rows[1..], key) ==> HasKey(rows, key) by {
        if HasKey(rows[1..], key) {
          var i :| 0 <= i < |rows[1..]| && rows[1..][i].idempotencyKey == key;
          assert rows[i + 1].idempotencyKey == key;
        }
      }
      r
  }

  /** With unique keys the lookup returns THE row holding the key, so
      scalar_one_or_none never sees two rows. */
  lemma LookupFindsTheRow(rows: seq<Leitura>, i: int)
    requires UniqueKeys(rows)
    requires 0 <= i < |rows|
    ensures Lookup(rows, rows[i].idempotencyKey) == Some(rows[i])
  {
  }

  /** idx_leituras_timestamp_desc and idx_leituras_device_ts are not
      unique: a row may repeat another row's device and timestamp as long as
      its key is new. */
  lemma IndexesAreNotUnique(t: Table, d: Draft, now: Instant, i: int)
    requires TableValid(t) && 0 <= i < |t.rows|
    requires d.deviceId == t.rows[i].deviceId && d.timestamp.wall == t.rows[i].timestamp.wall
    requires Bindable(d) && PresencaAllowed(d.presenca) && !HasKey(t.rows, d.idempotencyKey)
    ensures Insert(t, d, now).0.Committed?
    ensures var rows := Insert(t, d, now).1.rows;
            && rows[i].deviceId == rows[|t.rows|].deviceId
            && rows[i].timestamp == rows[|t.rows|].timestamp
            && TableValid(Insert(t, d, now).1)
  {
  }

  /** The table the store holds; its methods are the two statements the
      handlers issue in a session. */
  class Store {
    var rows: seq<Leitura>
    var nextId: int

    function State(): Table
      reads this
    {
      Table(rows, nextId)
    }

    ghost predicate Valid()
      reads this
    {
      TableValid(State())
    }

    /** `Base.metadata.create_all` on an empty database. */
    constructor ()
      ensures Valid() && State() == EMPTY
    {
      rows := [];
      nextId := 1;
    }

    /** `s.add(leitura); s.commit()`, with `s.rollback()` when the commit fails. */
    method Commit(d: Draft, now: Instant) returns (outcome: CommitOutcome)
      requires Valid()
      modifies this
      ensures Valid()
      ensures (outcome, State()) == Insert(old(State()), d, now)
      ensures outcome.Committed? ==> rows == old(rows) + [outcome.row] && outcome.row.receivedAt == AsStored(now)
      ensures !outcome.Committed? ==> rows == old(rows) && nextId == old(nextId)
    {
      ghost var expected := Insert(State(), d, now);
      if !Bindable(d) {
        outcome := DriverError(OverflowError);
      } else if HasKey(rows, d.idempotencyKey) || !PresencaAllowed(d.presenca) {
        outcome := IntegrityError;
      } else {
        var row := RowOf(d, nextId, now);
        rows := rows + [row];
        nextId := nextId + 1;
        outcome := Committed(row);
        assert State() == expected.1;
      }
    }

    /** `select(...).where(idempotency_key == key).scalar_one_or_none()`. */
    method SelectByKey(key: string) returns (r: Option<Leitura>)
      requires Valid()
      ensures r == Lookup(rows, key)
    {
      r := Lookup(rows, key);
    }
  }
}
