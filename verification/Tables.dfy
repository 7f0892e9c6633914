/** The PostgreSQL tables as maps, with the constraints of the migrations, and the statements run on them. */
module Tables {
  import opened Wrappers
  import opened Text
  import opened Crypto

  type BatchId = nat

  datatype BatchStatus = Processing | Completed | Failed

  /** A row of `batches`. */
  datatype Batch = Batch(vuz: Uuid, total: nat, processed: nat, status: BatchStatus, completedAt: Option<int>)

  /** UNIQUE(batch_id, record_index) and the primary key of `batch_record_payloads`. */
  datatype RowKey = RowKey(batch: BatchId, index: nat)

  datatype RowStatus = Ok | Error

  /** A row of `batch_results`. */
  datatype Row = Row(status: RowStatus, hash: Option<string>, token: Option<string>, error: Option<string>)

  /** UNIQUE(vuz_id, diploma_number). */
  datatype RegistryKey = RegistryKey(vuz: Uuid, number: string)

  /** A row of `diploma_hashes`; `hash` is its primary key. */
  datatype Entry = Entry(hash: string, revoked: bool, revokedAt: Option<int>)

  datatype University = University(code: string, name: string, publicKey: Option<PublicKey>)

  type Universities = map<Uuid, University>
  type Registry = map<RegistryKey, Entry>
  type Results = map<RowKey, Row>

  /** `keys` holds the sealed private keys of `university_signing_keys`. */
  datatype Db = Db(
    universities: Universities,
    keys: map<Uuid, string>,
    batches: map<BatchId, Batch>,
    payloads: map<RowKey, Student>,
    results: Results,
    registry: Registry,
    links: map<string, string>)   // a share link's token and the hash it shows

  datatype DbError = UniqueViolation | ForeignKeyViolation | NoRows

  /** A message on the results topic, and the value the worker persists. */
  datatype Message = Message(batch: BatchId, vuz: Uuid, index: nat, hash: string, token: Option<string>,
                             status: RowStatus, error: Option<string>)

  function KeyOf(m: Message): RowKey {
    RowKey(m.batch, m.index)
  }

  function OkRow(hash: string, token: Option<string>): Row {
    Row(Ok, Some(hash), token, None)
  }

  function ErrorRow(text: string): Row {
    Row(Error, None, None, Some(text))
  }

  // ---- statements ----

  function InsertResult(db: Db, key: RowKey, row: Row): Result<Db, DbError> {
    if key in db.results then Failure(UniqueViolation)
    else if key.batch !in db.batches then Failure(ForeignKeyViolation)
    else Success(db.(results := db.results[key := row]))
  }

  function Bump(batch: Batch): Batch {
    batch.(processed := batch.processed + 1)
  }

  function IncrementProcessed(db: Db, b: BatchId): Db {
    if b !in db.batches then db else db.(batches := db.batches[b := Bump(db.batches[b])])
  }

  function RowsOf(results: Results, b: BatchId): set<RowKey> {
    set k | k in results && k.batch == b
  }

  function ErrorsOf(results: Results, b: BatchId): set<RowKey> {
    set k | k in results && k.batch == b && results[k].status == Error
  }

  /** Last part of both persist paths: a full batch becomes completed or failed and keeps its first completion time. */
  function Close(batch: Batch, errors: nat, now: int): Batch {
    if batch.processed < batch.total then batch
    else batch.(status := if errors > 0 then Failed else Completed,
                completedAt := if batch.completedAt.Some? then batch.completedAt else Some(now))
  }

  function FinalizeIfComplete(db: Db, b: BatchId, now: int): Result<Db, DbError> {
    if b !in db.batches then Failure(NoRows)
    else Success(db.(batches := db.batches[b := Close(db.batches[b], |ErrorsOf(db.results, b)|, now)]))
  }

  predicate HashTaken(registry: Registry, hash: string) {
    exists k :: k in registry && registry[k].hash == hash
  }

  function InsertHash(db: Db, key: RegistryKey, hash: string): Result<Db, DbError> {
    if key in db.registry || HashTaken(db.registry, hash) then Failure(UniqueViolation)
    else if key.vuz !in db.universities then Failure(ForeignKeyViolation)
    else Success(db.(registry := db.registry[key := Entry(hash, false, None)]))
  }

  // ---- transactions ----

  /** Insert the row, count it, close the batch if it was the last: the common tail of both persist paths. */
  function PersistRow(db: Db, key: RowKey, row: Row, now: int): Result<Db, DbError> {
    var inserted :- InsertResult(db, key, row);
    FinalizeIfComplete(IncrementProcessed(inserted, key.batch), key.batch, now)
  }

  /** What a persist path writes once it knows its row is missing. */
  datatype Verdict = Write(row: Row) | Register(key: RegistryKey, hash: string, token: Option<string>)

  const DUPLICATE_NUMBER := ErrorRow("diploma number already exists")

  function ApplyVerdict(db: Db, key: RowKey, verdict: Verdict, now: int): Result<Db, DbError> {
    if key in db.results then Success(db)
    else match verdict
      case Write(row) => PersistRow(db, key, row, now)
      case Register(k, hash, token) =>
        if k in db.registry then
          PersistRow(db, key, if db.registry[k].hash == hash then OkRow(hash, token) else DUPLICATE_NUMBER, now)
        else
          var registered :- InsertHash(db, k, hash);
          PersistRow(registered, key, OkRow(hash, token), now)
  }

  /** The worker's row (`persist_processing_result`). */
  function WorkerVerdict(m: Message): Verdict {
    Write(if m.status == Ok then OkRow(m.hash, m.token)
          else ErrorRow(if m.error.Some? then m.error.value else "processing error"))
  }

  function Persist(db: Db, m: Message, now: int): Result<Db, DbError> {
    ApplyVerdict(db, KeyOf(m), WorkerVerdict(m), now)
  }

  /** What the gateway reads out of a token. */
  datatype Parsed = Parsed(vuz: string, number: string)

  function StringOrDefault(value: Option<string>, default: string): string {
    if value.None? || Blank(value.value) then default else Trim(value.value)
  }

  /** The gateway's checks before it looks at the registry (`ApplyProcessingResult`). */
  function GatewayVerdict(parse: string -> Option<Parsed>, m: Message): Verdict {
    if m.status != Ok || m.token.None? || Blank(m.hash) then Write(ErrorRow(StringOrDefault(m.error, "processing error")))
    else
      var qr := parse(m.token.value);
      if qr.None? || Blank(qr.value.number) then Write(ErrorRow("qr payload does not contain diploma number"))
      else if !Blank(qr.value.vuz) && qr.value.vuz != m.vuz then Write(ErrorRow("qr payload university mismatch"))
      else Register(RegistryKey(m.vuz, qr.value.number), m.hash, m.token)
  }

  function GatewayApply(db: Db, parse: string -> Option<Parsed>, m: Message, now: int): Result<Db, DbError> {
    ApplyVerdict(db, KeyOf(m), GatewayVerdict(parse, m), now)
  }

  function PayloadRows(b: BatchId, records: seq<Student>): map<RowKey, Student> {
    map i | 0 <= i < |records| :: RowKey(b, i) := records[i]
  }

  /** A new batch under a fresh id, with one stored payload per record. */
  function CreateBatch(db: Db, b: BatchId, vuz: Uuid, records: seq<Student>): Result<Db, DbError> {
    if vuz !in db.universities then Failure(ForeignKeyViolation)
    else Success(db.(batches := db.batches[b := Batch(vuz, |records|, 0, Processing, None)],
                     payloads := db.payloads + PayloadRows(b, records)))
  }

  function FailBatch(db: Db, b: BatchId, now: int): Db {
    if b !in db.batches then db
    else db.(batches := db.batches[b := db.batches[b].(status := Failed, completedAt := Some(now))])
  }

  function RevokeEntry(e: Entry, now: int): Entry {
    e.(revoked := true, revokedAt := Some(now))
  }

  function Revoke(db: Db, vuz: Uuid, hash: string, now: int): Result<Db, DbError> {
    if !exists k :: k in db.registry && k.vuz == vuz && db.registry[k].hash == hash then Failure(NoRows)
    else Success(db.(registry := map k | k in db.registry ::
                       if k.vuz == vuz && db.registry[k].hash == hash then RevokeEntry(db.registry[k], now)
                       else db.registry[k]))
  }

  predicate IssuedBy(registry: Registry, vuz: Uuid, hash: string) {
    exists k :: k in registry && k.vuz == vuz && registry[k].hash == hash
  }

  /** `DeleteCascade`: the share links of its diplomas, batches (with their results and payloads), registry rows, the
      university and its key. */
  function DeleteUniversity(db: Db, vuz: Uuid): Result<Db, DbError> {
    if vuz !in db.universities then Failure(NoRows)
    else
      var gone := set b | b in db.batches && db.batches[b].vuz == vuz;
      Success(Db(
        db.universities - {vuz},
        db.keys - {vuz},
        db.batches - gone,
        map k | k in db.payloads && k.batch !in gone :: db.payloads[k],
        map k | k in db.results && k.batch !in gone :: db.results[k],
        map k | k in db.registry && k.vuz != vuz :: db.registry[k],
        map t | t in db.links && !IssuedBy(db.registry, vuz, db.links[t]) :: db.links[t]))
  }

  // ---- counting rows ----

  lemma AddedRow(results: Results, key: RowKey, row: Row, b: BatchId)
    requires key !in results
    ensures RowsOf(results[key := row], b) == RowsOf(results, b) + (if key.batch == b then {key} else {})
    ensures ErrorsOf(results[key := row], b)
         == ErrorsOf(results, b) + (if key.batch == b && row.status == Error then {key} else {})
  {
  }

  /** Every batch counts its result rows, and every row belongs to a batch. */
  ghost predicate CountersOk(batches: map<BatchId, Batch>, results: Results) {
    && (forall k | k in results :: k.batch in batches)
    && (forall b | b in batches :: batches[b].processed == |RowsOf(results, b)|)
  }

  /** The committed effect of a persist path on a missing row, in one piece. */
  lemma PersistRowShape(db: Db, key: RowKey, row: Row, now: int)
    requires key !in db.results && key.batch in db.batches
    ensures var after := db.results[key := row];
            PersistRow(db, key, row, now) == Success(db.(
              results := after,
              batches := db.batches[key.batch := Close(Bump(db.batches[key.batch]), |ErrorsOf(after, key.batch)|, now)]))
  {
    var b := key.batch;
    var bumped := Bump(db.batches[b]);
    assert db.batches[b := bumped][b := Close(bumped, |ErrorsOf(db.results[key := row], b)|, now)]
        == db.batches[b := Close(bumped, |ErrorsOf(db.results[key := row], b)|, now)];
  }

  lemma PersistKeepsCounters(db: Db, key: RowKey, row: Row, now: int)
    requires CountersOk(db.batches, db.results) && PersistRow(db, key, row, now).Success?
    ensures var after := PersistRow(db, key, row, now).value; CountersOk(after.batches, after.results)
  {
    hide RowsOf;
    hide ErrorsOf;
    hide PersistRow;
    var after := PersistRow(db, key, row, now).value;
    PersistedWhere(db, key, row, now);
    PersistRowShape(db, key, row, now);
    forall b | b in after.batches ensures after.batches[b].processed == |RowsOf(after.results, b)| {
      AddedRow(db.results, key, row, b);
      NotCounted(db.results, key, b);
    }
  }

  lemma PersistedWhere(db: Db, key: RowKey, row: Row, now: int)
    requires PersistRow(db, key, row, now).Success?
    ensures key !in db.results && key.batch in db.batches
  {
  }

  lemma NotCounted(results: Results, key: RowKey, b: BatchId)
    requires key !in results
    ensures key !in RowsOf(results, b)
  {
  }

  /** Whatever is persisted, by either path, the counters stay equal to the number of rows. */
  lemma VerdictKeepsCounters(db: Db, key: RowKey, verdict: Verdict, now: int)
    requires CountersOk(db.batches, db.results) && ApplyVerdict(db, key, verdict, now).Success?
    ensures var after := ApplyVerdict(db, key, verdict, now).value; CountersOk(after.batches, after.results)
  {
    if key !in db.results {
      match verdict
      case Write(row) => PersistKeepsCounters(db, key, row, now);
      case Register(k, hash, token) =>
        if k in db.registry {
          PersistKeepsCounters(db, key, if db.registry[k].hash == hash then OkRow(hash, token) else DUPLICATE_NUMBER, now);
        } else {
          PersistKeepsCounters(InsertHash(db, k, hash).value, key, OkRow(hash, token), now);
        }
    }
  }
}
