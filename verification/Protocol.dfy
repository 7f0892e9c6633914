/** The diploma-issuing protocol as a state machine: uploads, the raw-task and result topics, any number of
    workers and gateway consumers, crashes, publish failures, duplicates, revocation and cascade delete.
    A persist transaction is one step here; module Transactions shows why it may be. */
module Protocol {
  import opened Wrappers
  import opened Text
  import opened Crypto
  import opened Canonical
  import opened Token
  import opened Tables
  import S = SigningKeys

  /** The pure functions a worker and a gateway run with: the diploma hash, the token, the gateway's token parser
      and the opener of sealed signing keys. */
  datatype Config = Config(
    p: Primitives,
    master: seq<byte>,
    hashOf: (Student, Uuid) -> string,
    issue: (PrivateKey, Stamp, Student, Uuid) -> string,
    parse: string -> Option<Parsed>,
    unseal: string -> Option<PrivateKey>)

  /** As deployed, with the payload key shared by the services and the master key of the sealed signing keys. */
  function Deploy(p: Primitives, key: seq<byte>, master: seq<byte>): Config {
    Config(p, master,
           (s: Student, vuz: Uuid) => IssuedHash(p, s, vuz),
           (sk: PrivateKey, t: Stamp, s: Student, vuz: Uuid) => IssueToken(p, key, sk, t, s, vuz),
           GatewayParser(p, key),
           S.Opener(p, master))
  }

  /** A message on the raw-task topic. */
  datatype Task = Task(batch: BatchId, vuz: Uuid, index: nat, student: Student)

  /** How far a worker is with its task. */
  datatype Stage =
    | Fetched                                            // next: SELECT the university's sealed key
    | HasKey(sealed: string)                             // next: derive the salt, SELECT the registered hash
    | Looked(sealed: string, existing: Option<string>)   // next: compare, sign, INSERT the hash if it is new
    | Ready(m: Message)                                  // next: the persist transaction
    | Persisted(m: Message)                              // next: publish the result

  datatype Worker = Worker(task: Task, stage: Stage)

  /** What the gateway was given; it keeps the records in memory while it publishes. */
  datatype Upload = Upload(vuz: Uuid, records: seq<Student>)

  /** `overruled`: batches failed by `FailBatch` and not closed since. `retired`: deleted universities. */
  datatype World = World(db: Db, uploads: map<BatchId, Upload>, raw: seq<Task>, results: seq<Message>,
                         workers: map<nat, Worker>, overruled: set<BatchId>, retired: set<Uuid>)

  datatype Action =
    | RegisterUniversity(vuz: Uuid, code: string, name: string)
    | RenameUniversity(vuz: Uuid, code: string, name: string)
    | UpsertKey(call: S.Call, crash: bool)            // both writes of one call; module SigningKeys lets calls overlap
    | CreateUpload(b: BatchId, vuz: Uuid, records: seq<Student>)
    | PublishTask(b: BatchId, i: nat)                 // also again and again, as a retrying producer may
    | FailUpload(b: BatchId, now: int)
    | Deliver(id: nat, offset: nat)                   // any published task, any number of times
    | Work(id: nat, stamp: Stamp, now: int)           // the worker's next database statement or publish
    | Fault(id: nat, text: string)                    // a statement before the result fails transiently
    | Crash(id: nat)                                  // also: a publish that fails, a handler that gives up
    | ApplyResult(offset: nat, now: int)              // a gateway consumer handles a published result
    | RevokeDiploma(vuz: Uuid, hash: string, now: int)
    | DeleteUniversityOf(vuz: Uuid)

  // ---- the worker ----

  const NO_KEY := "database error: no rows returned by a query that expected to return at least one row"
  const NO_NUMBER := "hashing error: diploma number must not be empty"
  const OTHER_HASH := "hashing error: diploma number already exists with another hash"
  const NOT_INSERTED := "database error: the registry row was refused"
  const UNREADABLE_KEY := "encryption error: the signing key cannot be opened"

  function SuccessMessage(t: Task, hash: string, token: string): Message {
    Message(t.batch, t.vuz, t.index, hash, Some(token), Ok, None)
  }

  function ErrorMessage(t: Task, text: string): Message {
    Message(t.batch, t.vuz, t.index, "", None, Error, Some(text))
  }

  function TaskKey(t: Task): RegistryKey {
    RegistryKey(t.vuz, t.student.number)
  }

  function RowOf(t: Task): RowKey {
    RowKey(t.batch, t.index)
  }

  function TaskHash(cfg: Config, t: Task): string {
    cfg.hashOf(t.student, t.vuz)
  }

  function ReadKey(db: Db, t: Task): Stage {
    if t.vuz in db.keys then HasKey(db.keys[t.vuz]) else Ready(ErrorMessage(t, NO_KEY))
  }

  function LookUp(db: Db, t: Task, sealed: string): Stage {
    if Blank(t.student.number) then Ready(ErrorMessage(t, NO_NUMBER))
    else Looked(sealed, if TaskKey(t) in db.registry then Some(db.registry[TaskKey(t)].hash) else None)
  }

  /** The rest of `process_inner`: its one write is the registry row, inserted last. */
  function Conclude(cfg: Config, db: Db, t: Task, sealed: string, existing: Option<string>, stamp: Stamp): (Db, Message) {
    var hash := TaskHash(cfg, t);
    var sk := cfg.unseal(sealed);
    if existing.Some? && existing.value != hash then (db, ErrorMessage(t, OTHER_HASH))
    else if sk.None? then (db, ErrorMessage(t, UNREADABLE_KEY))
    else
      var done := SuccessMessage(t, hash, cfg.issue(sk.value, stamp, t.student, t.vuz));
      if existing.Some? then (db, done)
      else match InsertHash(db, TaskKey(t), hash)
        case Success(after) => (after, done)
        case Failure(_) => (db, ErrorMessage(t, NOT_INSERTED))
  }

  function Reach(w: World, id: nat, stage: Stage): World
    requires id in w.workers
  {
    w.(workers := w.workers[id := w.workers[id].(stage := stage)])
  }

  function Leave(w: World, id: nat): World {
    w.(workers := w.workers - {id})
  }

  predicate Closed(db: Db, b: BatchId) {
    b in db.batches && db.batches[b].processed >= db.batches[b].total
  }

  /** Batches that `FailBatch` overruled and that a persisted row then closes are on their own again. */
  function Reopened(db: Db, after: Db, key: RowKey, overruled: set<BatchId>): set<BatchId> {
    if key !in db.results && Closed(after, key.batch) then overruled - {key.batch} else overruled
  }

  function DoWork(cfg: Config, w: World, id: nat, stamp: Stamp, now: int): World
    requires id in w.workers
  {
    var t := w.workers[id].task;
    match w.workers[id].stage
    case Fetched => Reach(w, id, ReadKey(w.db, t))
    case HasKey(sealed) => Reach(w, id, LookUp(w.db, t, sealed))
    case Looked(sealed, existing) =>
      if !ValidStamp(stamp) then w
      else
        var r := Conclude(cfg, w.db, t, sealed, existing, stamp);
        Reach(w, id, Ready(r.1)).(db := r.0)
    case Ready(m) =>
      var r := Persist(w.db, m, now);
      if r.Failure? then Leave(w, id)
      else Reach(w, id, Stage.Persisted(m)).(db := r.value, overruled := Reopened(w.db, r.value, KeyOf(m), w.overruled))
    case Persisted(m) => Leave(w, id).(results := w.results + [m])
  }

  // ---- all steps; a step that is not enabled changes nothing ----

  predicate CodeTaken(db: Db, code: string) {
    exists v :: v in db.universities && db.universities[v].code == code
  }

  function Renamed(universities: Universities, vuz: Uuid, code: string, name: string): Universities
    requires vuz in universities
  {
    universities[vuz := universities[vuz].(code := code, name := name)]
  }

  function ApplyAt(cfg: Config, w: World, m: Message, now: int): Db {
    var r := GatewayApply(w.db, cfg.parse, m, now);
    if r.Success? then r.value else w.db
  }

  function Next(cfg: Config, w: World, a: Action): World {
    match a
    case RegisterUniversity(vuz, code, name) =>
      if vuz in w.db.universities || vuz in w.retired || CodeTaken(w.db, code) then w
      else w.(db := w.db.(universities := w.db.universities[vuz := University(code, name, None)]))
    case RenameUniversity(vuz, code, name) =>
      if vuz !in w.db.universities || CodeTaken(w.db.(universities := w.db.universities - {vuz}), code) then w
      else w.(db := w.db.(universities := Renamed(w.db.universities, vuz, code, name)))
    case UpsertKey(call, crash) =>
      var r := S.Upsert(cfg.p, cfg.master, w.db, call, crash);
      if r.Failure? || |call.nonce| != NONCE_SIZE then w else w.(db := r.value)
    case CreateUpload(b, vuz, records) =>
      var r := CreateBatch(w.db, b, vuz, records);
      if b in w.uploads || r.Failure? then w
      else w.(db := r.value, uploads := w.uploads[b := Upload(vuz, records)])
    case PublishTask(b, i) =>
      if b !in w.uploads || i >= |w.uploads[b].records| then w
      else w.(raw := w.raw + [Task(b, w.uploads[b].vuz, i, w.uploads[b].records[i])])
    case FailUpload(b, now) =>
      if b !in w.db.batches then w
      else w.(db := FailBatch(w.db, b, now), overruled := w.overruled + {b})
    case Deliver(id, offset) =>
      if id in w.workers || offset >= |w.raw| then w
      else w.(workers := w.workers[id := Worker(w.raw[offset], Fetched)])
    case Work(id, stamp, now) => if id in w.workers then DoWork(cfg, w, id, stamp, now) else w
    case Fault(id, text) =>
      if id !in w.workers || w.workers[id].stage.Ready? || w.workers[id].stage.Persisted? then w
      else Reach(w, id, Ready(ErrorMessage(w.workers[id].task, text)))
    case Crash(id) => Leave(w, id)
    case ApplyResult(offset, now) =>
      if offset >= |w.results| then w else w.(db := ApplyAt(cfg, w, w.results[offset], now))
    case RevokeDiploma(vuz, hash, now) =>
      var r := Revoke(w.db, vuz, hash, now);
      if r.Failure? then w else w.(db := r.value)
    case DeleteUniversityOf(vuz) =>
      var r := DeleteUniversity(w.db, vuz);
      if r.Failure? then w else w.(db := r.value, retired := w.retired + {vuz})
  }

  const EMPTY := Db(map[], map[], map[], map[], map[], map[], map[])
  const INITIAL := World(EMPTY, map[], [], [], map[], {}, {})

  function Run(cfg: Config, w: World, actions: seq<Action>): World {
    if actions == [] then w else Next(cfg, Run(cfg, w, actions[..|actions| - 1]), actions[|actions| - 1])
  }
}
