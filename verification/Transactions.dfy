/** The two persist transactions run statement by statement, interleaved under Read Committed
    (section 13.2.1 of the PostgreSQL manual). Theorem: every run is serial in commit order. */
module Transactions {
  import opened Wrappers
  import opened Crypto
  import opened Tables
  import I = ProtocolInvariant
  import R = ProtocolRuns

  /** One call of either persist path: its row, what it will write, and the transaction's start time. */
  datatype Plan = Plan(key: RowKey, verdict: Verdict, now: int)

  /** The next statement of a transaction, with the uncommitted rows it has written so far.
      `registers` says that a registry row is among them. */
  datatype Stage =
    | Start                                                        // SELECT the result row FOR UPDATE
    | Found                                                        // it exists: COMMIT
    | Judging                                                      // SELECT the registry row, where there is one to check
    | Registering                                                  // INSERT the registry row
    | Inserting(row: Row, registers: bool)                         // INSERT the result row
    | Counting(row: Row, registers: bool)                          // UPDATE the counter (takes the batch row lock)
    | Tallying(row: Row, registers: bool, batch: Batch)            // SELECT counter, total and number of errors
    | Closing(row: Row, registers: bool, batch: Batch, errors: nat) // UPDATE the status of a full batch
    | Committing(row: Row, registers: bool, batch: Batch)          // COMMIT

  datatype Tx = Tx(plan: Plan, stage: Stage)

  /** Committed effects, in commit order. */
  datatype Op =
    | Persisted(plan: Plan)
    | Registered(key: RegistryKey, hash: string)
    | Created(b: BatchId, vuz: Uuid, records: seq<Student>)
    | FailedBatch(b: BatchId, now: int)
    | Revoked(vuz: Uuid, hash: string, now: int)

  datatype World = World(db: Db, txs: map<nat, Tx>, history: seq<Op>)

  datatype Action =
    | Begin(id: nat, plan: Plan)
    | Advance(id: nat)
    | Abort(id: nat)
    | Statement(op: Op)

  function OrElse(r: Result<Db, DbError>, db: Db): Db {
    if r.Success? then r.value else db
  }

  /** The same effect executed alone. */
  function Serial(db: Db, op: Op): Db {
    match op
    case Persisted(plan) => OrElse(ApplyVerdict(db, plan.key, plan.verdict, plan.now), db)
    case Registered(key, hash) => OrElse(InsertHash(db, key, hash), db)
    case Created(b, vuz, records) => if b in db.batches then db else OrElse(CreateBatch(db, b, vuz, records), db)
    case FailedBatch(b, now) => FailBatch(db, b, now)
    case Revoked(vuz, hash, now) => OrElse(Revoke(db, vuz, hash, now), db)
  }

  function SerialRun(db: Db, history: seq<Op>): Db {
    if history == [] then db else Serial(SerialRun(db, history[..|history| - 1]), history[|history| - 1])
  }

  // ---- what an unfinished transaction holds ----

  /** Its result row is in the unique index on (batch_id, record_index). */
  predicate HoldsRow(tx: Tx) {
    tx.stage.Counting? || HoldsBatch(tx)
  }

  /** It has updated the batch row and keeps it locked. */
  predicate HoldsBatch(tx: Tx) {
    tx.stage.Tallying? || tx.stage.Closing? || tx.stage.Committing?
  }

  /** Its registry row is in both unique indexes of `diploma_hashes`. */
  predicate HoldsHash(tx: Tx) {
    (tx.stage.Inserting? || HoldsRow(tx)) && tx.stage.registers && tx.plan.verdict.Register?
  }

  predicate HashConflict(tx: Tx, key: RegistryKey, hash: string) {
    HoldsHash(tx) && (tx.plan.verdict.key == key || tx.plan.verdict.hash == hash)
  }

  predicate HashBlocked(txs: map<nat, Tx>, id: Option<nat>, key: RegistryKey, hash: string) {
    exists j :: j in txs && Some(j) != id && HashConflict(txs[j], key, hash)
  }

  predicate RowBlocked(txs: map<nat, Tx>, id: nat, key: RowKey) {
    exists j :: j in txs && j != id && HoldsRow(txs[j]) && txs[j].plan.key == key
  }

  predicate BatchBlocked(txs: map<nat, Tx>, id: Option<nat>, b: BatchId) {
    exists j :: j in txs && Some(j) != id && HoldsBatch(txs[j]) && txs[j].plan.key.batch == b
  }

  // ---- steps ----

  function Stay(w: World, id: nat, stage: Stage): World
    requires id in w.txs
  {
    w.(txs := w.txs[id := w.txs[id].(stage := stage)])
  }

  function Drop(w: World, id: nat): World {
    w.(txs := w.txs - {id})
  }

  function Judge(db: Db, verdict: Verdict): Stage {
    match verdict
    case Write(row) => Inserting(row, false)
    case Register(key, hash, token) =>
      if key !in db.registry then Registering
      else if db.registry[key].hash == hash then Inserting(OkRow(hash, token), false)
      else Inserting(DUPLICATE_NUMBER, false)
  }

  /** Everything the transaction has written becomes visible at once. */
  function Publish(db: Db, tx: Tx): Db
    requires tx.stage.Committing?
  {
    var v := tx.plan.verdict;
    db.(results := db.results[tx.plan.key := tx.stage.row],
        batches := db.batches[tx.plan.key.batch := tx.stage.batch],
        registry := if HoldsHash(tx) then db.registry[v.key := Entry(v.hash, false, None)] else db.registry)
  }

  /** The next statement of transaction `id`; a statement that must wait for another transaction changes nothing,
      one that fails aborts. Each statement reads what is committed when it runs, plus its own writes. */
  function Execute(w: World, id: nat): World
    requires id in w.txs
  {
    var db, tx := w.db, w.txs[id];
    var plan := tx.plan;
    var b := plan.key.batch;
    match tx.stage
    case Start => Stay(w, id, if plan.key in db.results then Found else Judging)
    case Found => Drop(w, id).(history := w.history + [Persisted(plan)])
    case Judging => Stay(w, id, Judge(db, plan.verdict))
    case Registering =>
      if plan.verdict.Write? then Drop(w, id)
      else
        var v := plan.verdict;
        if HashBlocked(w.txs, Some(id), v.key, v.hash) then w
        else if InsertHash(db, v.key, v.hash).Failure? then Drop(w, id)
        else Stay(w, id, Inserting(OkRow(v.hash, v.token), true))
    case Inserting(row, registers) =>
      if RowBlocked(w.txs, id, plan.key) then w
      else if InsertResult(db, plan.key, row).Failure? then Drop(w, id)
      else Stay(w, id, Counting(row, registers))
    case Counting(row, registers) =>
      if BatchBlocked(w.txs, Some(id), b) then w
      else if b !in db.batches then Drop(w, id)
      else Stay(w, id, Tallying(row, registers, IncrementProcessed(db, b).batches[b]))
    case Tallying(row, registers, batch) =>
      Stay(w, id, Closing(row, registers, batch, |ErrorsOf(db.results[plan.key := row], b)|))
    case Closing(row, registers, batch, errors) =>
      Stay(w, id, Committing(row, registers, Close(batch, errors, plan.now)))
    case Committing(_, _, _) =>
      Drop(w, id).(db := Publish(db, tx), history := w.history + [Persisted(plan)])
  }

  /** A single-statement transaction of its own; it too waits for rows that others hold. */
  function Autocommit(w: World, op: Op): World {
    if op.Persisted? then w
    else if op.Registered? && HashBlocked(w.txs, None, op.key, op.hash) then w
    else if op.FailedBatch? && BatchBlocked(w.txs, None, op.b) then w
    else w.(db := Serial(w.db, op), history := w.history + [op])
  }

  function Next(w: World, a: Action): World {
    match a
    case Begin(id, plan) => if id in w.txs then w else w.(txs := w.txs[id := Tx(plan, Start)])
    case Advance(id) => if id in w.txs then Execute(w, id) else w
    case Abort(id) => Drop(w, id)
    case Statement(op) => Autocommit(w, op)
  }

  function Run(w: World, actions: seq<Action>): World {
    if actions == [] then w else Next(Run(w, actions[..|actions| - 1]), actions[|actions| - 1])
  }

  // ---- invariant ----

  /** The row a transaction is about to write is the one it would write if it ran alone now. */
  ghost predicate Judged(db: Db, verdict: Verdict, row: Row, registers: bool) {
    match verdict
    case Write(r) => row == r && !registers
    case Register(key, hash, token) =>
      if registers then InsertHash(db, key, hash).Success? && row == OkRow(hash, token)
      else key in db.registry && row == (if db.registry[key].hash == hash then OkRow(hash, token) else DUPLICATE_NUMBER)
  }

  ghost predicate TxOk(db: Db, tx: Tx) {
    var key, b := tx.plan.key, tx.plan.key.batch;
    match tx.stage
    case Start => true
    case Found => key in db.results
    case Judging => true
    case Registering => true
    case Inserting(row, registers) => Judged(db, tx.plan.verdict, row, registers)
    case Counting(row, registers) =>
      Judged(db, tx.plan.verdict, row, registers) && InsertResult(db, key, row).Success?
    case Tallying(row, registers, batch) =>
      Judged(db, tx.plan.verdict, row, registers) && InsertResult(db, key, row).Success? && batch == Bump(db.batches[b])
    case Closing(row, registers, batch, errors) =>
      && Judged(db, tx.plan.verdict, row, registers) && InsertResult(db, key, row).Success? && batch == Bump(db.batches[b])
      && errors == |ErrorsOf(db.results[key := row], b)|
    case Committing(row, registers, batch) =>
      && Judged(db, tx.plan.verdict, row, registers) && InsertResult(db, key, row).Success?
      && batch == Close(Bump(db.batches[b]), |ErrorsOf(db.results[key := row], b)|, tx.plan.now)
  }

  /** Two unfinished transactions never hold the same row, registry key, hash or batch lock. */
  predicate Apart(s: Tx, t: Tx) {
    && (HoldsRow(s) && HoldsRow(t) ==> s.plan.key != t.plan.key)
    && (HoldsBatch(s) && HoldsBatch(t) ==> s.plan.key.batch != t.plan.key.batch)
    && (HoldsHash(s) && HoldsHash(t) ==> !HashConflict(s, t.plan.verdict.key, t.plan.verdict.hash))
  }

  ghost predicate Sound(w: World) {
    && (forall i | i in w.txs :: TxOk(w.db, w.txs[i]))
    && (forall i, j | i in w.txs && j in w.txs && i != j :: Apart(w.txs[i], w.txs[j]))
  }

  ghost predicate Inv(start: Db, w: World) {
    Sound(w) && w.db == SerialRun(start, w.history)
  }

  // ---- proofs ----

  /** A transaction about to commit does what it would do alone at this moment. */
  lemma CommitIsSerial(db: Db, tx: Tx)
    requires tx.stage.Committing? && TxOk(db, tx)
    ensures Publish(db, tx) == Serial(db, Persisted(tx.plan))
  {
    var key, row := tx.plan.key, tx.stage.row;
    if HoldsHash(tx) {
      var v := tx.plan.verdict;
      var registered := InsertHash(db, v.key, v.hash).value;
      PersistRowShape(registered, key, row, tx.plan.now);
    } else {
      PersistRowShape(db, key, row, tx.plan.now);
    }
  }

  ghost predicate SameRows(r: map<RowKey, Row>, s: map<RowKey, Row>, b: BatchId) {
    forall k: RowKey {:trigger k in r} {:trigger k in s} | k.batch == b :: (k in r <==> k in s) && (k in r ==> r[k] == s[k])
  }

  /** What others may do to the tables while `tx` is unfinished. */
  ghost predicate Undisturbed(tx: Tx, db: Db, after: Db) {
    var b := tx.plan.key.batch;
    && db.universities == after.universities
    && (tx.plan.key in db.results ==> tx.plan.key in after.results)
    && (HoldsRow(tx) && tx.plan.key !in db.results ==> tx.plan.key !in after.results)
    && (b in db.batches ==> b in after.batches)
    && (HoldsBatch(tx) && b in db.batches ==> after.batches[b] == db.batches[b])
    && (HoldsBatch(tx) ==> SameRows(db.results, after.results, b))
    && (forall k | k in db.registry :: k in after.registry && after.registry[k].hash == db.registry[k].hash)
    && (HoldsHash(tx) ==> forall k | k in after.registry && k !in db.registry ::
          k != tx.plan.verdict.key && after.registry[k].hash != tx.plan.verdict.hash)
  }

  lemma UndisturbedStaysOk(tx: Tx, db: Db, after: Db)
    requires TxOk(db, tx) && Undisturbed(tx, db, after)
    ensures TxOk(after, tx)
  {
    if tx.stage.Closing? || tx.stage.Committing? {
      var key, row := tx.plan.key, tx.stage.row;
      assert ErrorsOf(after.results[key := row], key.batch) == ErrorsOf(db.results[key := row], key.batch);
    }
  }

  lemma CommitDisturbsNobody(db: Db, other: Tx, tx: Tx)
    requires other.stage.Committing? && TxOk(db, other) && Apart(other, tx)
    ensures Undisturbed(tx, db, Publish(db, other))
  {
  }

  lemma StatementDisturbsNobody(w: World, op: Op, id: nat)
    requires id in w.txs && !op.Persisted?
    requires op.Registered? ==> !HashBlocked(w.txs, None, op.key, op.hash)
    requires op.FailedBatch? ==> !BatchBlocked(w.txs, None, op.b)
    ensures Undisturbed(w.txs[id], w.db, Serial(w.db, op))
  {
    var tx := w.txs[id];
    assert op.Registered? ==> !HashConflict(tx, op.key, op.hash);
    assert op.FailedBatch? ==> !(HoldsBatch(tx) && tx.plan.key.batch == op.b);
  }

  lemma CommitKeepsInv(start: Db, w: World, id: nat)
    requires Inv(start, w) && id in w.txs && w.txs[id].stage.Committing?
    ensures Inv(start, Execute(w, id))
  {
    hide TxOk;
    hide Publish;
    hide Serial;
    hide Undisturbed;
    hide Apart;
    var tx, after := w.txs[id], Execute(w, id);
    CommitIsSerial(w.db, tx);
    HistoryGrows(start, w.history, Persisted(tx.plan));
    forall i | i in after.txs ensures TxOk(after.db, after.txs[i]) {
      CommitDisturbsNobody(w.db, tx, w.txs[i]);
      UndisturbedStaysOk(w.txs[i], w.db, after.db);
    }
  }

  /** A statement that does not commit touches neither the tables nor other transactions. */
  lemma ExecuteShape(w: World, id: nat)
    requires id in w.txs && !w.txs[id].stage.Committing?
    ensures var v := Execute(w, id);
            && v.db == w.db && v.history == (if w.txs[id].stage.Found? then w.history + [Persisted(w.txs[id].plan)] else w.history)
            && (forall i | i in v.txs :: i in w.txs && (i != id ==> v.txs[i] == w.txs[i]))
            && (w.txs[id].stage.Found? ==> id !in v.txs)
  {
  }

  lemma FoundIsSerial(db: Db, tx: Tx)
    requires tx.stage.Found? && TxOk(db, tx)
    ensures Serial(db, Persisted(tx.plan)) == db
  {
  }

  lemma ExecuteKeepsInv(start: Db, w: World, id: nat)
    requires Inv(start, w) && id in w.txs
    ensures Inv(start, Execute(w, id))
  {
    hide TxOk;
    hide Serial;
    hide Apart;
    hide Execute;
    var tx, after := w.txs[id], Execute(w, id);
    if tx.stage.Committing? {
      CommitKeepsInv(start, w, id);
    } else {
      ExecuteShape(w, id);
      if tx.stage.Found? {
        FoundIsSerial(w.db, tx);
        HistoryGrows(start, w.history, Persisted(tx.plan));
      } else if id in after.txs {
        AdvanceStaysOk(w, id);
        AdvanceStaysApart(w, id);
        forall i, j | i in after.txs && j in after.txs && i != j ensures Apart(after.txs[i], after.txs[j]) {
          assert Apart(w.txs[i], w.txs[j]);
        }
        forall i | i in after.txs ensures TxOk(after.db, after.txs[i]) {
          assert TxOk(w.db, w.txs[i]);
        }
      }
    }
  }

  lemma HistoryGrows(start: Db, history: seq<Op>, op: Op)
    ensures SerialRun(start, history + [op]) == Serial(SerialRun(start, history), op)
  {
    assert (history + [op])[..|history|] == history;
  }

  lemma AdvanceStaysOk(w: World, id: nat)
    requires Sound(w) && id in w.txs && id in Execute(w, id).txs
    ensures TxOk(w.db, Execute(w, id).txs[id])
  {
    hide RowBlocked;
    hide BatchBlocked;
    hide HashBlocked;
    hide ErrorsOf;
    hide Apart;
  }

  /** A statement takes a row, a lock or a hash only if no other transaction holds it. */
  lemma AdvanceAcquires(w: World, id: nat)
    requires id in w.txs && id in Execute(w, id).txs
    ensures var tx, next := w.txs[id], Execute(w, id).txs[id];
            && next.plan == tx.plan
            && (HoldsRow(next) ==> HoldsRow(tx) || !RowBlocked(w.txs, id, tx.plan.key))
            && (HoldsBatch(next) ==> HoldsBatch(tx) || !BatchBlocked(w.txs, Some(id), tx.plan.key.batch))
            && (HoldsHash(next) ==>
                  HoldsHash(tx) || !HashBlocked(w.txs, Some(id), tx.plan.verdict.key, tx.plan.verdict.hash))
  {
    hide RowBlocked;
    hide BatchBlocked;
    hide HashBlocked;
    hide InsertResult;
    hide InsertHash;
    hide Judge;
    hide IncrementProcessed;
    hide Close;
    hide ErrorsOf;
    if w.txs[id].stage.Judging? {
      JudgeHoldsNothing(w.db, w.txs[id].plan.verdict);
    }
  }

  lemma JudgeHoldsNothing(db: Db, verdict: Verdict)
    ensures Judge(db, verdict).Registering? || (Judge(db, verdict).Inserting? && !Judge(db, verdict).registers)
  {
  }

  lemma AdvanceStaysApart(w: World, id: nat)
    requires Sound(w) && id in w.txs && id in Execute(w, id).txs
    ensures forall j | j in w.txs && j != id :: Apart(Execute(w, id).txs[id], w.txs[j]) && Apart(w.txs[j], Execute(w, id).txs[id])
  {
    hide Execute;
    hide TxOk;
    hide HoldsRow;
    hide HoldsBatch;
    hide HoldsHash;
    AdvanceAcquires(w, id);
    var tx, next := w.txs[id], Execute(w, id).txs[id];
    HashNeedsRegister(tx);
    HashNeedsRegister(next);
    forall j | j in w.txs && j != id
      ensures Apart(next, w.txs[j]) && Apart(w.txs[j], next)
    {
      HashNeedsRegister(w.txs[j]);
      assert Apart(tx, w.txs[j]) && Apart(w.txs[j], tx);
    }
  }

  lemma HashNeedsRegister(tx: Tx)
    ensures HoldsHash(tx) ==> tx.plan.verdict.Register?
  {
  }

  lemma NextKeepsInv(start: Db, w: World, a: Action)
    requires Inv(start, w)
    ensures Inv(start, Next(w, a))
  {
    match a
    case Begin(id, plan) =>
    case Advance(id) =>
      if id in w.txs {
        ExecuteKeepsInv(start, w, id);
      }
    case Abort(id) =>
    case Statement(op) =>
      var after := Autocommit(w, op);
      if after != w {
        HistoryGrows(start, w.history, op);
        forall i | i in w.txs ensures TxOk(after.db, w.txs[i]) {
          StatementDisturbsNobody(w, op, i);
          UndisturbedStaysOk(w.txs[i], w.db, after.db);
        }
      }
  }

  /** Serializability: every interleaved run leaves the tables of its committed effects run one after another,
      in commit order. */
  lemma {:induction false} RunsAreSerial(start: Db, actions: seq<Action>)
    ensures Inv(start, Run(World(start, map[], []), actions))
    ensures var w := Run(World(start, map[], []), actions);
            w.db == SerialRun(start, w.history)
  {
    if actions != [] {
      var before := actions[..|actions| - 1];
      RunsAreSerial(start, before);
      NextKeepsInv(start, Run(World(start, map[], []), before), actions[|actions| - 1]);
    }
  }

  lemma SerialKeepsCounters(db: Db, op: Op)
    requires CountersOk(db.batches, db.results)
    ensures CountersOk(Serial(db, op).batches, Serial(db, op).results)
  {
    match op
    case Persisted(plan) =>
      if ApplyVerdict(db, plan.key, plan.verdict, plan.now).Success? {
        VerdictKeepsCounters(db, plan.key, plan.verdict, plan.now);
      }
    case Registered(_, _) =>
    case Created(b, vuz, records) =>
      assert b !in db.batches ==> RowsOf(db.results, b) == {};
    case FailedBatch(_, _) =>
    case Revoked(_, _, _) =>
  }

  lemma {:induction false} SerialRunKeepsCounters(db: Db, history: seq<Op>)
    requires CountersOk(db.batches, db.results)
    ensures CountersOk(SerialRun(db, history).batches, SerialRun(db, history).results)
  {
    if history != [] {
      SerialRunKeepsCounters(db, history[..|history| - 1]);
      SerialKeepsCounters(SerialRun(db, history[..|history| - 1]), history[|history| - 1]);
    }
  }

  /** In every interleaved run the transaction that closes a batch has counted every result row the batch has when
      it commits, its own included, and every error among them. */
  lemma CloserCountsEveryRow(start: Db, actions: seq<Action>, id: nat)
    requires CountersOk(start.batches, start.results)
    requires var w := Run(World(start, map[], []), actions); id in w.txs && w.txs[id].stage.Committing?
    ensures var w := Run(World(start, map[], []), actions);
            var tx := w.txs[id];
            var b, batch := tx.plan.key.batch, tx.stage.batch;
            var rows := Publish(w.db, tx).results;
            && batch.processed == |RowsOf(rows, b)|
            && (batch.processed >= batch.total ==>
                  batch.status == if ErrorsOf(rows, b) == {} then Completed else Failed)
  {
    var w := Run(World(start, map[], []), actions);
    RunsAreSerial(start, actions);
    SerialRunKeepsCounters(start, w.history);
    var tx := w.txs[id];
    AddedRow(w.db.results, tx.plan.key, tx.stage.row, tx.plan.key.batch);
  }

  // ---- a closed batch gets no further row ----

  /** The row belongs to a record of its batch. */
  predicate FitsIn(db: Db, key: RowKey) {
    key.batch in db.batches ==> key.index < db.batches[key.batch].total
  }

  predicate OpFits(db: Db, op: Op) {
    op.Persisted? ==> FitsIn(db, op.plan.key)
  }

  /** Every persisted result was for a record of its batch. */
  predicate Fitting(start: Db, history: seq<Op>) {
    if history == [] then true
    else
      var before := history[..|history| - 1];
      Fitting(start, before) && OpFits(SerialRun(start, before), history[|history| - 1])
  }

  /** How a persist transaction leaves the tables: as they were, or with the one row and its batch counted. */
  lemma VerdictShape(db: Db, key: RowKey, verdict: Verdict, now: int) returns (row: Row)
    requires ApplyVerdict(db, key, verdict, now).Success? && key !in db.results
    ensures var after := ApplyVerdict(db, key, verdict, now).value;
            && key.batch in db.batches && after.results == db.results[key := row]
            && after.batches == db.batches[key.batch := Close(Bump(db.batches[key.batch]), |ErrorsOf(after.results, key.batch)|, now)]
  {
    match verdict
    case Write(r) =>
      row := r;
      PersistRowShape(db, key, row, now);
    case Register(k, hash, token) =>
      if k in db.registry {
        row := if db.registry[k].hash == hash then OkRow(hash, token) else DUPLICATE_NUMBER;
        PersistRowShape(db, key, row, now);
      } else {
        row := OkRow(hash, token);
        PersistRowShape(InsertHash(db, k, hash).value, key, row, now);
      }
  }

  lemma VerdictKeepsIndexes(db: Db, key: RowKey, verdict: Verdict, now: int)
    requires I.IndexesOk(db.results, db.batches) && FitsIn(db, key) && ApplyVerdict(db, key, verdict, now).Success?
    ensures var after := ApplyVerdict(db, key, verdict, now).value; I.IndexesOk(after.results, after.batches)
  {
    hide ApplyVerdict;
    if key in db.results {
      AlreadyThere(db, key, verdict, now);
    } else {
      var row := VerdictShape(db, key, verdict, now);
    }
  }

  lemma AlreadyThere(db: Db, key: RowKey, verdict: Verdict, now: int)
    requires key in db.results
    ensures ApplyVerdict(db, key, verdict, now) == Success(db)
  {
  }

  lemma SerialKeepsIndexes(db: Db, op: Op)
    requires I.IndexesOk(db.results, db.batches) && OpFits(db, op)
    ensures I.IndexesOk(Serial(db, op).results, Serial(db, op).batches)
  {
    hide ApplyVerdict;
    if op.Persisted? && ApplyVerdict(db, op.plan.key, op.plan.verdict, op.plan.now).Success? {
      VerdictKeepsIndexes(db, op.plan.key, op.plan.verdict, op.plan.now);
    }
  }

  predicate Full(db: Db, b: BatchId) {
    b in db.batches && db.batches[b].processed >= db.batches[b].total
  }

  lemma VerdictLeavesFull(db: Db, key: RowKey, verdict: Verdict, now: int, b: BatchId)
    requires CountersOk(db.batches, db.results) && I.IndexesOk(db.results, db.batches) && FitsIn(db, key) && Full(db, b)
    requires ApplyVerdict(db, key, verdict, now).Success?
    ensures var after := ApplyVerdict(db, key, verdict, now).value; Full(after, b) && RowsOf(after.results, b) == RowsOf(db.results, b)
  {
    hide ApplyVerdict;
    if key in db.results {
      AlreadyThere(db, key, verdict, now);
    } else {
      var row := VerdictShape(db, key, verdict, now);
      if key.batch == b {
        R.RoomForRow(db, key);
      }
      AddedRow(db.results, key, row, b);
    }
  }

  lemma SerialLeavesFull(db: Db, op: Op, b: BatchId)
    requires CountersOk(db.batches, db.results) && I.IndexesOk(db.results, db.batches) && OpFits(db, op) && Full(db, b)
    ensures Full(Serial(db, op), b) && RowsOf(Serial(db, op).results, b) == RowsOf(db.results, b)
  {
    hide ApplyVerdict;
    if op.Persisted? && ApplyVerdict(db, op.plan.key, op.plan.verdict, op.plan.now).Success? {
      VerdictLeavesFull(db, op.plan.key, op.plan.verdict, op.plan.now, b);
    }
  }

  lemma {:induction false} FullStaysFull(start: Db, history: seq<Op>, n: nat, b: BatchId)
    requires CountersOk(start.batches, start.results) && I.IndexesOk(start.results, start.batches) && Fitting(start, history)
    requires n <= |history|
    ensures var db := SerialRun(start, history); I.IndexesOk(db.results, db.batches)
    ensures var before, db := SerialRun(start, history[..n]), SerialRun(start, history);
            Full(before, b) ==> Full(db, b) && RowsOf(db.results, b) == RowsOf(before.results, b)
  {
    hide Serial;
    hide CountersOk;
    hide OpFits;
    if history == [] {
      assert history[..n] == history;
    } else {
      var before, last := history[..|history| - 1], history[|history| - 1];
      FullStaysFull(start, before, if n < |history| then n else 0, b);
      SerialRunKeepsCounters(start, before);
      SerialKeepsIndexes(SerialRun(start, before), last);
      if n < |history| {
        assert before[..n] == history[..n];
        if Full(SerialRun(start, before), b) {
          SerialLeavesFull(SerialRun(start, before), last, b);
        }
      } else {
        assert history[..n] == history;
      }
    }
  }

  lemma {:induction false} HistoryOnlyGrows(w: World, actions: seq<Action>)
    ensures w.history <= Run(w, actions).history
  {
    if actions != [] {
      HistoryOnlyGrows(w, actions[..|actions| - 1]);
    }
  }

  lemma {:induction false} RunConcat(w: World, first: seq<Action>, more: seq<Action>)
    ensures Run(w, first + more) == Run(Run(w, first), more)
  {
    hide Next;
    if more == [] {
      assert first + more == first;
    } else {
      var all := first + more;
      assert all[..|all| - 1] == first + more[..|more| - 1] && all[|all| - 1] == more[|more| - 1];
      RunConcat(w, first, more[..|more| - 1]);
    }
  }

  /** Once a batch is full, no continuation of the interleaved run commits another row for it: what its closer has
      counted is every row it will ever have. */
  lemma {:induction false} ClosedForGood(start: Db, first: seq<Action>, more: seq<Action>, b: BatchId)
    requires CountersOk(start.batches, start.results) && I.IndexesOk(start.results, start.batches)
    requires Fitting(start, Run(World(start, map[], []), first + more).history)
    requires Full(Run(World(start, map[], []), first).db, b)
    ensures var w, v := Run(World(start, map[], []), first), Run(World(start, map[], []), first + more);
            Full(v.db, b) && RowsOf(v.db.results, b) == RowsOf(w.db.results, b)
  {
    hide Next;
    hide Fitting;
    hide CountersOk;
    var w0 := World(start, map[], []);
    RunsAreSerial(start, first);
    RunsAreSerial(start, first + more);
    RunConcat(w0, first, more);
    HistoryOnlyGrows(Run(w0, first), more);
    var h, n := Run(w0, first + more).history, |Run(w0, first).history|;
    assert h[..n] == Run(w0, first).history;
    FullStaysFull(start, h, n, b);
  }

  /** Run transaction `id` on its own until it ends. */
  function Drive(w: World, id: nat, steps: nat): World
    decreases steps
  {
    if steps == 0 || id !in w.txs then w else Drive(Execute(w, id), id, steps - 1)
  }

  function Alone(db: Db, id: nat, plan: Plan, stage: Stage): World {
    World(db, map[id := Tx(plan, stage)], [])
  }

  function Outcome(db: Db, plan: Plan): World {
    World(Serial(db, Persisted(plan)), map[],
          if ApplyVerdict(db, plan.key, plan.verdict, plan.now).Success? then [Persisted(plan)] else [])
  }

  lemma DriveStep(db: Db, id: nat, plan: Plan, stage: Stage, next: Stage, steps: nat)
    requires steps > 0 && Execute(Alone(db, id, plan, stage), id) == Alone(db, id, plan, next)
    ensures Drive(Alone(db, id, plan, stage), id, steps) == Drive(Alone(db, id, plan, next), id, steps - 1)
  {
  }

  lemma DriveEnd(db: Db, id: nat, plan: Plan, stage: Stage, steps: nat)
    requires steps > 0 && Execute(Alone(db, id, plan, stage), id) == Outcome(db, plan)
    ensures Drive(Alone(db, id, plan, stage), id, steps) == Outcome(db, plan)
  {
  }

  lemma CommittedItEnds(db: Db, id: nat, plan: Plan, last: Stage, steps: nat)
    requires last.Committing? && TxOk(db, Tx(plan, last)) && steps > 0
    ensures Drive(Alone(db, id, plan, last), id, steps) == Outcome(db, plan)
  {
    CommitIsSerial(db, Tx(plan, last));
    VerdictSucceeds(db, plan, last.row, last.registers);
    assert Execute(Alone(db, id, plan, last), id) == Outcome(db, plan);
    DriveEnd(db, id, plan, last, steps);
  }

  lemma ClosingItEnds(db: Db, id: nat, plan: Plan, stage: Stage, steps: nat)
    requires stage.Closing? && TxOk(db, Tx(plan, stage)) && steps > 1
    ensures Drive(Alone(db, id, plan, stage), id, steps) == Outcome(db, plan)
  {
    var last := Committing(stage.row, stage.registers, Close(stage.batch, stage.errors, plan.now));
    assert Execute(Alone(db, id, plan, stage), id) == Alone(db, id, plan, last);
    DriveStep(db, id, plan, stage, last, steps);
    CommittedItEnds(db, id, plan, last, steps - 1);
  }

  lemma TallyingItEnds(db: Db, id: nat, plan: Plan, stage: Stage, steps: nat)
    requires stage.Tallying? && TxOk(db, Tx(plan, stage)) && steps > 2
    ensures Drive(Alone(db, id, plan, stage), id, steps) == Outcome(db, plan)
  {
    var errors := |ErrorsOf(db.results[plan.key := stage.row], plan.key.batch)|;
    var closing := Closing(stage.row, stage.registers, stage.batch, errors);
    assert Execute(Alone(db, id, plan, stage), id) == Alone(db, id, plan, closing);
    DriveStep(db, id, plan, stage, closing, steps);
    ClosingItEnds(db, id, plan, closing, steps - 1);
  }

  lemma InsertedItEnds(db: Db, id: nat, plan: Plan, stage: Stage, steps: nat)
    requires stage.Counting? && TxOk(db, Tx(plan, stage)) && steps > 3
    ensures Drive(Alone(db, id, plan, stage), id, steps) == Outcome(db, plan)
  {
    var tallying := Tallying(stage.row, stage.registers, Bump(db.batches[plan.key.batch]));
    assert Execute(Alone(db, id, plan, stage), id) == Alone(db, id, plan, tallying);
    DriveStep(db, id, plan, stage, tallying, steps);
    TallyingItEnds(db, id, plan, tallying, steps - 1);
  }

  lemma VerdictSucceeds(db: Db, plan: Plan, row: Row, registers: bool)
    requires plan.key !in db.results && plan.key.batch in db.batches && Judged(db, plan.verdict, row, registers)
    ensures ApplyVerdict(db, plan.key, plan.verdict, plan.now).Success?
  {
  }

  lemma JudgedItEnds(db: Db, id: nat, plan: Plan, stage: Stage, steps: nat)
    requires stage.Inserting? && TxOk(db, Tx(plan, stage)) && plan.key !in db.results && steps > 4
    ensures Drive(Alone(db, id, plan, stage), id, steps) == Outcome(db, plan)
  {
    if plan.key.batch in db.batches {
      var counting := Counting(stage.row, stage.registers);
      assert Execute(Alone(db, id, plan, stage), id) == Alone(db, id, plan, counting);
      DriveStep(db, id, plan, stage, counting, steps);
      InsertedItEnds(db, id, plan, counting, steps - 1);
    } else {
      assert Execute(Alone(db, id, plan, stage), id) == Outcome(db, plan);
      DriveEnd(db, id, plan, stage, steps);
    }
  }

  lemma RegisteringItEnds(db: Db, id: nat, plan: Plan, steps: nat)
    requires plan.key !in db.results && steps > 5
    requires plan.verdict.Register? && plan.verdict.key !in db.registry
    ensures Drive(Alone(db, id, plan, Registering), id, steps) == Outcome(db, plan)
  {
    hide Drive;
    var v := plan.verdict;
    if InsertHash(db, v.key, v.hash).Success? {
      var inserting := Inserting(OkRow(v.hash, v.token), true);
      assert Execute(Alone(db, id, plan, Registering), id) == Alone(db, id, plan, inserting);
      DriveStep(db, id, plan, Registering, inserting, steps);
      JudgedItEnds(db, id, plan, inserting, steps - 1);
    } else {
      assert Execute(Alone(db, id, plan, Registering), id) == Outcome(db, plan);
      DriveEnd(db, id, plan, Registering, steps);
    }
  }

  /** A transaction that nobody disturbs ends within eight statements: it commits its serial effect, or aborts
      and changes nothing where that effect fails. */
  lemma {:induction false} AloneItEnds(db: Db, id: nat, plan: Plan)
    ensures Drive(Alone(db, id, plan, Start), id, 8) == Outcome(db, plan)
  {
    hide Drive;
    if plan.key in db.results {
      DriveStep(db, id, plan, Start, Found, 8);
      DriveEnd(db, id, plan, Found, 7);
    } else {
      var judged := Judge(db, plan.verdict);
      DriveStep(db, id, plan, Start, Judging, 8);
      DriveStep(db, id, plan, Judging, judged, 7);
      if judged.Inserting? {
        JudgedItEnds(db, id, plan, judged, 6);
      } else {
        RegisteringItEnds(db, id, plan, 6);
      }
    }
  }
}
