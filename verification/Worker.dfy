/** The worker's processor in its own form (diploma.rs, db/repository.rs), and why it is the protocol's worker. */
module Worker {
  import opened Wrappers
  import opened Text
  import opened Crypto
  import opened Token
  import opened Tables
  import opened Protocol
  import opened Repository
  import B = BatchRuns
  import P = Protocol

  /** `process_inner`, undisturbed: the registry it leaves and the result it comes to. */
  function Inner(cfg: Config, db: Db, t: Task, stamp: Stamp): (Db, Message) {
    match ReadKey(db, t)
    case HasKey(sealed) =>
      (match LookUp(db, t, sealed)
       case Looked(key, existing) => Conclude(cfg, db, t, key, existing, stamp)
       case Ready(m) => (db, m)
       case _ => (db, ErrorMessage(t, "")))
    case Ready(m) => (db, m)
    case _ => (db, ErrorMessage(t, ""))
  }

  /** `process`, undisturbed: the tables it leaves; the handler succeeds exactly if the row could be persisted. */
  function Processed(cfg: Config, db: Db, t: Task, stamp: Stamp, now: int): Db {
    var inner := Inner(cfg, db, t, stamp);
    var persisted := Persist(inner.0, inner.1, now);
    if persisted.Success? then persisted.value else inner.0
  }

  lemma InnerTouches(cfg: Config, db: Db, t: Task, stamp: Stamp)
    ensures var r := Inner(cfg, db, t, stamp); r.0 == db.(registry := r.0.registry) && KeyOf(r.1) == RowOf(t)
  {
  }

  class DiplomaProcessor {
    const cfg: Config
    const database: Database
    var results: seq<Message>

    constructor (cfg: Config, database: Database)
      ensures this.cfg == cfg && this.database == database && results == []
    {
      this.cfg, this.database := cfg, database;
      results := [];
    }

    method GetUniversityKey(vuz: Uuid) returns (sealed: Option<string>)
      ensures sealed == if vuz in database.keys then Some(database.keys[vuz]) else None
    {
      if vuz in database.keys {
        return Some(database.keys[vuz]);
      }
      return None;
    }

    method GetDiplomaByVuzAndNumber(key: RegistryKey) returns (hash: Option<string>)
      ensures hash == if key in database.registry then Some(database.registry[key].hash) else None
    {
      if key in database.registry {
        return Some(database.registry[key].hash);
      }
      return None;
    }

    method InsertDiplomaHash(key: RegistryKey, hash: string) returns (r: Result<(), DbError>)
      modifies database
      ensures Effect(old(database.Tables()), InsertHash(old(database.Tables()), key, hash), database.Tables(), r)
    {
      var tx := database.Begin();
      r := tx.InsertDiplomaHash(key, hash);
      if r.Success? {
        database.Commit(tx);
      }
    }

    /** The registry row, written last, is the only write. */
    method ProcessInner(t: Task, stamp: Stamp) returns (result: Message)
      modifies database
      ensures (database.Tables(), result) == Inner(cfg, old(database.Tables()), t, stamp)
    {
      var sealed := GetUniversityKey(t.vuz);
      if sealed.None? {
        return ErrorMessage(t, NO_KEY);
      }
      if Blank(t.student.number) {
        return ErrorMessage(t, NO_NUMBER);
      }
      var hash := cfg.hashOf(t.student, t.vuz);
      var existing := GetDiplomaByVuzAndNumber(RegistryKey(t.vuz, t.student.number));
      if existing.Some? && existing.value != hash {
        return ErrorMessage(t, OTHER_HASH);
      }
      var sk := cfg.unseal(sealed.value);
      if sk.None? {
        return ErrorMessage(t, UNREADABLE_KEY);
      }
      var token := cfg.issue(sk.value, stamp, t.student, t.vuz);
      if existing.None? {
        var inserted := InsertDiplomaHash(RegistryKey(t.vuz, t.student.number), hash);
        if inserted.Failure? {
          return ErrorMessage(t, NOT_INSERTED);
        }
      }
      return SuccessMessage(t, hash, token);
    }

    method PersistProcessingResult(m: Message, now: int) returns (r: Result<(), DbError>)
      modifies database
      ensures Effect(old(database.Tables()), Persist(old(database.Tables()), m, now), database.Tables(), r)
    {
      var tx := database.Begin();
      if KeyOf(m) in tx.tables.results {
        database.Commit(tx);
        return Success(());
      }
      var row := OkRow(m.hash, m.token);
      if m.status == Error {
        row := ErrorRow(if m.error.Some? then m.error.value else "processing error");
      }
      r := tx.StoreRow(KeyOf(m), row, now);
      if r.Success? {
        database.Commit(tx);
      }
    }

    /** The result is published only after it is persisted; a failed publish is logged and forgotten. */
    method Process(t: Task, stamp: Stamp, now: int, sent: bool) returns (ok: bool)
      modifies database, this
      ensures database.Tables() == Processed(cfg, old(database.Tables()), t, stamp, now)
      ensures var inner := Inner(cfg, old(database.Tables()), t, stamp);
              && ok == Persist(inner.0, inner.1, now).Success?
              && results == if ok && sent then old(results) + [inner.1] else old(results)
    {
      var result := ProcessInner(t, stamp);
      var persisted := PersistProcessingResult(result, now);
      if persisted.Failure? {
        return false;
      }
      if sent {
        results := results + [result];
      }
      return true;
    }
  }

  /** From a result that is ready, two more statements persist and publish it. */
  lemma ReadyFinishes(cfg: Config, w: World, id: nat, stamp: Stamp, now: int)
    requires id in w.workers && w.workers[id].stage.Ready?
    ensures var m, work := w.workers[id].stage.m, Work(id, stamp, now);
            var persisted := Persist(w.db, m, now);
            var v := P.Next(cfg, P.Next(cfg, w, work), work);
            && v.db == (if persisted.Success? then persisted.value else w.db)
            && v.results == (if persisted.Success? then w.results + [m] else w.results)
            && id !in v.workers
  {
  }

  /** The three statements before the result is ready are `process_inner`. */
  lemma InnerIsThreeStatements(cfg: Config, w: World, id: nat, stamp: Stamp, now: int)
    requires id in w.workers && w.workers[id].stage == Fetched && ValidStamp(stamp)
    ensures var t, work := w.workers[id].task, Work(id, stamp, now);
            var w1 := P.Next(cfg, w, work);
            var w2 := if w1.workers[id].stage.Ready? then w1 else P.Next(cfg, w1, work);
            var w3 := if w2.workers[id].stage.Ready? then w2 else P.Next(cfg, w2, work);
            && id in w1.workers && id in w2.workers && id in w3.workers
            && w3.workers[id] == P.Worker(t, Ready(Inner(cfg, w.db, t, stamp).1))
            && w3.db == Inner(cfg, w.db, t, stamp).0 && w3.results == w.results
  {
  }

  /** The coded processor is the protocol's worker: run to its end, the state machine leaves the tables `Process`
      leaves, and publishes the same result. */
  lemma {:induction false} ProcessIsTheProtocolWorker(cfg: Config, w: World, id: nat, stamp: Stamp, now: int)
    requires id in w.workers && w.workers[id].stage == Fetched && ValidStamp(stamp)
    ensures var t, v := w.workers[id].task, B.Worked(cfg, w, id, stamp, now, 5);
            var inner := Inner(cfg, w.db, t, stamp);
            && v.db == Processed(cfg, w.db, t, stamp, now) && id !in v.workers
            && v.results == if Persist(inner.0, inner.1, now).Success? then w.results + [inner.1] else w.results
  {
    hide P.Next;
    hide Inner;
    hide Persist;
    var work := Work(id, stamp, now);
    B.FiveStatements(cfg, w, id, stamp, now);
    InnerIsThreeStatements(cfg, w, id, stamp, now);
    var w1 := P.Next(cfg, w, work);
    var w2 := if w1.workers[id].stage.Ready? then w1 else P.Next(cfg, w1, work);
    var w3 := if w2.workers[id].stage.Ready? then w2 else P.Next(cfg, w2, work);
    ReadyFinishes(cfg, w3, id, stamp, now);
    var done := P.Next(cfg, P.Next(cfg, w3, work), work);
    B.IgnoresStranger(cfg, done, id, stamp, now);
  }
}
