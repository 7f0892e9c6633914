/** Every reachable world of the protocol keeps the invariant; what the counters, the status and the results
    topic say in all of them. */
module ProtocolRuns {
  import opened Wrappers
  import opened Crypto
  import opened Token
  import opened Tables
  import opened Protocol
  import opened ProtocolInvariant
  import S = SigningKeys
  import V = Verification

  // ---- a batch never has more rows than records ----

  function Slots(b: BatchId, n: nat): set<RowKey> {
    set i | 0 <= i < n :: RowKey(b, i)
  }

  lemma {:induction false} SlotCount(b: BatchId, n: nat)
    ensures |Slots(b, n)| == n
  {
    if n == 0 {
      assert Slots(b, 0) == {};
    } else {
      SlotCount(b, n - 1);
      assert Slots(b, n) == Slots(b, n - 1) + {RowKey(b, n - 1)};
    }
  }

  lemma Included<T>(a: set<T>, b: set<T>)
    requires a <= b
    ensures |a| <= |b|
    ensures |a| == |b| ==> a == b
  {
    assert b == a + (b - a);
  }

  /** Rows sit at indexes of records, so a batch has no more rows than records, and as many only if each has one. */
  lemma RowsFit(results: Results, batches: Batches, b: BatchId)
    requires IndexesOk(results, batches) && CountersOk(batches, results) && b in batches
    ensures RowsOf(results, b) <= Slots(b, batches[b].total)
    ensures batches[b].processed <= batches[b].total
    ensures batches[b].processed == batches[b].total <==> RowsOf(results, b) == Slots(b, batches[b].total)
  {
    forall k | k in RowsOf(results, b) ensures k in Slots(b, batches[b].total) {
      assert k == RowKey(b, k.index);
    }
    SlotCount(b, batches[b].total);
    Included(RowsOf(results, b), Slots(b, batches[b].total));
  }

  // ---- the status of each batch ----

  lemma SameStatuses(batches: Batches, results: Results, after: Batches, more: Results, overruled: set<BatchId>)
    requires StatusesOk(batches, results, overruled)
    requires forall b | b in after :: b in batches && after[b] == batches[b] && ErrorsOf(more, b) == ErrorsOf(results, b)
    ensures StatusesOk(after, more, overruled)
  {
    forall b | b in after ensures StatusOk(after[b], more, overruled, b) {
      assert StatusOk(batches[b], results, overruled, b);
    }
  }

  lemma CreateStatuses(db: Db, uploads: Uploads, retired: set<Uuid>, overruled: set<BatchId>,
                       b: BatchId, vuz: Uuid, records: seq<Student>)
    requires CatalogOk(db, uploads, retired) && StatusesOk(db.batches, db.results, overruled)
    requires b !in uploads && b !in overruled && CreateBatch(db, b, vuz, records).Success?
    ensures var after := CreateBatch(db, b, vuz, records).value; StatusesOk(after.batches, after.results, overruled)
  {
    var after := CreateBatch(db, b, vuz, records).value;
    forall c | c in after.batches ensures StatusOk(after.batches[c], after.results, overruled, c) {
      if c != b {
        assert StatusOk(db.batches[c], db.results, overruled, c);
      }
    }
  }

  lemma FailStatuses(db: Db, overruled: set<BatchId>, b: BatchId, now: int)
    requires StatusesOk(db.batches, db.results, overruled)
    ensures StatusesOk(FailBatch(db, b, now).batches, db.results, overruled + {b})
  {
    forall c | c in db.batches && c != b ensures StatusOk(db.batches[c], db.results, overruled + {b}, c) {
      assert StatusOk(db.batches[c], db.results, overruled, c);
    }
  }

  lemma DeleteStatuses(db: Db, overruled: set<BatchId>, vuz: Uuid)
    requires StatusesOk(db.batches, db.results, overruled) && DeleteUniversity(db, vuz).Success?
    ensures var after := DeleteUniversity(db, vuz).value; StatusesOk(after.batches, after.results, overruled)
  {
    var after := DeleteUniversity(db, vuz).value;
    forall b | b in after.batches ensures ErrorsOf(after.results, b) == ErrorsOf(db.results, b) {
    }
    SameStatuses(db.batches, db.results, after.batches, after.results, overruled);
  }

  lemma PersistStatus(batch: Batch, results: Results, overruled: set<BatchId>, key: RowKey, row: Row, now: int)
    requires StatusOk(batch, results, overruled, key.batch) && key !in results
    requires batch.processed < batch.total
    ensures var more := results[key := row];
            var after := Close(Bump(batch), |ErrorsOf(more, key.batch)|, now);
            && StatusOk(after, more, if after.processed < after.total then overruled else overruled - {key.batch}, key.batch)
  {
  }

  lemma PersistedStatuses(batches: Batches, results: Results, overruled: set<BatchId>, left: set<BatchId>,
                          key: RowKey, row: Row, batch: Batch)
    requires StatusesOk(batches, results, overruled) && key !in results
    requires forall b | b != key.batch :: b in overruled <==> b in left
    requires StatusOk(batch, results[key := row], left, key.batch)
    ensures StatusesOk(batches[key.batch := batch], results[key := row], left)
  {
    forall b | b in batches && b != key.batch ensures StatusOk(batches[b], results[key := row], left, b) {
      AddedRow(results, key, row, b);
      assert StatusOk(batches[b], results, overruled, b);
    }
  }

  lemma PersistStatuses(db: Db, overruled: set<BatchId>, key: RowKey, row: Row, now: int)
    requires StatusesOk(db.batches, db.results, overruled) && PersistRow(db, key, row, now).Success?
    requires key.batch in db.batches && db.batches[key.batch].processed < db.batches[key.batch].total
    ensures var after := PersistRow(db, key, row, now).value;
            StatusesOk(after.batches, after.results, Reopened(db, after, key, overruled))
  {
    var batch := Close(Bump(db.batches[key.batch]), |ErrorsOf(db.results[key := row], key.batch)|, now);
    PersistRowShape(db, key, row, now);
    PersistStatus(db.batches[key.batch], db.results, overruled, key, row, now);
    PersistedStatuses(db.batches, db.results, overruled,
                      if batch.processed < batch.total then overruled else overruled - {key.batch}, key, row, batch);
  }

  /** A record without a row leaves the counter short of the total. */
  lemma RoomForRow(db: Db, key: RowKey)
    requires IndexesOk(db.results, db.batches) && CountersOk(db.batches, db.results)
    requires key !in db.results && key.batch in db.batches && key.index < db.batches[key.batch].total
    ensures db.batches[key.batch].processed < db.batches[key.batch].total
  {
    RowsFit(db.results, db.batches, key.batch);
    assert key == RowKey(key.batch, key.index);
    assert key in Slots(key.batch, db.batches[key.batch].total);
  }

  lemma RoomLeft(db: Db, uploads: Uploads, retired: set<Uuid>, key: RowKey)
    requires CatalogOk(db, uploads, retired) && key !in db.results && key.batch in db.batches
    requires key.batch in uploads && key.index < |uploads[key.batch].records|
    ensures db.batches[key.batch].processed < db.batches[key.batch].total
  {
    RoomForRow(db, key);
  }

  // ---- one step ----

  /** What the deployment fixes: the cipher's law and the opener of sealed keys. */
  ghost predicate ConfigOk(cfg: Config) {
    LawfulCipher(cfg.p) && cfg.unseal == S.Opener(cfg.p, cfg.master)
  }

  lemma ReachKeeps(cfg: Config, w: World, id: nat, stage: Stage)
    requires Inv(cfg, w) && id in w.workers
    requires WorkerOk(cfg, w.db, w.uploads, w.workers[id].(stage := stage))
    ensures Inv(cfg, Reach(w, id, stage)) && Later(w, Reach(w, id, stage))
  {
  }

  lemma ErrorMessageOk(cfg: Config, db: Db, uploads: Uploads, t: Task, text: string)
    requires TaskOk(uploads, t)
    ensures MessageOk(cfg, db, uploads, ErrorMessage(t, text))
  {
  }

  lemma ReadKeyKeeps(cfg: Config, w: World, id: nat)
    requires Inv(cfg, w) && id in w.workers
    ensures Inv(cfg, Reach(w, id, ReadKey(w.db, w.workers[id].task))) && Later(w, Reach(w, id, ReadKey(w.db, w.workers[id].task)))
  {
    ReachKeeps(cfg, w, id, ReadKey(w.db, w.workers[id].task));
  }

  lemma LookUpKeeps(cfg: Config, w: World, id: nat)
    requires Inv(cfg, w) && id in w.workers && w.workers[id].stage.HasKey?
    ensures var v := Reach(w, id, LookUp(w.db, w.workers[id].task, w.workers[id].stage.sealed)); Inv(cfg, v) && Later(w, v)
  {
    ReachKeeps(cfg, w, id, LookUp(w.db, w.workers[id].task, w.workers[id].stage.sealed));
  }

  /** The registry row of an ok result is in the registry once `process_inner` is through. */
  lemma ConcludeMessage(cfg: Config, db: Db, uploads: Uploads, x: Worker, stamp: Stamp)
    requires x.stage.Looked? && WorkerOk(cfg, db, uploads, x) && ValidStamp(stamp)
    ensures var r := Conclude(cfg, db, x.task, x.stage.sealed, x.stage.existing, stamp);
            MessageOk(cfg, r.0, uploads, r.1) && KeyOf(r.1) == RowOf(x.task)
  {
    var t := x.task;
    var r := Conclude(cfg, db, t, x.stage.sealed, x.stage.existing, stamp);
    var sk := cfg.unseal(x.stage.sealed);
    if r.1.status == Ok && t.vuz in r.0.universities {
      assert V.KeyMatches(cfg.p, r.0.universities, t.vuz, sk.value);
      assert r.1.token == Some(cfg.issue(sk.value, stamp, t.student, t.vuz));
    }
  }

  lemma ConcludeTables(cfg: Config, w: World, x: Worker, stamp: Stamp)
    requires Inv(cfg, w) && x.stage.Looked? && WorkerOk(cfg, w.db, w.uploads, x)
    ensures var v := w.(db := Conclude(cfg, w.db, x.task, x.stage.sealed, x.stage.existing, stamp).0); Inv(cfg, v) && Later(w, v)
  {
    var t := x.task;
    var after := Conclude(cfg, w.db, t, x.stage.sealed, x.stage.existing, stamp).0;
    if after != w.db {
      InsertHashKeeps(cfg, w.db, w.uploads, w.retired, t);
      InsertTouches(w.db, TaskKey(t), TaskHash(cfg, t));
      DbStep(cfg, w, after, w.overruled);
      assert w.(db := after, overruled := w.overruled) == w.(db := after);
    } else {
      SameIsLater(w, w.(db := after));
    }
  }

  lemma InsertTouches(db: Db, key: RegistryKey, hash: string)
    requires InsertHash(db, key, hash).Success?
    ensures var after := InsertHash(db, key, hash).value; after == db.(registry := after.registry)
  {
  }

  lemma ConcludeKeeps(cfg: Config, w: World, id: nat, stamp: Stamp)
    requires Inv(cfg, w) && id in w.workers && w.workers[id].stage.Looked? && ValidStamp(stamp)
    ensures var x := w.workers[id];
            var r := Conclude(cfg, w.db, x.task, x.stage.sealed, x.stage.existing, stamp);
            var v := Reach(w, id, Ready(r.1)).(db := r.0);
            Inv(cfg, v) && Later(w, v)
  {
    var x := w.workers[id];
    var r := Conclude(cfg, w.db, x.task, x.stage.sealed, x.stage.existing, stamp);
    ConcludeMessage(cfg, w.db, w.uploads, x, stamp);
    ConcludeTables(cfg, w, x, stamp);
    ReachKeeps(cfg, w.(db := r.0), id, Ready(r.1));
    assert Reach(w, id, Ready(r.1)).(db := r.0) == Reach(w.(db := r.0), id, Ready(r.1));
  }

  lemma PersistMissing(cfg: Config, db: Db, uploads: Uploads, retired: set<Uuid>, overruled: set<BatchId>, m: Message, now: int)
    requires CatalogOk(db, uploads, retired) && StatusesOk(db.batches, db.results, overruled) && overruled <= uploads.Keys
    requires MessageOk(cfg, db, uploads, m) && KeyOf(m) !in db.results && Persist(db, m, now).Success?
    ensures var after := Persist(db, m, now).value;
            StatusesOk(after.batches, after.results, Reopened(db, after, KeyOf(m), overruled))
  {
    PersistFits(db, KeyOf(m), WorkerVerdict(m).row, now);
    RoomLeft(db, uploads, retired, KeyOf(m));
    PersistStatuses(db, overruled, KeyOf(m), WorkerVerdict(m).row, now);
  }

  lemma PersistTables(cfg: Config, w: World, m: Message, now: int)
    requires Inv(cfg, w) && MessageOk(cfg, w.db, w.uploads, m) && Persist(w.db, m, now).Success?
    ensures var after := Persist(w.db, m, now).value;
            var v := w.(db := after, overruled := Reopened(w.db, after, KeyOf(m), w.overruled));
            Inv(cfg, v) && Later(w, v)
  {
    var after := Persist(w.db, m, now).value;
    if KeyOf(m) in w.db.results {
      SameIsLater(w, w);
    } else {
      PersistKeeps(cfg, w.db, w.uploads, w.retired, m, now);
      PersistMissing(cfg, w.db, w.uploads, w.retired, w.overruled, m, now);
      PersistFits(w.db, KeyOf(m), WorkerVerdict(m).row, now);
      DbStep(cfg, w, after, Reopened(w.db, after, KeyOf(m), w.overruled));
    }
  }

  lemma PersistStep(cfg: Config, w: World, id: nat, now: int)
    requires Inv(cfg, w) && id in w.workers && w.workers[id].stage.Ready? && Persist(w.db, w.workers[id].stage.m, now).Success?
    ensures var m := w.workers[id].stage.m;
            var after := Persist(w.db, m, now).value;
            var v := Reach(w, id, Stage.Persisted(m)).(db := after, overruled := Reopened(w.db, after, KeyOf(m), w.overruled));
            Inv(cfg, v) && Later(w, v)
  {
    var m := w.workers[id].stage.m;
    var after := Persist(w.db, m, now).value;
    var left := Reopened(w.db, after, KeyOf(m), w.overruled);
    assert WorkerOk(cfg, w.db, w.uploads, w.workers[id]);
    PersistTables(cfg, w, m, now);
    PersistKeeps(cfg, w.db, w.uploads, w.retired, m, now);
    var v := w.(db := after, overruled := left);
    assert WorkerOk(cfg, v.db, v.uploads, v.workers[id]);
    ReachKeeps(cfg, v, id, Stage.Persisted(m));
    assert Reach(w, id, Stage.Persisted(m)).(db := after, overruled := left) == Reach(v, id, Stage.Persisted(m));
  }

  lemma PublishKeeps(cfg: Config, w: World, id: nat)
    requires Inv(cfg, w) && id in w.workers && w.workers[id].stage.Persisted?
    ensures var v := Leave(w, id).(results := w.results + [w.workers[id].stage.m]); Inv(cfg, v) && Later(w, v)
  {
    assert WorkerOk(cfg, w.db, w.uploads, w.workers[id]);
  }

  lemma LeaveKeeps(cfg: Config, w: World, id: nat)
    requires Inv(cfg, w)
    ensures Inv(cfg, Leave(w, id)) && Later(w, Leave(w, id))
  {
  }

  lemma DoWorkKeeps(cfg: Config, w: World, id: nat, stamp: Stamp, now: int)
    requires Inv(cfg, w) && id in w.workers
    ensures Inv(cfg, DoWork(cfg, w, id, stamp, now)) && Later(w, DoWork(cfg, w, id, stamp, now))
  {
    hide Inv;
    hide Later;
    hide Conclude;
    hide Persist;
    hide ReadKey;
    hide LookUp;
    match w.workers[id].stage
    case Fetched => ReadKeyKeeps(cfg, w, id);
    case HasKey(sealed) => LookUpKeeps(cfg, w, id);
    case Looked(sealed, existing) =>
      if ValidStamp(stamp) {
        ConcludeKeeps(cfg, w, id, stamp);
      } else {
        SameIsLater(w, w);
      }
    case Ready(m) =>
      if Persist(w.db, m, now).Success? {
        PersistStep(cfg, w, id, now);
      } else {
        LeaveKeeps(cfg, w, id);
      }
    case Persisted(m) => PublishKeeps(cfg, w, id);
  }

  /** Two persist paths: a published result already has its row (or its batch is gone), so the gateway's own
      transaction never changes a table, however often and in whatever order it handles results. */
  lemma GatewayNeverWrites(cfg: Config, w: World, offset: nat, now: int)
    requires Inv(cfg, w) && offset < |w.results|
    ensures ApplyAt(cfg, w, w.results[offset], now) == w.db
  {
    var m := w.results[offset];
    assert HasRow(w.db, m) && MessageOk(cfg, w.db, w.uploads, m);
    if m.batch !in w.db.batches {
      assert KeyOf(m) !in w.db.results;
      assert m.vuz !in w.db.universities;
    }
  }

  lemma RegisterStep(cfg: Config, w: World, vuz: Uuid, code: string, name: string)
    requires Inv(cfg, w)
    ensures Inv(cfg, Next(cfg, w, RegisterUniversity(vuz, code, name))) && Later(w, Next(cfg, w, RegisterUniversity(vuz, code, name)))
  {
    if !(vuz in w.db.universities || vuz in w.retired || CodeTaken(w.db, code)) {
      var after := w.db.(universities := w.db.universities[vuz := University(code, name, None)]);
      RegisterKeeps(cfg, w.db, w.uploads, w.retired, vuz, University(code, name, None));
      DbStep(cfg, w, after, w.overruled);
      assert w.(db := after, overruled := w.overruled) == w.(db := after);
    } else {
      SameIsLater(w, w);
    }
  }

  /** A university is entered under its own id and code, without a key, and nothing else changes; an id that was ever
      used and a code that is taken are refused. */
  lemma {:induction false} RegisteredExactly(cfg: Config, w: World, vuz: Uuid, code: string, name: string)
    ensures var v := Next(cfg, w, RegisterUniversity(vuz, code, name));
            if vuz in w.db.universities || vuz in w.retired || (exists u :: u in w.db.universities && w.db.universities[u].code == code)
            then v == w
            else v == w.(db := w.db.(universities := w.db.universities[vuz := University(code, name, None)]))
  {
    assert CodeTaken(w.db, code) <==> exists u :: u in w.db.universities && w.db.universities[u].code == code;
    hide CodeTaken;
  }

  /** A university is renamed as asked and keeps its key, and nothing else changes; a code that another one has is refused. */
  lemma {:induction false} RenamedExactly(cfg: Config, w: World, vuz: Uuid, code: string, name: string)
    ensures var v := Next(cfg, w, RenameUniversity(vuz, code, name));
            if vuz !in w.db.universities || OthersHave(w.db.universities, vuz, code) then v == w
            else v == w.(db := w.db.(universities :=
                   w.db.universities[vuz := University(code, name, w.db.universities[vuz].publicKey)]))
  {
    hide CodeTaken;
    hide OthersHave;
    TakenByOthers(w.db, vuz, code);
  }

  predicate OthersHave(universities: Universities, vuz: Uuid, code: string) {
    exists u :: u in universities && u != vuz && universities[u].code == code
  }

  lemma TakenByOthers(db: Db, vuz: Uuid, code: string)
    ensures CodeTaken(db.(universities := db.universities - {vuz}), code) <==> OthersHave(db.universities, vuz, code)
  {
    var others := db.universities - {vuz};
    if u :| u in db.universities && u != vuz && db.universities[u].code == code {
      assert u in others;
    }
  }

  /** Once a worker has its result, nothing but its own end takes it away or changes it. */
  lemma {:induction false} ResultIsFinal(cfg: Config, w: World, a: Action, id: nat)
    requires id in w.workers && (w.workers[id].stage.Ready? || w.workers[id].stage.Persisted?)
    ensures var v := Next(cfg, w, a);
            && (id in v.workers ==> v.workers[id].task == w.workers[id].task
                                    && v.workers[id].stage in {w.workers[id].stage, Persisted(w.workers[id].stage.m)})
            && (id !in v.workers ==> a == Crash(id) || (a.Work? && a.id == id))
            && (v.results != w.results && a.Work? && a.id == id ==> v.results == w.results + [w.workers[id].stage.m])
  {
    hide Persist;
    hide Conclude;
  }

  lemma RenameStep(cfg: Config, w: World, vuz: Uuid, code: string, name: string)
    requires Inv(cfg, w)
    ensures var v := Next(cfg, w, RenameUniversity(vuz, code, name)); Inv(cfg, v) && Later(w, v)
  {
    hide DbOk;
    hide Extends;
    hide NoneRevived;
    if vuz in w.db.universities && !CodeTaken(w.db.(universities := w.db.universities - {vuz}), code) {
      var after := w.db.(universities := Renamed(w.db.universities, vuz, code, name));
      RenameKeeps(cfg, w.db, w.uploads, w.retired, vuz, code, name);
      DbStep(cfg, w, after, w.overruled);
      assert w.(db := after, overruled := w.overruled) == w.(db := after);
    } else {
      SameIsLater(w, w);
    }
  }

  lemma UpsertStep(cfg: Config, w: World, call: S.Call, crash: bool)
    requires Inv(cfg, w) && ConfigOk(cfg)
    ensures Inv(cfg, Next(cfg, w, UpsertKey(call, crash))) && Later(w, Next(cfg, w, UpsertKey(call, crash)))
  {
    hide DbOk;
    hide Extends;
    hide NoneRevived;
    hide Later;
    hide S.Upsert;
    var r := S.Upsert(cfg.p, cfg.master, w.db, call, crash);
    if r.Success? && |call.nonce| == NONCE_SIZE {
      UpsertKeeps(cfg, w.db, w.uploads, w.retired, call, crash);
      UpsertTouches(cfg, w.db, call, crash);
      DbStep(cfg, w, r.value, w.overruled);
      assert w.(db := r.value, overruled := w.overruled) == w.(db := r.value);
    } else {
      SameIsLater(w, w);
    }
  }

  lemma CreateStep(cfg: Config, w: World, b: BatchId, vuz: Uuid, records: seq<Student>)
    requires Inv(cfg, w)
    ensures Inv(cfg, Next(cfg, w, CreateUpload(b, vuz, records))) && Later(w, Next(cfg, w, CreateUpload(b, vuz, records)))
  {
    hide Extends;
    hide NoneRevived;
    hide StatusesOk;
    hide MessageOk;
    hide WorkerOk;
    var r := CreateBatch(w.db, b, vuz, records);
    if b !in w.uploads && r.Success? {
      var more := w.uploads[b := Upload(vuz, records)];
      CreateKeeps(cfg, w.db, w.uploads, w.retired, b, vuz, records);
      CreateStatuses(w.db, w.uploads, w.retired, w.overruled, b, vuz, records);
      TablesStep(cfg, w, r.value, more, w.overruled, w.retired);
      forall i | 0 <= i < |w.raw| ensures TaskOk(more, w.raw[i]) {
        assert TaskOk(w.uploads, w.raw[i]);
      }
      assert w.(db := r.value, uploads := more, overruled := w.overruled, retired := w.retired)
          == w.(db := r.value, uploads := more);
    } else {
      SameIsLater(w, w);
    }
  }

  lemma KnownBatch(cfg: Config, w: World, b: BatchId)
    requires Inv(cfg, w) && b in w.db.batches
    ensures b in w.uploads
  {
  }

  lemma FailStep(cfg: Config, w: World, b: BatchId, now: int)
    requires Inv(cfg, w)
    ensures Inv(cfg, Next(cfg, w, FailUpload(b, now))) && Later(w, Next(cfg, w, FailUpload(b, now)))
  {
    hide DbOk;
    hide Extends;
    hide NoneRevived;
    hide Later;
    if b in w.db.batches {
      KnownBatch(cfg, w, b);
      var after := FailBatch(w.db, b, now);
      FailKeeps(cfg, w.db, w.uploads, w.retired, b, now);
      FailStatuses(w.db, w.overruled, b, now);
      DbStep(cfg, w, after, w.overruled + {b});
    } else {
      SameIsLater(w, w);
    }
  }

  lemma RevokeStep(cfg: Config, w: World, vuz: Uuid, hash: string, now: int)
    requires Inv(cfg, w)
    ensures Inv(cfg, Next(cfg, w, RevokeDiploma(vuz, hash, now))) && Later(w, Next(cfg, w, RevokeDiploma(vuz, hash, now)))
  {
    hide DbOk;
    hide Extends;
    hide NoneRevived;
    hide Later;
    hide Revoke;
    var r := Revoke(w.db, vuz, hash, now);
    if r.Success? {
      RevokeKeeps(cfg, w.db, w.uploads, w.retired, vuz, hash, now);
      RevokeTouches(w.db, vuz, hash, now);
      DbStep(cfg, w, r.value, w.overruled);
      assert w.(db := r.value, overruled := w.overruled) == w.(db := r.value);
    } else {
      SameIsLater(w, w);
    }
  }

  lemma DeleteStep(cfg: Config, w: World, vuz: Uuid)
    requires Inv(cfg, w)
    ensures Inv(cfg, Next(cfg, w, DeleteUniversityOf(vuz))) && Later(w, Next(cfg, w, DeleteUniversityOf(vuz)))
  {
    hide DbOk;
    hide Extends;
    hide NoneRevived;
    hide StatusesOk;
    hide MessageOk;
    hide WorkerOk;
    var r := DeleteUniversity(w.db, vuz);
    if r.Success? {
      DeleteKeeps(cfg, w.db, w.uploads, w.retired, vuz);
      DeleteStatuses(w.db, w.overruled, vuz);
      TablesStep(cfg, w, r.value, w.uploads, w.overruled, w.retired + {vuz});
      assert w.(db := r.value, uploads := w.uploads, overruled := w.overruled, retired := w.retired + {vuz})
          == w.(db := r.value, retired := w.retired + {vuz});
    } else {
      SameIsLater(w, w);
    }
  }

  lemma QueueStep(cfg: Config, w: World, a: Action)
    requires Inv(cfg, w) && (a.PublishTask? || a.Deliver?)
    ensures Inv(cfg, Next(cfg, w, a)) && Later(w, Next(cfg, w, a))
  {
    hide DbOk;
    hide StatusesOk;
    hide MessageOk;
    hide HasRow;
    hide Later;
    var v := Next(cfg, w, a);
    SameIsLater(w, v);
    assert v == w.(raw := v.raw, workers := v.workers);
  }

  lemma FaultStep(cfg: Config, w: World, id: nat, text: string)
    requires Inv(cfg, w)
    ensures Inv(cfg, Next(cfg, w, Fault(id, text))) && Later(w, Next(cfg, w, Fault(id, text)))
  {
    if id in w.workers && !w.workers[id].stage.Ready? && !w.workers[id].stage.Persisted? {
      assert WorkerOk(cfg, w.db, w.uploads, w.workers[id]);
      ErrorMessageOk(cfg, w.db, w.uploads, w.workers[id].task, text);
      ReachKeeps(cfg, w, id, Ready(ErrorMessage(w.workers[id].task, text)));
    } else {
      SameIsLater(w, w);
    }
  }

  lemma WorkStep(cfg: Config, w: World, id: nat, stamp: Stamp, now: int)
    requires Inv(cfg, w)
    ensures Inv(cfg, Next(cfg, w, Work(id, stamp, now))) && Later(w, Next(cfg, w, Work(id, stamp, now)))
  {
    if id in w.workers {
      DoWorkKeeps(cfg, w, id, stamp, now);
    } else {
      SameIsLater(w, w);
    }
  }

  lemma ApplyStep(cfg: Config, w: World, offset: nat, now: int)
    requires Inv(cfg, w)
    ensures Next(cfg, w, ApplyResult(offset, now)) == w
  {
    if offset < |w.results| {
      GatewayNeverWrites(cfg, w, offset, now);
    }
  }

  lemma {:induction false} NextKeeps(cfg: Config, w: World, a: Action)
    requires Inv(cfg, w) && ConfigOk(cfg)
    ensures Inv(cfg, Next(cfg, w, a)) && Later(w, Next(cfg, w, a))
  {
    hide Inv;
    hide Later;
    match a
    case RegisterUniversity(vuz, code, name) => RegisterStep(cfg, w, vuz, code, name);
    case RenameUniversity(vuz, code, name) => RenameStep(cfg, w, vuz, code, name);
    case UpsertKey(call, crash) => UpsertStep(cfg, w, call, crash);
    case CreateUpload(b, vuz, records) => CreateStep(cfg, w, b, vuz, records);
    case PublishTask(b, i) => QueueStep(cfg, w, a);
    case FailUpload(b, now) => FailStep(cfg, w, b, now);
    case Deliver(id, offset) => QueueStep(cfg, w, a);
    case Work(id, stamp, now) => WorkStep(cfg, w, id, stamp, now);
    case Fault(id, text) => FaultStep(cfg, w, id, text);
    case Crash(id) => LeaveKeeps(cfg, w, id);
    case ApplyResult(offset, now) =>
      ApplyStep(cfg, w, offset, now);
      SameIsLater(w, w);
    case RevokeDiploma(vuz, hash, now) => RevokeStep(cfg, w, vuz, hash, now);
    case DeleteUniversityOf(vuz) => DeleteStep(cfg, w, vuz);
  }

  // ---- whole runs ----

  /** No world comes back to a university or a batch that an earlier one lost. */
  lemma LiveThroughout(cfg: Config, u: World, v: World, w: World)
    requires Inv(cfg, u) && Inv(cfg, w) && Later(u, v) && Later(v, w)
    ensures forall x | x in u.db.universities && x in w.db.universities :: x in v.db.universities
    ensures forall b | b in u.db.batches && b in w.db.batches :: b in v.db.batches
  {
  }

  lemma KeysAndEntriesThroughout(cfg: Config, u: World, v: World, w: World)
    requires Inv(cfg, u) && Inv(cfg, w) && Later(u, v) && Later(v, w)
    ensures S.PublicKeysKept(u.db.universities, w.db.universities)
    ensures RegistryKept(u.db.registry, w.db.registry, w.db.universities)
  {
    LiveThroughout(cfg, u, v, w);
  }

  lemma RowsThroughout(cfg: Config, u: World, v: World, w: World)
    requires Inv(cfg, u) && Inv(cfg, w) && Later(u, v) && Later(v, w)
    ensures BatchesKept(u.db.batches, w.db.batches)
    ensures ResultsKept(u.db.results, w.db.results, w.db.batches)
    ensures PayloadsKept(u.db.payloads, w.db.payloads, w.db.batches)
  {
    LiveThroughout(cfg, u, v, w);
  }

  lemma LaterThroughout(cfg: Config, u: World, v: World, w: World)
    requires Inv(cfg, u) && Inv(cfg, w) && Later(u, v) && Later(v, w)
    ensures Later(u, w)
  {
    KeysAndEntriesThroughout(cfg, u, v, w);
    RowsThroughout(cfg, u, v, w);
  }

  lemma {:induction false} RunKeeps(cfg: Config, w: World, actions: seq<Action>)
    requires Inv(cfg, w) && ConfigOk(cfg)
    ensures Inv(cfg, Run(cfg, w, actions)) && Later(w, Run(cfg, w, actions))
  {
    if actions == [] {
      SameIsLater(w, w);
    } else {
      var before := Run(cfg, w, actions[..|actions| - 1]);
      RunKeeps(cfg, w, actions[..|actions| - 1]);
      NextKeeps(cfg, before, actions[|actions| - 1]);
      LaterThroughout(cfg, w, before, Run(cfg, w, actions));
    }
  }

  lemma InitialOk(cfg: Config)
    ensures Inv(cfg, INITIAL)
  {
  }

  /** Every reachable world keeps the invariant. */
  lemma {:induction false} Reachable(cfg: Config, actions: seq<Action>)
    requires ConfigOk(cfg)
    ensures Inv(cfg, Run(cfg, INITIAL, actions))
  {
    InitialOk(cfg);
    RunKeeps(cfg, INITIAL, actions);
  }

  lemma {:induction false} RunConcat(cfg: Config, w: World, first: seq<Action>, more: seq<Action>)
    ensures Run(cfg, w, first + more) == Run(cfg, Run(cfg, w, first), more)
  {
    hide Next;
    if more == [] {
      assert first + more == first;
    } else {
      var all := first + more;
      assert all[..|all| - 1] == first + more[..|more| - 1] && all[|all| - 1] == more[|more| - 1];
      RunConcat(cfg, w, first, more[..|more| - 1]);
    }
  }
}
