/** What every step of the protocol keeps. */
module ProtocolInvariant {
  import opened Wrappers
  import opened Text
  import opened Crypto
  import opened Token
  import opened Tables
  import opened Protocol
  import S = SigningKeys
  import V = Verification

  type Batches = map<BatchId, Batch>
  type Payloads = map<RowKey, Student>
  type Uploads = map<BatchId, Upload>

  // ---- the tables ----

  /** Batches are those uploaded by the universities that live; a deleted university never comes back. */
  ghost predicate BatchesOk(batches: Batches, universities: Universities, uploads: Uploads, retired: set<Uuid>) {
    && (forall b | b in batches :: b in uploads && batches[b].vuz == uploads[b].vuz && batches[b].total == |uploads[b].records|)
    && (forall b | b in uploads :: if uploads[b].vuz in universities then b in batches else b !in batches && uploads[b].vuz in retired)
    && (forall v | v in universities :: v !in retired)
  }

  /** Each batch keeps every record as uploaded, at its index. */
  ghost predicate PayloadsOk(payloads: Payloads, batches: Batches, uploads: Uploads) {
    && (forall k | k in payloads :: k.batch in batches && k.batch in uploads && k.index < |uploads[k.batch].records|
                                    && payloads[k] == uploads[k.batch].records[k.index])
    && (forall k: RowKey {:trigger k in payloads} | k.batch in batches && k.index < batches[k.batch].total :: k in payloads)
  }

  ghost predicate IndexesOk(results: Results, batches: Batches) {
    forall k | k in results :: k.batch in batches && k.index < batches[k.batch].total
  }

  ghost predicate OwnersOk(registry: Registry, universities: Universities) {
    forall k | k in registry :: k.vuz in universities
  }

  /** A token the worker issued for this record with the university's own key. */
  ghost predicate Genuine(cfg: Config, universities: Universities, token: string, s: Student, vuz: Uuid) {
    exists sk, t :: ValidStamp(t) && V.KeyMatches(cfg.p, universities, vuz, sk) && token == cfg.issue(sk, t, s, vuz)
  }

  predicate IsRegistered(cfg: Config, registry: Registry, s: Student, vuz: Uuid) {
    RegistryKey(vuz, s.number) in registry && registry[RegistryKey(vuz, s.number)].hash == cfg.hashOf(s, vuz)
  }

  ghost predicate Issuance(cfg: Config, universities: Universities, registry: Registry,
                           hash: string, token: Option<string>, s: Student, vuz: Uuid) {
    && !Blank(s.number) && hash == cfg.hashOf(s, vuz)
    && token.Some? && Genuine(cfg, universities, token.value, s, vuz) && IsRegistered(cfg, registry, s, vuz)
  }

  /** An ok result row holds the hash and a token of the record uploaded at its index, and the hash is registered;
      an error row holds no token. */
  ghost predicate RowOk(cfg: Config, db: Db, k: RowKey)
    requires k in db.results
  {
    var row := db.results[k];
    if row.status == Error then row.token.None?
    else
      && k in db.payloads && k.batch in db.batches && row.hash.Some?
      && Issuance(cfg, db.universities, db.registry, row.hash.value, row.token, db.payloads[k], db.batches[k.batch].vuz)
  }

  ghost predicate RowsOk(cfg: Config, db: Db) {
    forall k | k in db.results :: RowOk(cfg, db, k)
  }

  ghost predicate IsOrigin(cfg: Config, uploads: Uploads, b: BatchId, i: nat, k: RegistryKey, hash: string) {
    && b in uploads && i < |uploads[b].records| && uploads[b].vuz == k.vuz
    && uploads[b].records[i].number == k.number && hash == cfg.hashOf(uploads[b].records[i], k.vuz)
  }

  /** Every registered hash is the hash of an uploaded record with that university and number. */
  ghost predicate OriginsOk(cfg: Config, registry: Registry, uploads: Uploads) {
    forall k | k in registry :: !Blank(k.number) && exists b, i :: IsOrigin(cfg, uploads, b, i, k, registry[k].hash)
  }

  ghost predicate CatalogOk(db: Db, uploads: Uploads, retired: set<Uuid>) {
    && BatchesOk(db.batches, db.universities, uploads, retired)
    && PayloadsOk(db.payloads, db.batches, uploads)
    && IndexesOk(db.results, db.batches)
    && CountersOk(db.batches, db.results)
    && OwnersOk(db.registry, db.universities)
  }

  ghost predicate DbOk(cfg: Config, db: Db, uploads: Uploads, retired: set<Uuid>) {
    && CatalogOk(db, uploads, retired)
    && OriginsOk(cfg, db.registry, uploads)
    && V.UniqueHashes(db.registry)
    && V.UniqueCodes(db.universities)
    && S.KeysOk(cfg.p, cfg.unseal, db.universities, db.keys)
    && RowsOk(cfg, db)
  }

  // ---- messages and workers ----

  ghost predicate TaskOk(uploads: Uploads, t: Task) {
    && t.batch in uploads && t.index < |uploads[t.batch].records|
    && t.vuz == uploads[t.batch].vuz && t.student == uploads[t.batch].records[t.index]
  }

  /** A result names its task; an ok result is an issuance, as long as the university lives. */
  ghost predicate MessageOk(cfg: Config, db: Db, uploads: Uploads, m: Message) {
    && m.batch in uploads && m.index < |uploads[m.batch].records| && m.vuz == uploads[m.batch].vuz
    && (m.status == Ok && m.vuz in db.universities ==>
          Issuance(cfg, db.universities, db.registry, m.hash, m.token, uploads[m.batch].records[m.index], m.vuz))
  }

  /** A published or persisted result has its row, unless its batch is gone. */
  predicate HasRow(db: Db, m: Message) {
    m.batch in db.batches ==> KeyOf(m) in db.results
  }

  ghost predicate SealedOk(cfg: Config, universities: Universities, vuz: Uuid, sealed: string) {
    vuz in universities ==>
      cfg.unseal(sealed).Some?
      && V.KeyMatches(cfg.p, universities, vuz, cfg.unseal(sealed).value)
  }

  ghost predicate WorkerOk(cfg: Config, db: Db, uploads: Uploads, x: Worker) {
    && TaskOk(uploads, x.task)
    && match x.stage
       case Fetched => true
       case HasKey(sealed) => SealedOk(cfg, db.universities, x.task.vuz, sealed)
       case Looked(sealed, existing) =>
         && SealedOk(cfg, db.universities, x.task.vuz, sealed) && !Blank(x.task.student.number)
         && (existing.Some? && x.task.vuz in db.universities ==>
               TaskKey(x.task) in db.registry && db.registry[TaskKey(x.task)].hash == existing.value)
       case Ready(m) => MessageOk(cfg, db, uploads, m) && KeyOf(m) == RowOf(x.task)
       case Persisted(m) => MessageOk(cfg, db, uploads, m) && KeyOf(m) == RowOf(x.task) && HasRow(db, m)
  }

  /** The status says where the batch stands. */
  predicate Truthful(batch: Batch, results: Results, b: BatchId) {
    batch.status == if batch.processed < batch.total then Processing
                    else if ErrorsOf(results, b) == {} then Completed else Failed
  }

  /** A non-empty batch is truthful unless `FailBatch` had the last word; an empty one is never closed. */
  predicate StatusOk(batch: Batch, results: Results, overruled: set<BatchId>, b: BatchId) {
    if b in overruled then batch.status == Failed
    else if batch.total == 0 then batch.status == Processing
    else Truthful(batch, results, b)
  }

  ghost predicate StatusesOk(batches: Batches, results: Results, overruled: set<BatchId>) {
    forall b | b in batches :: StatusOk(batches[b], results, overruled, b)
  }

  ghost predicate Inv(cfg: Config, w: World) {
    && DbOk(cfg, w.db, w.uploads, w.retired)
    && StatusesOk(w.db.batches, w.db.results, w.overruled)
    && w.overruled <= w.uploads.Keys
    && (forall i | 0 <= i < |w.raw| :: TaskOk(w.uploads, w.raw[i]))
    && (forall i | 0 <= i < |w.results| :: MessageOk(cfg, w.db, w.uploads, w.results[i]) && HasRow(w.db, w.results[i]))
    && (forall id | id in w.workers :: WorkerOk(cfg, w.db, w.uploads, w.workers[id]))
  }

  // ---- how the tables may change ----

  ghost predicate RegistryKept(registry: Registry, after: Registry, universities: Universities) {
    forall k | k in registry && k.vuz in universities ::
      k in after && after[k].hash == registry[k].hash && (registry[k].revoked ==> after[k].revoked)
  }

  ghost predicate BatchesKept(batches: Batches, after: Batches) {
    forall b | b in batches && b in after :: after[b].vuz == batches[b].vuz && after[b].total == batches[b].total
  }

  ghost predicate ResultsKept(results: Results, after: Results, batches: Batches) {
    forall k | k in results && k.batch in batches :: k in after && after[k] == results[k]
  }

  ghost predicate PayloadsKept(payloads: Payloads, after: Payloads, batches: Batches) {
    forall k | k in payloads && k.batch in batches :: k in after && after[k] == payloads[k]
  }

  /** Nothing that survives changes: public keys, registered hashes, revocations, rows, records. */
  ghost predicate Extends(db: Db, after: Db) {
    && S.PublicKeysKept(db.universities, after.universities)
    && RegistryKept(db.registry, after.registry, after.universities)
    && BatchesKept(db.batches, after.batches)
    && ResultsKept(db.results, after.results, after.batches)
    && PayloadsKept(db.payloads, after.payloads, after.batches)
  }

  lemma SameTables(db: Db, after: Db)
    ensures db.universities == after.universities ==> S.PublicKeysKept(db.universities, after.universities)
    ensures db.registry == after.registry ==> RegistryKept(db.registry, after.registry, after.universities)
    ensures db.batches == after.batches ==> BatchesKept(db.batches, after.batches)
    ensures db.results == after.results ==> ResultsKept(db.results, after.results, after.batches)
    ensures db.payloads == after.payloads ==> PayloadsKept(db.payloads, after.payloads, after.batches)
  {
  }

  ghost predicate Grows(uploads: Uploads, more: Uploads) {
    forall b | b in uploads :: b in more && more[b] == uploads[b]
  }

  /** What published tasks refer to is not revived: university and batch ids are not reused. */
  ghost predicate NoneRevived(db: Db, after: Db, uploads: Uploads) {
    forall b | b in uploads ::
      (uploads[b].vuz in after.universities ==> uploads[b].vuz in db.universities) && (b in after.batches ==> b in db.batches)
  }

  /** A university that is gone is retired. */
  ghost predicate Departed(universities: Universities, after: Universities, retired: set<Uuid>) {
    forall v | v in universities :: v in after || v in retired
  }

  /** What every later world owes an earlier one. */
  ghost predicate Later(w: World, v: World) {
    && Extends(w.db, v.db) && Grows(w.uploads, v.uploads) && NoneRevived(w.db, v.db, w.uploads)
    && Departed(w.db.universities, v.db.universities, v.retired) && w.retired <= v.retired
  }

  lemma SameIsLater(w: World, v: World)
    requires v.db == w.db && v.uploads == w.uploads && v.retired == w.retired
    ensures Later(w, v)
  {
    SameTables(w.db, v.db);
  }

  lemma IssuanceStays(cfg: Config, db: Db, after: Db, hash: string, token: Option<string>, s: Student, vuz: Uuid)
    requires Issuance(cfg, db.universities, db.registry, hash, token, s, vuz)
    requires S.PublicKeysKept(db.universities, after.universities)
    requires RegistryKept(db.registry, after.registry, after.universities) && vuz in after.universities
    ensures Issuance(cfg, after.universities, after.registry, hash, token, s, vuz)
  {
    var sk, t :| ValidStamp(t) && V.KeyMatches(cfg.p, db.universities, vuz, sk) && token.value == cfg.issue(sk, t, s, vuz);
    assert V.KeyMatches(cfg.p, after.universities, vuz, sk);
  }

  lemma MessageStays(cfg: Config, db: Db, after: Db, uploads: Uploads, more: Uploads, m: Message)
    requires MessageOk(cfg, db, uploads, m) && Extends(db, after) && Grows(uploads, more) && NoneRevived(db, after, uploads)
    ensures MessageOk(cfg, after, more, m)
    ensures HasRow(db, m) ==> HasRow(after, m)
  {
    if m.status == Ok && m.vuz in after.universities {
      IssuanceStays(cfg, db, after, m.hash, m.token, uploads[m.batch].records[m.index], m.vuz);
    }
  }

  lemma WorkerStays(cfg: Config, db: Db, after: Db, uploads: Uploads, more: Uploads, x: Worker)
    requires WorkerOk(cfg, db, uploads, x) && Extends(db, after) && Grows(uploads, more) && NoneRevived(db, after, uploads)
    ensures WorkerOk(cfg, after, more, x)
  {
    if x.stage.Ready? || x.stage.Persisted? {
      MessageStays(cfg, db, after, uploads, more, x.stage.m);
    }
  }

  /** A change to the tables keeps the invariant if it keeps the tables' own part of it. */
  lemma TablesStep(cfg: Config, w: World, after: Db, more: Uploads, overruled: set<BatchId>, retired: set<Uuid>)
    requires Inv(cfg, w)
    requires DbOk(cfg, after, more, retired) && StatusesOk(after.batches, after.results, overruled) && overruled <= more.Keys
    requires Extends(w.db, after) && Grows(w.uploads, more) && NoneRevived(w.db, after, w.uploads)
    requires Departed(w.db.universities, after.universities, retired) && w.retired <= retired
    ensures var v := w.(db := after, uploads := more, overruled := overruled, retired := retired); Inv(cfg, v) && Later(w, v)
  {
    forall i | 0 <= i < |w.results| ensures MessageOk(cfg, after, more, w.results[i]) && HasRow(after, w.results[i]) {
      MessageStays(cfg, w.db, after, w.uploads, more, w.results[i]);
    }
    forall id | id in w.workers ensures WorkerOk(cfg, after, more, w.workers[id]) {
      WorkerStays(cfg, w.db, after, w.uploads, more, w.workers[id]);
    }
  }

  lemma DbStep(cfg: Config, w: World, after: Db, overruled: set<BatchId>)
    requires Inv(cfg, w)
    requires DbOk(cfg, after, w.uploads, w.retired) && StatusesOk(after.batches, after.results, overruled)
    requires overruled <= w.uploads.Keys && w.db.universities.Keys <= after.universities.Keys
    requires Extends(w.db, after) && NoneRevived(w.db, after, w.uploads)
    ensures var v := w.(db := after, overruled := overruled); Inv(cfg, v) && Later(w, v)
  {
    TablesStep(cfg, w, after, w.uploads, overruled, w.retired);
    assert w.(db := after, uploads := w.uploads, overruled := overruled, retired := w.retired) == w.(db := after, overruled := overruled);
  }

  lemma RowsStay(cfg: Config, db: Db, after: Db, uploads: Uploads, retired: set<Uuid>)
    requires RowsOk(cfg, db) && Extends(db, after)
    requires BatchesOk(after.batches, after.universities, uploads, retired) && IndexesOk(after.results, after.batches)
    ensures forall k | k in after.results && k in db.results :: RowOk(cfg, after, k)
  {
    forall k | k in after.results && k in db.results ensures RowOk(cfg, after, k) {
      assert RowOk(cfg, db, k);
      if db.results[k].status == Ok {
        IssuanceStays(cfg, db, after, db.results[k].hash.value, db.results[k].token, db.payloads[k], db.batches[k.batch].vuz);
      }
    }
  }

  lemma OriginsStay(cfg: Config, registry: Registry, uploads: Uploads, more: Uploads)
    requires OriginsOk(cfg, registry, uploads) && Grows(uploads, more)
    ensures OriginsOk(cfg, registry, more)
  {
    forall k | k in registry ensures exists b, i :: IsOrigin(cfg, more, b, i, k, registry[k].hash) {
      var b, i :| IsOrigin(cfg, uploads, b, i, k, registry[k].hash);
      assert IsOrigin(cfg, more, b, i, k, registry[k].hash);
    }
  }

  // ---- the tables, statement by statement ----

  lemma RegisterKeeps(cfg: Config, db: Db, uploads: Uploads, retired: set<Uuid>, vuz: Uuid, u: University)
    requires DbOk(cfg, db, uploads, retired)
    requires vuz !in db.universities && vuz !in retired && !CodeTaken(db, u.code) && u.publicKey.None?
    ensures var after := db.(universities := db.universities[vuz := u]);
            DbOk(cfg, after, uploads, retired) && Extends(db, after) && NoneRevived(db, after, uploads)
  {
    var after := db.(universities := db.universities[vuz := u]);
    RegisterKeepsKeys(cfg, db, vuz, u);
    RowsStay(cfg, db, after, uploads, retired);
  }

  lemma RegisterKeepsKeys(cfg: Config, db: Db, vuz: Uuid, u: University)
    requires vuz !in db.universities && S.KeysOk(cfg.p, cfg.unseal, db.universities, db.keys)
    ensures S.KeysOk(cfg.p, cfg.unseal, db.universities[vuz := u], db.keys)
  {
  }

  lemma RenameKeeps(cfg: Config, db: Db, uploads: Uploads, retired: set<Uuid>, vuz: Uuid, code: string, name: string)
    requires DbOk(cfg, db, uploads, retired) && vuz in db.universities
    requires !CodeTaken(db.(universities := db.universities - {vuz}), code)
    ensures var after := db.(universities := Renamed(db.universities, vuz, code, name));
            DbOk(cfg, after, uploads, retired) && Extends(db, after) && NoneRevived(db, after, uploads)
  {
    hide CatalogOk;
    hide RowOk;
    hide OriginsOk;
    hide V.UniqueCodes;
    hide S.KeysOk;
    var after := db.(universities := Renamed(db.universities, vuz, code, name));
    RenameKeepsCatalog(db, uploads, retired, vuz, code, name);
    RenameKeepsKeys(cfg, db, vuz, code, name);
    RenameKeepsCodes(db, vuz, code, name);
    CatalogRowsStay(cfg, db, after, uploads, retired);
  }

  lemma RenameKeepsCatalog(db: Db, uploads: Uploads, retired: set<Uuid>, vuz: Uuid, code: string, name: string)
    requires CatalogOk(db, uploads, retired) && vuz in db.universities
    ensures var after := db.(universities := Renamed(db.universities, vuz, code, name));
            CatalogOk(after, uploads, retired) && Extends(db, after)
  {
    hide PayloadsOk;
    hide IndexesOk;
    hide CountersOk;
    SameTables(db, db.(universities := Renamed(db.universities, vuz, code, name)));
  }

  lemma RenameKeepsKeys(cfg: Config, db: Db, vuz: Uuid, code: string, name: string)
    requires S.KeysOk(cfg.p, cfg.unseal, db.universities, db.keys) && vuz in db.universities
    ensures S.KeysOk(cfg.p, cfg.unseal, Renamed(db.universities, vuz, code, name), db.keys)
  {
  }

  lemma RenameKeepsCodes(db: Db, vuz: Uuid, code: string, name: string)
    requires V.UniqueCodes(db.universities) && vuz in db.universities
    requires !CodeTaken(db.(universities := db.universities - {vuz}), code)
    ensures V.UniqueCodes(Renamed(db.universities, vuz, code, name))
  {
    var others := db.(universities := db.universities - {vuz});
    forall v | v in others.universities ensures db.universities[v].code != code {
      assert others.universities[v].code == db.universities[v].code;
    }
  }

  lemma UpsertKeeps(cfg: Config, db: Db, uploads: Uploads, retired: set<Uuid>, call: S.Call, crash: bool)
    requires LawfulCipher(cfg.p) && cfg.unseal == S.Opener(cfg.p, cfg.master)
    requires |call.nonce| == NONCE_SIZE && DbOk(cfg, db, uploads, retired)
    requires S.Upsert(cfg.p, cfg.master, db, call, crash).Success?
    ensures var after := S.Upsert(cfg.p, cfg.master, db, call, crash).value;
            DbOk(cfg, after, uploads, retired) && Extends(db, after) && NoneRevived(db, after, uploads)
  {
    var after := S.Upsert(cfg.p, cfg.master, db, call, crash).value;
    S.UpsertKeepsKeys(cfg.p, cfg.master, db, call, crash);
    UpsertTouches(cfg, db, call, crash);
    RowsStay(cfg, db, after, uploads, retired);
  }

  /** `Upsert` touches keys only. */
  lemma UpsertTouches(cfg: Config, db: Db, call: S.Call, crash: bool)
    requires S.Upsert(cfg.p, cfg.master, db, call, crash).Success?
    ensures var after := S.Upsert(cfg.p, cfg.master, db, call, crash).value;
            && after.batches == db.batches && after.payloads == db.payloads
            && after.results == db.results && after.registry == db.registry
            && after.universities.Keys == db.universities.Keys
            && forall v | v in db.universities :: after.universities[v].code == db.universities[v].code
  {
    hide S.WritePublic;
    hide S.WritePrivate;
    hide S.ReadUniversity;
    WritesTouch(cfg, db, call);
    WritesTouch(cfg, S.WritePublic(cfg.p, db, call), call);
  }

  lemma WritesTouch(cfg: Config, db: Db, call: S.Call)
    ensures var after := S.WritePrivate(cfg.p, cfg.master, db, call); after == db.(keys := after.keys)
    ensures var after := S.WritePublic(cfg.p, db, call);
            && after == db.(universities := after.universities) && after.universities.Keys == db.universities.Keys
            && forall v | v in db.universities :: after.universities[v].code == db.universities[v].code
  {
    hide S.Seal;
  }

  lemma CreateFits(db: Db, uploads: Uploads, retired: set<Uuid>, b: BatchId, vuz: Uuid, records: seq<Student>)
    requires BatchesOk(db.batches, db.universities, uploads, retired)
    requires b !in uploads && CreateBatch(db, b, vuz, records).Success?
    ensures var after, more := CreateBatch(db, b, vuz, records).value, uploads[b := Upload(vuz, records)];
            BatchesOk(after.batches, after.universities, more, retired)
  {
  }

  lemma CreateStores(db: Db, uploads: Uploads, b: BatchId, vuz: Uuid, records: seq<Student>)
    requires PayloadsOk(db.payloads, db.batches, uploads) && b !in uploads && b !in db.batches
    requires CreateBatch(db, b, vuz, records).Success?
    ensures var after, more := CreateBatch(db, b, vuz, records).value, uploads[b := Upload(vuz, records)];
            PayloadsOk(after.payloads, after.batches, more)
  {
  }

  lemma CreateCounts(db: Db, uploads: Uploads, retired: set<Uuid>, b: BatchId, vuz: Uuid, records: seq<Student>)
    requires CatalogOk(db, uploads, retired) && b !in uploads && CreateBatch(db, b, vuz, records).Success?
    ensures var after := CreateBatch(db, b, vuz, records).value;
            && IndexesOk(after.results, after.batches) && CountersOk(after.batches, after.results)
            && BatchesKept(db.batches, after.batches) && PayloadsKept(db.payloads, after.payloads, after.batches)
  {
    assert RowsOf(db.results, b) == {};
  }

  lemma CreateCatalog(db: Db, uploads: Uploads, retired: set<Uuid>, b: BatchId, vuz: Uuid, records: seq<Student>)
    requires CatalogOk(db, uploads, retired) && b !in uploads && CreateBatch(db, b, vuz, records).Success?
    ensures var after, more := CreateBatch(db, b, vuz, records).value, uploads[b := Upload(vuz, records)];
            CatalogOk(after, more, retired) && Extends(db, after) && NoneRevived(db, after, uploads)
  {
    hide PayloadsOk;
    hide IndexesOk;
    hide CountersOk;
    hide PayloadsKept;
    CreateFits(db, uploads, retired, b, vuz, records);
    CreateStores(db, uploads, b, vuz, records);
    CreateCounts(db, uploads, retired, b, vuz, records);
    SameTables(db, CreateBatch(db, b, vuz, records).value);
  }

  lemma CreateKeeps(cfg: Config, db: Db, uploads: Uploads, retired: set<Uuid>, b: BatchId, vuz: Uuid, records: seq<Student>)
    requires DbOk(cfg, db, uploads, retired) && b !in uploads && CreateBatch(db, b, vuz, records).Success?
    ensures var after, more := CreateBatch(db, b, vuz, records).value, uploads[b := Upload(vuz, records)];
            DbOk(cfg, after, more, retired) && Extends(db, after) && NoneRevived(db, after, uploads)
  {
    hide CatalogOk;
    hide Extends;
    hide RowOk;
    hide OriginsOk;
    hide PayloadRows;
    var after, more := CreateBatch(db, b, vuz, records).value, uploads[b := Upload(vuz, records)];
    CreateCatalog(db, uploads, retired, b, vuz, records);
    CatalogRowsStay(cfg, db, after, more, retired);
    assert Grows(uploads, more);
    OriginsStay(cfg, db.registry, uploads, more);
  }

  /** Only status and counters of batches differ. */
  ghost predicate SameBatches(batches: Batches, after: Batches) {
    after.Keys == batches.Keys && BatchesKept(batches, after)
  }

  lemma SameBatchesFit(db: Db, uploads: Uploads, retired: set<Uuid>, after: Batches)
    requires CatalogOk(db, uploads, retired) && SameBatches(db.batches, after)
    ensures BatchesOk(after, db.universities, uploads, retired) && PayloadsOk(db.payloads, after, uploads)
    ensures IndexesOk(db.results, after)
  {
  }

  lemma FailTouches(db: Db, b: BatchId, now: int)
    ensures var after := FailBatch(db, b, now);
            && after == db.(batches := after.batches) && SameBatches(db.batches, after.batches)
            && forall c | c in db.batches :: after.batches[c].processed == db.batches[c].processed
  {
  }

  lemma FailFits(db: Db, b: BatchId, now: int)
    requires CountersOk(db.batches, db.results)
    ensures var after := FailBatch(db, b, now);
            SameBatches(db.batches, after.batches) && CountersOk(after.batches, after.results)
  {
    hide RowsOf;
    hide FailBatch;
    FailTouches(db, b, now);
  }

  lemma FailExtends(db: Db, uploads: Uploads, retired: set<Uuid>, b: BatchId, now: int)
    requires CatalogOk(db, uploads, retired)
    ensures CatalogOk(FailBatch(db, b, now), uploads, retired) && Extends(db, FailBatch(db, b, now))
  {
    FailFits(db, b, now);
    SameBatchesFit(db, uploads, retired, FailBatch(db, b, now).batches);
    SameTables(db, FailBatch(db, b, now));
  }

  lemma FailKeeps(cfg: Config, db: Db, uploads: Uploads, retired: set<Uuid>, b: BatchId, now: int)
    requires DbOk(cfg, db, uploads, retired)
    ensures var after := FailBatch(db, b, now);
            DbOk(cfg, after, uploads, retired) && Extends(db, after) && NoneRevived(db, after, uploads)
  {
    FailExtends(db, uploads, retired, b, now);
    RowsStay(cfg, db, FailBatch(db, b, now), uploads, retired);
  }

  lemma RevokeFits(cfg: Config, db: Db, uploads: Uploads, vuz: Uuid, hash: string, now: int)
    requires OriginsOk(cfg, db.registry, uploads) && V.UniqueHashes(db.registry) && Revoke(db, vuz, hash, now).Success?
    ensures var after := Revoke(db, vuz, hash, now).value;
            && OriginsOk(cfg, after.registry, uploads) && V.UniqueHashes(after.registry)
            && after.registry.Keys == db.registry.Keys && after == db.(registry := after.registry)
  {
    hide Revoke;
    RevokeTouches(db, vuz, hash, now);
  }

  lemma RevokeTouches(db: Db, vuz: Uuid, hash: string, now: int)
    requires Revoke(db, vuz, hash, now).Success?
    ensures var after := Revoke(db, vuz, hash, now).value;
            && after == db.(registry := after.registry) && after.registry.Keys == db.registry.Keys
            && forall k | k in db.registry :: after.registry[k].hash == db.registry[k].hash
  {
  }

  lemma RevokeExtends(db: Db, vuz: Uuid, hash: string, now: int)
    requires Revoke(db, vuz, hash, now).Success?
    ensures Extends(db, Revoke(db, vuz, hash, now).value)
  {
    SameTables(db, Revoke(db, vuz, hash, now).value);
  }

  lemma RevokeKeeps(cfg: Config, db: Db, uploads: Uploads, retired: set<Uuid>, vuz: Uuid, hash: string, now: int)
    requires DbOk(cfg, db, uploads, retired) && Revoke(db, vuz, hash, now).Success?
    ensures var after := Revoke(db, vuz, hash, now).value;
            DbOk(cfg, after, uploads, retired) && Extends(db, after) && NoneRevived(db, after, uploads)
  {
    RevokeFits(cfg, db, uploads, vuz, hash, now);
    RevokeExtends(db, vuz, hash, now);
    RowsStay(cfg, db, Revoke(db, vuz, hash, now).value, uploads, retired);
  }

  lemma DeleteFits(db: Db, uploads: Uploads, retired: set<Uuid>, vuz: Uuid)
    requires CatalogOk(db, uploads, retired) && DeleteUniversity(db, vuz).Success?
    ensures var after := DeleteUniversity(db, vuz).value;
            BatchesOk(after.batches, after.universities, uploads, retired + {vuz}) && Extends(db, after)
  {
  }

  lemma DeleteKeepsRecords(db: Db, uploads: Uploads, retired: set<Uuid>, vuz: Uuid)
    requires PayloadsOk(db.payloads, db.batches, uploads) && DeleteUniversity(db, vuz).Success?
    ensures var after := DeleteUniversity(db, vuz).value; PayloadsOk(after.payloads, after.batches, uploads)
  {
  }

  lemma DeleteCounts(db: Db, vuz: Uuid)
    requires IndexesOk(db.results, db.batches) && CountersOk(db.batches, db.results) && OwnersOk(db.registry, db.universities)
    requires DeleteUniversity(db, vuz).Success?
    ensures var after := DeleteUniversity(db, vuz).value;
            && IndexesOk(after.results, after.batches)
            && CountersOk(after.batches, after.results) && OwnersOk(after.registry, after.universities)
  {
    var after := DeleteUniversity(db, vuz).value;
    forall b | b in after.batches ensures after.batches[b].processed == |RowsOf(after.results, b)| {
      assert RowsOf(after.results, b) == RowsOf(db.results, b);
    }
  }

  lemma DeleteKeepsKeys(cfg: Config, db: Db, vuz: Uuid)
    requires S.KeysOk(cfg.p, cfg.unseal, db.universities, db.keys)
    ensures S.KeysOk(cfg.p, cfg.unseal, db.universities - {vuz}, db.keys - {vuz})
  {
  }

  lemma DeleteKeeps(cfg: Config, db: Db, uploads: Uploads, retired: set<Uuid>, vuz: Uuid)
    requires DbOk(cfg, db, uploads, retired) && DeleteUniversity(db, vuz).Success?
    ensures var after := DeleteUniversity(db, vuz).value;
            DbOk(cfg, after, uploads, retired + {vuz}) && Extends(db, after) && NoneRevived(db, after, uploads)
  {
    DeleteFits(db, uploads, retired, vuz);
    DeleteKeepsRecords(db, uploads, retired, vuz);
    DeleteCounts(db, vuz);
    DeleteKeepsKeys(cfg, db, vuz);
    RowsStay(cfg, db, DeleteUniversity(db, vuz).value, uploads, retired + {vuz});
  }

  lemma AddedOrigin(cfg: Config, registry: Registry, uploads: Uploads, t: Task, e: Entry)
    requires OriginsOk(cfg, registry, uploads)
    requires TaskOk(uploads, t) && !Blank(t.student.number) && e.hash == TaskHash(cfg, t)
    ensures OriginsOk(cfg, registry[TaskKey(t) := e], uploads)
  {
    assert IsOrigin(cfg, uploads, t.batch, t.index, TaskKey(t), TaskHash(cfg, t));
  }

  lemma AddedEntry(registry: Registry, universities: Universities, k: RegistryKey, e: Entry)
    requires V.UniqueHashes(registry) && OwnersOk(registry, universities)
    requires k !in registry && !HashTaken(registry, e.hash) && k.vuz in universities
    ensures V.UniqueHashes(registry[k := e]) && OwnersOk(registry[k := e], universities)
    ensures RegistryKept(registry, registry[k := e], universities)
  {
  }

  lemma InsertHashFits(cfg: Config, db: Db, uploads: Uploads, t: Task)
    requires OriginsOk(cfg, db.registry, uploads) && V.UniqueHashes(db.registry) && OwnersOk(db.registry, db.universities)
    requires TaskOk(uploads, t) && !Blank(t.student.number) && InsertHash(db, TaskKey(t), TaskHash(cfg, t)).Success?
    ensures var after := InsertHash(db, TaskKey(t), TaskHash(cfg, t)).value;
            && OriginsOk(cfg, after.registry, uploads) && V.UniqueHashes(after.registry)
            && OwnersOk(after.registry, db.universities) && RegistryKept(db.registry, after.registry, db.universities)
            && after == db.(registry := after.registry)
  {
    AddedOrigin(cfg, db.registry, uploads, t, Entry(TaskHash(cfg, t), false, None));
    AddedEntry(db.registry, db.universities, TaskKey(t), Entry(TaskHash(cfg, t), false, None));
  }

  lemma InsertHashKeeps(cfg: Config, db: Db, uploads: Uploads, retired: set<Uuid>, t: Task)
    requires DbOk(cfg, db, uploads, retired) && TaskOk(uploads, t) && !Blank(t.student.number)
    requires InsertHash(db, TaskKey(t), TaskHash(cfg, t)).Success?
    ensures var after := InsertHash(db, TaskKey(t), TaskHash(cfg, t)).value;
            DbOk(cfg, after, uploads, retired) && Extends(db, after) && NoneRevived(db, after, uploads)
  {
    var after := InsertHash(db, TaskKey(t), TaskHash(cfg, t)).value;
    InsertHashFits(cfg, db, uploads, t);
    SameTables(db, after);
    RowsStay(cfg, db, after, uploads, retired);
  }

  lemma PersistFits(db: Db, key: RowKey, row: Row, now: int)
    requires CountersOk(db.batches, db.results) && PersistRow(db, key, row, now).Success?
    ensures var after := PersistRow(db, key, row, now).value;
            && SameBatches(db.batches, after.batches) && CountersOk(after.batches, after.results)
            && after == db.(results := db.results[key := row], batches := after.batches)
            && key !in db.results && key.batch in db.batches
  {
    PersistRowShape(db, key, row, now);
    PersistKeepsCounters(db, key, row, now);
  }

  lemma AddedIndex(results: Results, batches: Batches, key: RowKey, row: Row)
    requires IndexesOk(results, batches) && key.batch in batches && key.index < batches[key.batch].total && key !in results
    ensures IndexesOk(results[key := row], batches) && ResultsKept(results, results[key := row], batches)
  {
  }

  lemma PersistExtends(db: Db, uploads: Uploads, retired: set<Uuid>, key: RowKey, row: Row, now: int)
    requires CatalogOk(db, uploads, retired) && PersistRow(db, key, row, now).Success?
    requires key.batch in uploads && key.index < |uploads[key.batch].records|
    ensures var after := PersistRow(db, key, row, now).value;
            CatalogOk(after, uploads, retired) && Extends(db, after)
  {
    var after := PersistRow(db, key, row, now).value;
    PersistFits(db, key, row, now);
    SameBatchesFit(db, uploads, retired, after.batches);
    AddedIndex(db.results, after.batches, key, row);
    SameTables(db, after);
  }

  lemma PersistedRowOk(cfg: Config, db: Db, uploads: Uploads, retired: set<Uuid>, m: Message, now: int)
    requires CatalogOk(db, uploads, retired) && MessageOk(cfg, db, uploads, m)
    requires KeyOf(m) !in db.results && Persist(db, m, now).Success?
    ensures var after := Persist(db, m, now).value; KeyOf(m) in after.results && RowOk(cfg, after, KeyOf(m))
  {
    PersistFits(db, KeyOf(m), WorkerVerdict(m).row, now);
  }

  lemma RowsOkAfter(cfg: Config, db: Db, after: Db, key: RowKey)
    requires forall k | k in after.results && k in db.results :: RowOk(cfg, after, k)
    requires key in after.results && RowOk(cfg, after, key)
    requires after.results.Keys == db.results.Keys + {key}
    ensures RowsOk(cfg, after)
  {
    hide RowOk;
  }

  lemma PersistTouches(db: Db, m: Message, now: int)
    requires KeyOf(m) !in db.results && Persist(db, m, now).Success?
    ensures var after := Persist(db, m, now).value;
            && after.results.Keys == db.results.Keys + {KeyOf(m)} && after.batches.Keys == db.batches.Keys
            && after == db.(results := after.results, batches := after.batches)
  {
    PersistRowShape(db, KeyOf(m), WorkerVerdict(m).row, now);
  }

  lemma CatalogRowsStay(cfg: Config, db: Db, after: Db, uploads: Uploads, retired: set<Uuid>)
    requires RowsOk(cfg, db) && Extends(db, after) && CatalogOk(after, uploads, retired)
    ensures forall k | k in after.results && k in db.results :: RowOk(cfg, after, k)
  {
    RowsStay(cfg, db, after, uploads, retired);
  }

  lemma PersistRowsOk(cfg: Config, db: Db, uploads: Uploads, retired: set<Uuid>, m: Message, now: int)
    requires CatalogOk(db, uploads, retired) && RowsOk(cfg, db) && MessageOk(cfg, db, uploads, m)
    requires KeyOf(m) !in db.results && Persist(db, m, now).Success?
    requires var after := Persist(db, m, now).value; CatalogOk(after, uploads, retired) && Extends(db, after)
    ensures RowsOk(cfg, Persist(db, m, now).value)
  {
    hide *;
    var after := Persist(db, m, now).value;
    PersistTouches(db, m, now);
    PersistedRowOk(cfg, db, uploads, retired, m, now);
    CatalogRowsStay(cfg, db, after, uploads, retired);
    RowsOkAfter(cfg, db, after, KeyOf(m));
  }

  lemma PersistNewKeeps(cfg: Config, db: Db, uploads: Uploads, retired: set<Uuid>, m: Message, now: int)
    requires DbOk(cfg, db, uploads, retired) && MessageOk(cfg, db, uploads, m)
    requires KeyOf(m) !in db.results && Persist(db, m, now).Success?
    ensures var after := Persist(db, m, now).value; CatalogOk(after, uploads, retired) && Extends(db, after) && RowsOk(cfg, after)
  {
    PersistExtends(db, uploads, retired, KeyOf(m), WorkerVerdict(m).row, now);
    assert Persist(db, m, now) == PersistRow(db, KeyOf(m), WorkerVerdict(m).row, now);
    assert CatalogOk(db, uploads, retired) && RowsOk(cfg, db);
    hide *;
    PersistRowsOk(cfg, db, uploads, retired, m, now);
  }

  lemma NothingPersisted(db: Db, m: Message, now: int)
    requires KeyOf(m) in db.results
    ensures Persist(db, m, now) == Success(db) && Extends(db, db)
  {
    SameTables(db, db);
  }

  /** The row a worker persists for one of its own results. */
  lemma PersistKeeps(cfg: Config, db: Db, uploads: Uploads, retired: set<Uuid>, m: Message, now: int)
    requires DbOk(cfg, db, uploads, retired) && MessageOk(cfg, db, uploads, m) && Persist(db, m, now).Success?
    ensures var after := Persist(db, m, now).value;
            && DbOk(cfg, after, uploads, retired) && Extends(db, after) && NoneRevived(db, after, uploads)
            && KeyOf(m) in after.results
  {
    hide Persist;
    hide CatalogOk;
    hide RowsOk;
    hide Extends;
    hide MessageOk;
    if KeyOf(m) in db.results {
      NothingPersisted(db, m, now);
    } else {
      PersistNewKeeps(cfg, db, uploads, retired, m, now);
      PersistTouches(db, m, now);
    }
  }
}
