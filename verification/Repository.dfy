/** The gateway's repositories in their own form: statements on a transaction, committed or rolled back
    (diploma_repository.go, university_repository.go). Each method is proved against the function of module
    Tables it implements; interleaving with other transactions is the subject of module Transactions. */
module Repository {
  import opened Wrappers
  import opened Text
  import opened Crypto
  import opened Tables
  import opened Download

  /** The statement, or whole transaction, had the effect `spec` describes: its tables, or its error and no change. */
  ghost predicate Effect(before: Db, spec: Result<Db, DbError>, after: Db, result: Result<(), DbError>) {
    match spec
    case Success(db) => result == Success(()) && after == db
    case Failure(e) => result == Failure(e) && after == before
  }

  /** An open transaction and the tables as it sees them. */
  class Tx {
    var tables: Db

    constructor (db: Db)
      ensures tables == db
    {
      tables := db;
    }

    method InsertResult(key: RowKey, row: Row) returns (r: Result<(), DbError>)
      modifies this
      ensures Effect(old(tables), Tables.InsertResult(old(tables), key, row), tables, r)
    {
      if key in tables.results {
        return Failure(UniqueViolation);
      }
      if key.batch !in tables.batches {
        return Failure(ForeignKeyViolation);
      }
      tables := tables.(results := tables.results[key := row]);
      return Success(());
    }

    method IncrementBatchProcessed(b: BatchId)
      modifies this
      ensures tables == IncrementProcessed(old(tables), b)
    {
      if b in tables.batches {
        var batch := tables.batches[b];
        tables := tables.(batches := tables.batches[b := batch.(processed := batch.processed + 1)]);
      }
    }

    method FinalizeBatchIfComplete(b: BatchId, now: int) returns (r: Result<(), DbError>)
      modifies this
      ensures Effect(old(tables), FinalizeIfComplete(old(tables), b, now), tables, r)
    {
      if b !in tables.batches {
        return Failure(NoRows);
      }
      var batch := tables.batches[b];
      var errors := |ErrorsOf(tables.results, b)|;
      if batch.processed < batch.total {
        assert tables.batches == tables.batches[b := batch];
        return Success(());
      }
      var status := Completed;
      if errors > 0 {
        status := Failed;
      }
      var completedAt := if batch.completedAt.Some? then batch.completedAt else Some(now);
      tables := tables.(batches := tables.batches[b := batch.(status := status, completedAt := completedAt)]);
      return Success(());
    }

    /** The tail every branch of `ApplyProcessingResult` shares. */
    method StoreRow(key: RowKey, row: Row, now: int) returns (r: Result<(), DbError>)
      modifies this
      ensures match PersistRow(old(tables), key, row, now)
              case Success(db) => r == Success(()) && tables == db
              case Failure(e) => r == Failure(e)
    {
      var inserted := InsertResult(key, row);
      if inserted.Failure? {
        return inserted;
      }
      IncrementBatchProcessed(key.batch);
      r := FinalizeBatchIfComplete(key.batch, now);
    }

    method InsertDiplomaHash(key: RegistryKey, hash: string) returns (r: Result<(), DbError>)
      modifies this
      ensures Effect(old(tables), InsertHash(old(tables), key, hash), tables, r)
    {
      if key in tables.registry || HashTaken(tables.registry, hash) {
        return Failure(UniqueViolation);
      }
      if key.vuz !in tables.universities {
        return Failure(ForeignKeyViolation);
      }
      tables := tables.(registry := tables.registry[key := Entry(hash, false, None)]);
      return Success(());
    }

    method DeleteShareLinks(vuz: Uuid)
      modifies this
      ensures tables == old(tables).(
                links := map t | t in old(tables).links && !IssuedBy(old(tables).registry, vuz, old(tables).links[t])
                         :: old(tables).links[t])
    {
      tables := tables.(links := map t | t in tables.links && !IssuedBy(tables.registry, vuz, tables.links[t]) :: tables.links[t]);
    }

    method DeleteBatches(vuz: Uuid)
      modifies this
      ensures var gone := set b | b in old(tables).batches && old(tables).batches[b].vuz == vuz;
              tables == old(tables).(
                batches := old(tables).batches - gone,
                payloads := map k | k in old(tables).payloads && k.batch !in gone :: old(tables).payloads[k],
                results := map k | k in old(tables).results && k.batch !in gone :: old(tables).results[k])
    {
      var gone := set b | b in tables.batches && tables.batches[b].vuz == vuz;
      tables := tables.(
        batches := tables.batches - gone,
        payloads := map k | k in tables.payloads && k.batch !in gone :: tables.payloads[k],
        results := map k | k in tables.results && k.batch !in gone :: tables.results[k]);
    }
  }

  class Database {
    var universities: Universities
    var keys: map<Uuid, string>
    var batches: map<BatchId, Batch>
    var payloads: map<RowKey, Student>
    var results: Results
    var registry: Registry
    var links: map<string, string>

    function Tables(): Db
      reads this
    {
      Db(universities, keys, batches, payloads, results, registry, links)
    }

    constructor ()
      ensures Tables() == Db(map[], map[], map[], map[], map[], map[], map[])
    {
      universities, keys, batches, payloads, results, registry, links := map[], map[], map[], map[], map[], map[], map[];
    }

    method Begin() returns (tx: Tx)
      ensures fresh(tx) && tx.tables == Tables()
    {
      tx := new Tx(Tables());
    }

    method Commit(tx: Tx)
      modifies this
      ensures Tables() == tx.tables
    {
      var db := tx.tables;
      universities, keys, batches := db.universities, db.keys, db.batches;
      payloads, results, registry, links := db.payloads, db.results, db.registry, db.links;
    }
  }

  /** The rows a download query finds: those of the batch, if it is the university's. */
  function DownloadKeys(db: Db, b: BatchId, vuz: Uuid): set<RowKey> {
    if b in db.batches && db.batches[b].vuz == vuz then RowsOf(db.results, b) else {}
  }

  function ItemAt(decode: Decoder, db: Db, k: RowKey): Option<Item>
    requires k in db.results
  {
    ItemFor(decode, db.registry, StoredRecord(db, k), k.index, db.results[k])
  }

  /** One item per result row of the university's batch, in the order of their indexes, or none if a row fails to read. */
  ghost predicate IsDownload(decode: Decoder, db: Db, b: BatchId, vuz: Uuid, items: Option<seq<Item>>) {
    var keys := DownloadKeys(db, b, vuz);
    && (items.None? <==> exists k :: k in keys && k in db.results && ItemAt(decode, db, k).None?)
    && (items.Some? ==>
          && |items.value| == |keys|
          && (forall i, j | 0 <= i < j < |items.value| :: items.value[i].index < items.value[j].index)
          && (forall i | 0 <= i < |items.value| ::
                var k := RowKey(b, items.value[i].index);
                k in keys && k in db.results && Some(items.value[i]) == ItemAt(decode, db, k)))
  }

  /** A university that does not own the batch downloads nothing; the owner gets its rows, each under its own index. */
  lemma {:induction false} OnlyOwnersDownload(decode: Decoder, db: Db, b: BatchId, vuz: Uuid, items: Option<seq<Item>>)
    requires IsDownload(decode, db, b, vuz, items)
    ensures !(b in db.batches && db.batches[b].vuz == vuz) ==> items == Some([])
    ensures b in db.batches && db.batches[b].vuz == vuz && items.Some? ==>
              && (forall i | 0 <= i < |items.value| :: RowKey(b, items.value[i].index) in db.results)
              && |items.value| == |set k | k in db.results && k.batch == b|
  {
  }

  lemma {:induction false} LeastExists(keys: set<RowKey>, b: BatchId)
    requires keys != {} && forall k | k in keys :: k.batch == b
    ensures exists m :: m in keys && forall k | k in keys :: m.index <= k.index
    decreases |keys|
  {
    var x :| x in keys;
    var rest := keys - {x};
    if rest == {} {
      assert keys == {x};
    } else {
      LeastExists(rest, b);
      var m :| m in rest && forall k | k in rest :: m.index <= k.index;
      var least := if m.index < x.index then m else x;
      forall k | k in keys ensures least.index <= k.index {
        if k != x {
          assert k in rest;
        }
      }
      assert least in keys;
    }
  }

  lemma NoPayloads(payloads: map<RowKey, Student>, b: BatchId, records: seq<Student>)
    ensures payloads + PayloadRows(b, records[..0]) == payloads
  {
  }

  lemma OneMorePayload(payloads: map<RowKey, Student>, b: BatchId, records: seq<Student>, i: nat)
    requires i < |records|
    ensures payloads + PayloadRows(b, records[..i + 1]) == (payloads + PayloadRows(b, records[..i]))[RowKey(b, i) := records[i]]
  {
    assert PayloadRows(b, records[..i + 1]) == PayloadRows(b, records[..i])[RowKey(b, i) := records[i]];
  }

  lemma ItemIndex(decode: Decoder, db: Db, k: RowKey)
    requires k in db.results
    ensures ItemAt(decode, db, k).Some? ==> ItemAt(decode, db, k).value.index == k.index
  {
  }

  class DiplomaRepository {
    const database: Database
    const parse: string -> Option<Parsed>
    const decode: Decoder

    constructor (database: Database, parse: string -> Option<Parsed>, decode: Decoder)
      ensures this.database == database && this.parse == parse && this.decode == decode
    {
      this.database, this.parse, this.decode := database, parse, decode;
    }

    /** `b` is the id the database draws for the new row. */
    method CreateBatchWithRecords(b: BatchId, vuz: Uuid, records: seq<Student>) returns (r: Result<(), DbError>)
      modifies database
      ensures Effect(old(database.Tables()), CreateBatch(old(database.Tables()), b, vuz, records), database.Tables(), r)
    {
      var tx := database.Begin();
      if vuz !in tx.tables.universities {
        return Failure(ForeignKeyViolation);
      }
      tx.tables := tx.tables.(batches := tx.tables.batches[b := Batch(vuz, |records|, 0, Processing, None)]);
      ghost var created := tx.tables;
      var index := 0;
      NoPayloads(created.payloads, b, records);
      while index < |records|
        invariant 0 <= index <= |records|
        invariant tx.tables == created.(payloads := created.payloads + PayloadRows(b, records[..index]))
        invariant database.Tables() == old(database.Tables())
      {
        OneMorePayload(created.payloads, b, records, index);
        tx.tables := tx.tables.(payloads := tx.tables.payloads[RowKey(b, index) := records[index]]);
        index := index + 1;
      }
      assert records[..|records|] == records;
      database.Commit(tx);
      return Success(());
    }

    method FailBatch(b: BatchId, now: int)
      modifies database
      ensures database.Tables() == Tables.FailBatch(old(database.Tables()), b, now)
    {
      if b in database.batches {
        database.batches := database.batches[b := database.batches[b].(status := Failed, completedAt := Some(now))];
      }
    }

    method MarkDiplomaRevoked(vuz: Uuid, hash: string, now: int) returns (r: Result<(), DbError>)
      modifies database
      ensures Effect(old(database.Tables()), Revoke(old(database.Tables()), vuz, hash, now), database.Tables(), r)
    {
      if !exists k :: k in database.registry && k.vuz == vuz && database.registry[k].hash == hash {
        return Failure(NoRows);
      }
      database.registry := map k | k in database.registry ::
        if k.vuz == vuz && database.registry[k].hash == hash then database.registry[k].(revoked := true, revokedAt := Some(now))
        else database.registry[k];
      return Success(());
    }

    /** One branch per reason to store an error row, as in the source; its effect is the worker's `Persist` up to
        trimming of the error text (module ReadPaths). */
    method ApplyProcessingResult(m: Message, now: int) returns (r: Result<(), DbError>)
      modifies database
      ensures Effect(old(database.Tables()), GatewayApply(old(database.Tables()), parse, m, now), database.Tables(), r)
    {
      var tx := database.Begin();
      if KeyOf(m) in tx.tables.results {
        database.Commit(tx);
        return Success(());
      }
      if m.status != Ok || m.token.None? || Blank(m.hash) {
        r := Finish(tx, KeyOf(m), ErrorRow(StringOrDefault(m.error, "processing error")), now);
        return;
      }
      var qr := parse(m.token.value);
      if qr.None? || Blank(qr.value.number) {
        r := Finish(tx, KeyOf(m), ErrorRow("qr payload does not contain diploma number"), now);
        return;
      }
      if !Blank(qr.value.vuz) && qr.value.vuz != m.vuz {
        r := Finish(tx, KeyOf(m), ErrorRow("qr payload university mismatch"), now);
        return;
      }
      var key := RegistryKey(m.vuz, qr.value.number);
      if key !in tx.tables.registry {
        var inserted := tx.InsertDiplomaHash(key, m.hash);
        if inserted.Failure? {
          return inserted;
        }
      } else if tx.tables.registry[key].hash != m.hash {
        r := Finish(tx, KeyOf(m), DUPLICATE_NUMBER, now);
        return;
      }
      r := Finish(tx, KeyOf(m), OkRow(m.hash, m.token), now);
    }

    /** Store the row and commit, or roll everything back. */
    method Finish(tx: Tx, key: RowKey, row: Row, now: int) returns (r: Result<(), DbError>)
      modifies tx, database
      ensures Effect(old(database.Tables()), PersistRow(old(tx.tables), key, row, now), database.Tables(), r)
    {
      r := tx.StoreRow(key, row, now);
      if r.Success? {
        database.Commit(tx);
      }
    }

    method ReadItem(key: RowKey) returns (item: Option<Item>)
      requires key in database.results
      ensures item == ItemAt(decode, database.Tables(), key)
    {
      var row := database.results[key];
      var fields := if key in database.payloads then FieldsOf(database.payloads[key]) else UNSET;
      var qr := "";
      if row.token.Some? && !Blank(row.token.value) {
        qr := row.token.value;
        if Incomplete(fields) {
          var read := decode(qr);
          if read.None? {
            return None;
          }
          fields := FillFrom(fields, DocumentFields(read.value.1));
        }
      }
      return Some(Item(key.index, if row.hash.Some? then row.hash.value else "", qr, StatusOf(database.registry, row), row.error, fields));
    }

    /** Reads the rows in the order of their indexes; the decoder's error ends the download. */
    method GetBatchDownloadRows(b: BatchId, vuz: Uuid) returns (items: Option<seq<Item>>)
      ensures IsDownload(decode, database.Tables(), b, vuz, items)
    {
      hide ItemAt;
      var keys := DownloadKeys(database.Tables(), b, vuz);
      var indexes := OrderByIndex(keys, b);
      var result: seq<Item> := [];
      var next := 0;
      while next < |indexes|
        invariant 0 <= next == |result| <= |indexes|
        invariant forall i | 0 <= i < next ::
                    && RowKey(b, indexes[i]) in database.results && result[i].index == indexes[i]
                    && Some(result[i]) == ItemAt(decode, database.Tables(), RowKey(b, indexes[i]))
      {
        var item := ReadItem(RowKey(b, indexes[next]));
        if item.None? {
          return None;
        }
        ItemIndex(decode, database.Tables(), RowKey(b, indexes[next]));
        result := result + [item.value];
        next := next + 1;
      }
      return Some(result);
    }
  }

  /** ORDER BY record_index. */
  method OrderByIndex(keys: set<RowKey>, b: BatchId) returns (indexes: seq<nat>)
    requires forall k | k in keys :: k.batch == b
    ensures |indexes| == |keys|
    ensures forall i, j | 0 <= i < j < |indexes| :: indexes[i] < indexes[j]
    ensures forall i | 0 <= i < |indexes| :: RowKey(b, indexes[i]) in keys
    ensures forall k | k in keys :: k.index in indexes
  {
    indexes := [];
    var todo := keys;
    while todo != {}
      invariant todo <= keys && |indexes| + |todo| == |keys|
      invariant forall i, j | 0 <= i < j < |indexes| :: indexes[i] < indexes[j]
      invariant forall i | 0 <= i < |indexes| :: RowKey(b, indexes[i]) in keys
      invariant forall i, k | 0 <= i < |indexes| && k in todo :: indexes[i] < k.index
      invariant forall k | k in keys :: k in todo || k.index in indexes
    {
      LeastExists(todo, b);
      var least :| least in todo && forall k | k in todo :: least.index <= k.index;
      assert least == RowKey(b, least.index);
      forall k | k in todo - {least} ensures least.index < k.index {
        assert k == RowKey(b, k.index);
      }
      indexes := indexes + [least.index];
      todo := todo - {least};
    }
  }

  /** The foreign key of `share_links`: each shows a registered hash. */
  ghost predicate LinksOk(db: Db) {
    forall t | t in db.links :: HashTaken(db.registry, db.links[t])
  }

  /** Something in the tables belongs to the university, or shows a hash it issued. */
  ghost predicate Traced(db: Db, registry: Registry, vuz: Uuid) {
    || vuz in db.universities || vuz in db.keys
    || (exists b :: b in db.batches && db.batches[b].vuz == vuz)
    || (exists k :: k in db.registry && k.vuz == vuz)
    || (exists t :: t in db.links && IssuedBy(registry, vuz, db.links[t]))
  }

  /** Deleting a university leaves no trace of it, no row without its batch and no link without its hash, provided
      there were none before. */
  lemma {:induction false} DeletionLeavesNoTrace(db: Db, vuz: Uuid)
    requires vuz in db.universities && LinksOk(db)
    requires forall k | k in db.results || k in db.payloads :: k.batch in db.batches
    ensures DeleteUniversity(db, vuz).Success?
    ensures var after := DeleteUniversity(db, vuz).value;
            && !Traced(after, db.registry, vuz) && LinksOk(after)
            && forall k | k in after.results || k in after.payloads :: k.batch in after.batches
  {
    var after := DeleteUniversity(db, vuz).value;
    forall t | t in after.links ensures HashTaken(after.registry, after.links[t]) {
      var k :| k in db.registry && db.registry[k].hash == db.links[t];
      assert k in after.registry;
    }
  }

  /** What belongs to other universities survives: they themselves, their keys, batches, rows, payloads and registry
      entries, and every share link of a hash the deleted one has not issued. */
  lemma {:induction false} DeletionSparesOthers(db: Db, vuz: Uuid)
    requires vuz in db.universities
    ensures var after := DeleteUniversity(db, vuz).value;
            && (forall u | u in db.universities && u != vuz :: u in after.universities && after.universities[u] == db.universities[u])
            && (forall u | u in db.keys && u != vuz :: u in after.keys && after.keys[u] == db.keys[u])
            && (forall b | b in db.batches && db.batches[b].vuz != vuz :: b in after.batches && after.batches[b] == db.batches[b])
            && (forall k | k in db.results && k.batch in after.batches :: k in after.results && after.results[k] == db.results[k])
            && (forall k | k in db.payloads && k.batch in after.batches :: k in after.payloads && after.payloads[k] == db.payloads[k])
            && (forall k | k in db.registry && k.vuz != vuz :: k in after.registry && after.registry[k] == db.registry[k])
            && forall t | t in db.links && (forall k | k in db.registry && db.registry[k].hash == db.links[t] :: k.vuz != vuz) ::
                 t in after.links && after.links[t] == db.links[t]
  {
  }

  class UniversityRepository {
    const database: Database

    constructor (database: Database)
      ensures this.database == database
    {
      this.database := database;
    }

    /** The share links of its diplomas, batches with their rows, the registry's rows, then the university with its key. */
    method DeleteCascade(vuz: Uuid) returns (r: Result<(), DbError>)
      modifies database
      ensures Effect(old(database.Tables()), DeleteUniversity(old(database.Tables()), vuz), database.Tables(), r)
    {
      var tx := database.Begin();
      if vuz !in tx.tables.universities {
        return Failure(NoRows);
      }
      tx.DeleteShareLinks(vuz);
      tx.DeleteBatches(vuz);
      tx.tables := tx.tables.(registry := map k | k in tx.tables.registry && k.vuz != vuz :: tx.tables.registry[k]);
      tx.tables := tx.tables.(universities := tx.tables.universities - {vuz}, keys := tx.tables.keys - {vuz});
      database.Commit(tx);
      return Success(());
    }
  }
}
