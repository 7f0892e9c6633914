/** The gateway's services in their own form: upload, signing keys and the consumer of results (diplomas.go,
    signing_keys.go, kafka/consumer.go). */
module Services {
  import opened Wrappers
  import opened Crypto
  import opened Tables
  import opened Protocol
  import opened Repository
  import I = ProtocolInvariant
  import P = Protocol
  import R = ProtocolRuns
  import S = SigningKeys

  // ---- upload ----

  function TasksOf(b: BatchId, vuz: Uuid, records: seq<Student>): seq<Task> {
    seq(|records|, i requires 0 <= i < |records| => Task(b, vuz, i, records[i]))
  }

  /** Indexes of messages. */
  predicate Within(sent: seq<nat>, n: nat) {
    forall i | 0 <= i < |sent| :: sent[i] < n
  }

  /** The messages the broker gets: with several partitions and three attempts some, in any order, some repeatedly. */
  function Sent(tasks: seq<Task>, sent: seq<nat>): seq<Task>
    requires Within(sent, |tasks|)
  {
    seq(|sent|, i requires 0 <= i < |sent| => tasks[sent[i]])
  }

  /** The producer reports success only if every message got out and was acknowledged. */
  predicate Published(n: nat, sent: seq<nat>, acknowledged: bool) {
    acknowledged && forall i: nat | i < n :: i in sent
  }

  class DiplomaService {
    const repository: DiplomaRepository
    var raw: seq<Task>

    constructor (repository: DiplomaRepository)
      ensures this.repository == repository && raw == []
    {
      this.repository := repository;
      raw := [];
    }

    /** The producer gets the messages `sent` out. If it reports an error the batch is failed, whatever did get out;
        `lost`: that statement fails, which goes unnoticed. */
    method Upload(b: BatchId, vuz: Uuid, records: seq<Student>, sent: seq<nat>, acknowledged: bool, lost: bool, now: int)
      returns (r: Result<BatchId, DbError>, published: bool)
      requires Within(sent, |records|)
      modifies this, repository.database
      ensures var before := old(repository.database.Tables());
              var created := CreateBatch(before, b, vuz, records);
              match created
              case Failure(e) => r == Failure(e) && repository.database.Tables() == before && raw == old(raw)
              case Success(db) =>
                && raw == old(raw) + Sent(TasksOf(b, vuz, records), sent)
                && published == Published(|records|, sent, acknowledged)
                && repository.database.Tables() == (if published || lost then db else Tables.FailBatch(db, b, now))
                && r == Success(b)
    {
      published := false;
      var created := repository.CreateBatchWithRecords(b, vuz, records);
      if created.Failure? {
        return Failure(created.error), false;
      }
      var tasks: seq<Task> := [];
      var index := 0;
      while index < |records|
        invariant 0 <= index == |tasks| <= |records|
        invariant forall i | 0 <= i < index :: tasks[i] == Task(b, vuz, i, records[i])
      {
        tasks := tasks + [Task(b, vuz, index, records[index])];
        index := index + 1;
      }
      assert tasks == TasksOf(b, vuz, records);
      raw := raw + Sent(tasks, sent);
      published := Published(|tasks|, sent, acknowledged);
      if !published && !lost {
        repository.FailBatch(b, now);
      }
      return Success(b), published;
    }
  }

  function PublishesOf(b: BatchId, sent: seq<nat>): seq<Action> {
    seq(|sent|, i requires 0 <= i < |sent| => PublishTask(b, sent[i]))
  }

  /** The upload as steps of the protocol. */
  function UploadSteps(b: BatchId, vuz: Uuid, records: seq<Student>, sent: seq<nat>, fails: bool, now: int): seq<Action> {
    [CreateUpload(b, vuz, records)] + (PublishesOf(b, sent) + if fails then [FailUpload(b, now)] else [])
  }

  lemma {:induction false} PublishesAppend(cfg: Config, w: World, b: BatchId, sent: seq<nat>)
    requires b in w.uploads && Within(sent, |w.uploads[b].records|)
    ensures Run(cfg, w, PublishesOf(b, sent)) == w.(raw := w.raw + Sent(TasksOf(b, w.uploads[b].vuz, w.uploads[b].records), sent))
  {
    var tasks := TasksOf(b, w.uploads[b].vuz, w.uploads[b].records);
    if sent != [] {
      var before, last := sent[..|sent| - 1], sent[|sent| - 1];
      assert PublishesOf(b, sent)[..|sent| - 1] == PublishesOf(b, before);
      PublishesAppend(cfg, w, b, before);
      assert Sent(tasks, sent) == Sent(tasks, before) + [tasks[last]];
    }
  }

  /** The coded upload is a run of the protocol, whatever the producer gets out: create, publish, and fail the batch
      if that is reported to have failed. */
  lemma {:induction false} UploadIsARun(cfg: Config, w: World, b: BatchId, vuz: Uuid, records: seq<Student>, sent: seq<nat>,
                                        fails: bool, now: int)
    requires b !in w.uploads && Within(sent, |records|) && CreateBatch(w.db, b, vuz, records).Success?
    ensures var db := CreateBatch(w.db, b, vuz, records).value;
            var v := Run(cfg, w, UploadSteps(b, vuz, records, sent, fails, now));
            && v.raw == w.raw + Sent(TasksOf(b, vuz, records), sent)
            && v.db == if fails then Tables.FailBatch(db, b, now) else db
  {
    var create, rest := CreateUpload(b, vuz, records), if fails then [FailUpload(b, now)] else [];
    var created := P.Next(cfg, w, create);
    R.RunConcat(cfg, w, [create], PublishesOf(b, sent) + rest);
    assert [create][..0] == [] && Run(cfg, w, [create]) == created;
    R.RunConcat(cfg, created, PublishesOf(b, sent), rest);
    PublishesAppend(cfg, created, b, sent);
    if fails {
      assert rest[..0] == [];
    }
  }

  /** What an upload leaves: a batch that reads processing has all its tasks on the topic, unless `FailBatch` was lost;
      one whose producer reported an error reads failed. */
  lemma {:induction false} UploadIsTruthful(cfg: Config, w: World, b: BatchId, vuz: Uuid, records: seq<Student>, sent: seq<nat>,
                                            acknowledged: bool, lost: bool, now: int)
    requires b !in w.uploads && Within(sent, |records|) && CreateBatch(w.db, b, vuz, records).Success?
    ensures var v := Run(cfg, w, UploadSteps(b, vuz, records, sent, !Published(|records|, sent, acknowledged) && !lost, now));
            && b in v.db.batches && v.db.batches[b].vuz == vuz && v.db.batches[b].total == |records|
            && (v.db.batches[b].status == Processing && !lost ==> forall i: nat | i < |records| :: Task(b, vuz, i, records[i]) in v.raw)
            && (!acknowledged && !lost ==> v.db.batches[b].status == Failed && v.db.batches[b].completedAt == Some(now))
            && (acknowledged && (forall i: nat | i < |records| :: i in sent) ==> v.db.batches[b].status == Processing)
  {
    hide Run;
    hide UploadSteps;
    var published := Published(|records|, sent, acknowledged);
    UploadIsARun(cfg, w, b, vuz, records, sent, !published && !lost, now);
    var tasks := TasksOf(b, vuz, records);
    if published {
      forall i: nat | i < |records| ensures Task(b, vuz, i, records[i]) in Sent(tasks, sent) {
        assert i in sent;
        var j :| 0 <= j < |sent| && sent[j] == i;
        assert Sent(tasks, sent)[j] == tasks[i];
      }
    }
  }

  // ---- signing keys ----

  class SigningKeyService {
    const p: Primitives
    const master: seq<byte>
    const database: Database

    constructor (p: Primitives, master: seq<byte>, database: Database)
      ensures this.p == p && this.master == master && this.database == database
    {
      this.p, this.master, this.database := p, master, database;
    }

    method UpdatePublicKey(vuz: Uuid, publicKey: PublicKey)
      requires vuz in database.universities
      modifies database
      ensures database.Tables() == old(database.Tables()).(
                universities := old(database.universities)[vuz := old(database.universities)[vuz].(publicKey := Some(publicKey))])
    {
      database.universities := database.universities[vuz := database.universities[vuz].(publicKey := Some(publicKey))];
    }

    /** Check, publish the public key if there is none, store the sealed private key; `crash` ends the call
        between its two writes. */
    method Upsert(c: S.Call, crash: bool) returns (r: Result<(), S.UpsertError>)
      modifies database
      ensures var spec := S.Upsert(p, master, old(database.Tables()), c, crash);
              match spec
              case Success(db) => r == Success(()) && database.Tables() == db
              case Failure(e) => r == Failure(e) && database.Tables() == old(database.Tables())
    {
      var sk := p.readPrivate(c.pem);
      if sk.None? {
        return Failure(S.InvalidSigningKey);
      }
      var derived := p.publicOf(sk.value);
      if c.vuz !in database.universities {
        return Failure(S.UniversityNotFound);
      }
      var stored := database.universities[c.vuz].publicKey;
      if stored.Some? {
        if stored.value != derived {
          return Failure(S.SigningKeyMismatch);
        }
      } else {
        UpdatePublicKey(c.vuz, derived);
      }
      if crash {
        return Success(());
      }
      database.keys := database.keys[c.vuz := S.Seal(p, master, c.nonce, c.pem)];
      return Success(());
    }
  }

  // ---- the consumer of results ----

  /** Tables and committed offset after the gateway has read some messages, the first of them at `offset`: a
      malformed one is committed and skipped, one whose handling fails is skipped uncommitted. The commit of a
      message in `lost` fails, which is only logged. */
  function Consumed(db: Db, parse: string -> Option<Parsed>, messages: seq<Option<Message>>, offset: nat, committed: nat,
                    lost: set<nat>, now: int)
    : (Db, nat)
  {
    if messages == [] then (db, committed)
    else
      var before := Consumed(db, parse, messages[..|messages| - 1], offset, committed, lost, now);
      var next := offset + |messages|;
      var reached := if next - 1 in lost then before.1 else next;
      match messages[|messages| - 1]
      case None => (before.0, reached)
      case Some(m) =>
        var r := GatewayApply(before.0, parse, m, now);
        if r.Success? then (r.value, reached) else before
  }

  lemma NothingConsumed(db: Db, parse: string -> Option<Parsed>, log: seq<Option<Message>>, start: nat, committed: nat, lost: set<nat>,
                        now: int)
    requires start <= |log|
    ensures Consumed(db, parse, log[start..start], start, committed, lost, now) == (db, committed)
  {
  }

  lemma OneMoreConsumed(db: Db, parse: string -> Option<Parsed>, log: seq<Option<Message>>, start: nat, pos: nat, committed: nat,
                        lost: set<nat>, now: int)
    requires start <= pos < |log|
    ensures var before := Consumed(db, parse, log[start..pos], start, committed, lost, now);
            var reached := if pos in lost then before.1 else pos + 1;
            Consumed(db, parse, log[start..pos + 1], start, committed, lost, now) ==
              match log[pos]
              case None => (before.0, reached)
              case Some(m) =>
                var r := GatewayApply(before.0, parse, m, now);
                if r.Success? then (r.value, reached) else before
  {
    hide GatewayApply;
    assert log[start..pos + 1][..pos - start] == log[start..pos];
  }

  /** The gateway commits message `i`: it does not decode or is applied, and the commit does not fail. */
  ghost predicate CommitsAt(db: Db, parse: string -> Option<Parsed>, messages: seq<Option<Message>>, offset: nat, committed: nat,
                            lost: set<nat>, now: int, i: nat)
    requires i < |messages|
  {
    && offset + i !in lost
    && (messages[i].Some? ==>
          GatewayApply(Consumed(db, parse, messages[..i], offset, committed, lost, now).0, parse, messages[i].value, now).Success?)
  }

  /** The committed offset is just after the last message committed; without any it stays. */
  lemma {:induction false} CommittedIsAfterTheLast(db: Db, parse: string -> Option<Parsed>, messages: seq<Option<Message>>, offset: nat,
                                                   committed: nat, lost: set<nat>, now: int)
    ensures var end := Consumed(db, parse, messages, offset, committed, lost, now).1;
            || (end == committed && forall i | 0 <= i < |messages| :: !CommitsAt(db, parse, messages, offset, committed, lost, now, i))
            || (exists i :: && 0 <= i < |messages| && end == offset + i + 1
                            && CommitsAt(db, parse, messages, offset, committed, lost, now, i)
                            && forall j | i < j < |messages| :: !CommitsAt(db, parse, messages, offset, committed, lost, now, j))
  {
    hide GatewayApply;
    if messages != [] {
      var n := |messages| - 1;
      var before := messages[..n];
      CommittedIsAfterTheLast(db, parse, before, offset, committed, lost, now);
      forall i | 0 <= i < n
        ensures CommitsAt(db, parse, before, offset, committed, lost, now, i) <==>
                  CommitsAt(db, parse, messages, offset, committed, lost, now, i)
      {
        assert before[..i] == messages[..i];
      }
      if CommitsAt(db, parse, messages, offset, committed, lost, now, n) {
        assert Consumed(db, parse, messages, offset, committed, lost, now).1 == offset + n + 1;
      } else {
        assert Consumed(db, parse, messages, offset, committed, lost, now).1 == Consumed(db, parse, before, offset, committed, lost, now).1;
      }
    }
  }

  /** Results are applied one after another; one that cannot be applied changes nothing. */
  lemma ConsumedTables(db: Db, parse: string -> Option<Parsed>, messages: seq<Option<Message>>, offset: nat, committed: nat,
                       lost: set<nat>, now: int)
    requires messages != []
    ensures var n := |messages| - 1;
            var before := Consumed(db, parse, messages[..n], offset, committed, lost, now).0;
            var after := Consumed(db, parse, messages, offset, committed, lost, now).0;
            if messages[n].Some? && GatewayApply(before, parse, messages[n].value, now).Success?
            then after == GatewayApply(before, parse, messages[n].value, now).value else after == before
  {
    hide GatewayApply;
  }

  class ResultConsumer {
    const repository: DiplomaRepository
    const log: seq<Option<Message>>   // None: a message that does not decode
    var pos: nat
    var committed: nat

    constructor (repository: DiplomaRepository, log: seq<Option<Message>>)
      ensures this.repository == repository && this.log == log && pos == 0 && committed == 0
    {
      this.repository, this.log := repository, log;
      pos, committed := 0, 0;
    }

    /** Fetch, apply, commit; an error is logged and the loop goes on with the next message. */
    method Start(lost: set<nat>, now: int)
      requires pos <= |log|
      modifies this, repository.database
      ensures pos == |log|
      ensures (repository.database.Tables(), committed)
           == Consumed(old(repository.database.Tables()), repository.parse, log[old(pos)..], old(pos), old(committed), lost, now)
    {
      hide GatewayApply;
      hide Consumed;
      ghost var start, tables, first := pos, repository.database.Tables(), committed;
      NothingConsumed(tables, repository.parse, log, start, first, lost, now);
      while pos < |log|
        invariant start <= pos <= |log|
        invariant (repository.database.Tables(), committed) == Consumed(tables, repository.parse, log[start..pos], start, first, lost, now)
      {
        OneMoreConsumed(tables, repository.parse, log, start, pos, first, lost, now);
        var reached := if pos in lost then committed else pos + 1;
        match log[pos] {
          case None => committed := reached;
          case Some(m) =>
            var applied := repository.ApplyProcessingResult(m, now);
            if applied.Success? {
              committed := reached;
            }
        }
        pos := pos + 1;
      }
      assert log[start..pos] == log[start..];
    }
  }

  function MessagesAt(results: seq<Message>, offsets: seq<nat>): seq<Option<Message>>
    requires Within(offsets, |results|)
  {
    seq(|offsets|, i requires 0 <= i < |offsets| => Some(results[offsets[i]]))
  }

  function Applications(offsets: seq<nat>, now: int): seq<Action> {
    seq(|offsets|, i requires 0 <= i < |offsets| => ApplyResult(offsets[i], now))
  }

  /** The coded consumer of published results is a run of the protocol, whatever it gets and whatever commits fail. */
  lemma {:induction false} ConsumedIsARun(cfg: Config, w: World, offsets: seq<nat>, first: nat, committed: nat, lost: set<nat>, now: int)
    requires Within(offsets, |w.results|)
    ensures Run(cfg, w, Applications(offsets, now))
         == w.(db := Consumed(w.db, cfg.parse, MessagesAt(w.results, offsets), first, committed, lost, now).0)
  {
    hide GatewayApply;
    if offsets != [] {
      var before, last := offsets[..|offsets| - 1], offsets[|offsets| - 1];
      assert Applications(offsets, now)[..|offsets| - 1] == Applications(before, now);
      assert MessagesAt(w.results, offsets)[..|offsets| - 1] == MessagesAt(w.results, before);
      ConsumedIsARun(cfg, w, before, first, committed, lost, now);
    }
  }

  /** Results that already have their rows, or whose batch is gone, leave the tables alone in any order and number. */
  lemma {:induction false} ConsumedChangesNothing(db: Db, parse: string -> Option<Parsed>, messages: seq<Option<Message>>,
                                                  offset: nat, committed: nat, lost: set<nat>, now: int)
    requires forall i | 0 <= i < |messages| && messages[i].Some? ::
               var r := GatewayApply(db, parse, messages[i].value, now); r.Success? ==> r.value == db
    ensures Consumed(db, parse, messages, offset, committed, lost, now).0 == db
  {
    hide GatewayApply;
    if messages != [] {
      ConsumedChangesNothing(db, parse, messages[..|messages| - 1], offset, committed, lost, now);
    }
  }

  /** So in every reachable world the gateway may handle published results in any order, any number of times. */
  lemma {:induction false} ResultsChangeNothing(cfg: Config, actions: seq<Action>, messages: seq<Option<Message>>,
                                                offset: nat, committed: nat, lost: set<nat>, now: int)
    requires R.ConfigOk(cfg)
    requires forall i | 0 <= i < |messages| && messages[i].Some? :: messages[i].value in Run(cfg, INITIAL, actions).results
    ensures var db := Run(cfg, INITIAL, actions).db; Consumed(db, cfg.parse, messages, offset, committed, lost, now).0 == db
  {
    hide GatewayApply;
    var w := Run(cfg, INITIAL, actions);
    R.Reachable(cfg, actions);
    forall i | 0 <= i < |messages| && messages[i].Some?
      ensures var r := GatewayApply(w.db, cfg.parse, messages[i].value, now); r.Success? ==> r.value == w.db
    {
      var at :| 0 <= at < |w.results| && w.results[at] == messages[i].value;
      AppliedAt(cfg, w, at, now);
    }
    ConsumedChangesNothing(w.db, cfg.parse, messages, offset, committed, lost, now);
  }

  lemma AppliedAt(cfg: Config, w: World, at: nat, now: int)
    requires I.Inv(cfg, w) && at < |w.results|
    ensures var r := GatewayApply(w.db, cfg.parse, w.results[at], now); r.Success? ==> r.value == w.db
  {
    hide GatewayApply;
    hide I.Inv;
    R.GatewayNeverWrites(cfg, w, at, now);
  }
}
