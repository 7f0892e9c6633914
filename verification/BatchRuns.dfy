/** Counters, status and results of batches in every run of the protocol. */
module BatchRuns {
  import opened Wrappers
  import opened Text
  import opened Crypto
  import opened Token
  import opened Tables
  import opened Protocol
  import opened ProtocolInvariant
  import opened ProtocolRuns
  import S = SigningKeys

  /** Counter conservation: whatever crashes, is redelivered or handled twice, a batch has counted exactly its
      result rows, never more than it has records, and every row sits at the index of a record. */
  lemma {:induction false} CountersConserved(cfg: Config, actions: seq<Action>)
    requires ConfigOk(cfg)
    ensures var db := Run(cfg, INITIAL, actions).db;
            && (forall b | b in db.batches :: db.batches[b].processed == |RowsOf(db.results, b)| <= db.batches[b].total)
            && (forall k | k in db.results :: k.batch in db.batches && k.index < db.batches[k.batch].total)
  {
    var db := Run(cfg, INITIAL, actions).db;
    Reachable(cfg, actions);
    forall b | b in db.batches ensures db.batches[b].processed <= db.batches[b].total {
      RowsFit(db.results, db.batches, b);
    }
  }

  // ---- status ----

  predicate AllIn(db: Db, b: BatchId)
    requires b in db.batches
  {
    forall i | 0 <= i < db.batches[b].total :: RowKey(b, i) in db.results
  }

  ghost predicate SomeError(results: Results, b: BatchId) {
    exists k :: k in results && k.batch == b && results[k].status == Error
  }

  lemma FullMeansAllIn(db: Db, b: BatchId)
    requires IndexesOk(db.results, db.batches) && CountersOk(db.batches, db.results) && b in db.batches
    ensures db.batches[b].processed <= db.batches[b].total
    ensures db.batches[b].processed == db.batches[b].total <==> AllIn(db, b)
  {
    var total := db.batches[b].total;
    RowsFit(db.results, db.batches, b);
    assert AllIn(db, b) <==> Slots(b, total) <= RowsOf(db.results, b) by {
      if Slots(b, total) <= RowsOf(db.results, b) {
        forall i | 0 <= i < total ensures RowKey(b, i) in db.results {
          assert RowKey(b, i) in Slots(b, total);
        }
      }
    }
  }

  lemma SomeErrorCounted(results: Results, b: BatchId)
    ensures SomeError(results, b) <==> ErrorsOf(results, b) != {}
  {
    if SomeError(results, b) {
      var k :| k in results && k.batch == b && results[k].status == Error;
      assert k in ErrorsOf(results, b);
    }
  }

  /** The status says exactly where a non-empty batch stands, unless `FailBatch` had the last word on it. */
  lemma {:induction false} StatusIsTruthful(cfg: Config, actions: seq<Action>, b: BatchId)
    requires ConfigOk(cfg)
    requires var w := Run(cfg, INITIAL, actions); b in w.db.batches && b !in w.overruled && w.db.batches[b].total > 0
    ensures var db := Run(cfg, INITIAL, actions).db;
            && (db.batches[b].status == Processing <==> db.batches[b].processed < db.batches[b].total)
            && (db.batches[b].status == Completed <==> AllIn(db, b) && !SomeError(db.results, b))
            && (db.batches[b].status == Failed <==> AllIn(db, b) && SomeError(db.results, b))
  {
    var w := Run(cfg, INITIAL, actions);
    Reachable(cfg, actions);
    TruthfulMeans(w, b);
  }

  lemma TruthfulMeans(w: World, b: BatchId)
    requires IndexesOk(w.db.results, w.db.batches) && CountersOk(w.db.batches, w.db.results)
    requires b in w.db.batches && StatusOk(w.db.batches[b], w.db.results, w.overruled, b)
    requires b !in w.overruled && w.db.batches[b].total > 0
    ensures var db := w.db;
            && (db.batches[b].status == Processing <==> db.batches[b].processed < db.batches[b].total)
            && (db.batches[b].status == Completed <==> AllIn(db, b) && !SomeError(db.results, b))
            && (db.batches[b].status == Failed <==> AllIn(db, b) && SomeError(db.results, b))
  {
    FullMeansAllIn(w.db, b);
    SomeErrorCounted(w.db.results, b);
  }

  predicate NoneFails(b: BatchId, actions: seq<Action>) {
    forall i | 0 <= i < |actions| :: !(actions[i].FailUpload? && actions[i].b == b)
  }

  lemma LastFailsNot(b: BatchId, actions: seq<Action>)
    requires NoneFails(b, actions) && actions != []
    ensures NoneFails(b, actions[..|actions| - 1]) && !(actions[|actions| - 1].FailUpload? && actions[|actions| - 1].b == b)
  {
  }

  lemma NextOverrules(cfg: Config, w: World, a: Action, b: BatchId)
    requires !(a.FailUpload? && a.b == b) && b !in w.overruled
    ensures b !in Next(cfg, w, a).overruled
  {
  }

  /** Without a failed publish no batch is overruled. */
  lemma {:induction false} NotOverruled(cfg: Config, w: World, actions: seq<Action>, b: BatchId)
    requires NoneFails(b, actions) && b !in w.overruled
    ensures b !in Run(cfg, w, actions).overruled
  {
    hide NoneFails;
    hide Next;
    if actions != [] {
      var before, last := actions[..|actions| - 1], actions[|actions| - 1];
      LastFailsNot(b, actions);
      NotOverruled(cfg, w, before, b);
      NextOverrules(cfg, Run(cfg, w, before), last, b);
    }
  }

  // ---- a full batch is done ----

  lemma PersistLeavesFull(cfg: Config, w: World, m: Message, now: int, b: BatchId)
    requires Inv(cfg, w) && MessageOk(cfg, w.db, w.uploads, m) && Persist(w.db, m, now).Success? && Closed(w.db, b)
    ensures b in Persist(w.db, m, now).value.batches && Persist(w.db, m, now).value.batches[b] == w.db.batches[b]
  {
    if KeyOf(m) !in w.db.results {
      PersistFits(w.db, KeyOf(m), WorkerVerdict(m).row, now);
      RoomLeft(w.db, w.uploads, w.retired, KeyOf(m));
      PersistRowShape(w.db, KeyOf(m), WorkerVerdict(m).row, now);
    }
  }

  lemma ConcludeTouches(cfg: Config, db: Db, t: Task, sealed: string, existing: Option<string>, stamp: Stamp)
    ensures var after := Conclude(cfg, db, t, sealed, existing, stamp).0; after == db.(registry := after.registry)
  {
  }

  /** Of a worker's statements only the persist transaction touches batches. */
  lemma OnlyPersistTouchesBatches(cfg: Config, w: World, id: nat, stamp: Stamp, now: int)
    requires id in w.workers
    ensures var x := w.workers[id];
            DoWork(cfg, w, id, stamp, now).db.batches ==
              if x.stage.Ready? && Persist(w.db, x.stage.m, now).Success? then Persist(w.db, x.stage.m, now).value.batches
              else w.db.batches
  {
    if w.workers[id].stage.Looked? {
      ConcludeTouches(cfg, w.db, w.workers[id].task, w.workers[id].stage.sealed, w.workers[id].stage.existing, stamp);
    }
  }

  lemma ReadyMessageOk(cfg: Config, w: World, id: nat)
    requires Inv(cfg, w) && id in w.workers && w.workers[id].stage.Ready?
    ensures MessageOk(cfg, w.db, w.uploads, w.workers[id].stage.m)
    ensures KeyOf(w.workers[id].stage.m) == RowOf(w.workers[id].task)
  {
    assert WorkerOk(cfg, w.db, w.uploads, w.workers[id]);
  }

  lemma WorkLeavesFull(cfg: Config, w: World, id: nat, stamp: Stamp, now: int, b: BatchId)
    requires Inv(cfg, w) && Closed(w.db, b)
    ensures var after := Next(cfg, w, Work(id, stamp, now)).db; b in after.batches && after.batches[b] == w.db.batches[b]
  {
    hide Inv;
    hide DoWork;
    hide Persist;
    hide MessageOk;
    if id in w.workers {
      OnlyPersistTouchesBatches(cfg, w, id, stamp, now);
      if w.workers[id].stage.Ready? && Persist(w.db, w.workers[id].stage.m, now).Success? {
        ReadyMessageOk(cfg, w, id);
        PersistLeavesFull(cfg, w, w.workers[id].stage.m, now, b);
      }
    }
  }

  lemma CreateLeavesFull(cfg: Config, w: World, a: Action, b: BatchId)
    requires a.CreateUpload? && b in w.db.batches && b in w.uploads
    ensures var after := Next(cfg, w, a).db; b in after.batches ==> after.batches[b] == w.db.batches[b]
  {
  }

  lemma NextLeavesFull(cfg: Config, w: World, a: Action, b: BatchId)
    requires Inv(cfg, w) && Closed(w.db, b) && !(a.FailUpload? && a.b == b)
    ensures var after := Next(cfg, w, a).db; b in after.batches ==> after.batches[b] == w.db.batches[b]
  {
    assert b in w.uploads;
    hide Inv;
    hide Next;
    match a
    case Work(id, stamp, now) => WorkLeavesFull(cfg, w, id, stamp, now, b);
    case ApplyResult(offset, now) => ApplyStep(cfg, w, offset, now);
    case CreateUpload(_, _, _) => CreateLeavesFull(cfg, w, a, b);
    case _ => OthersLeaveBatches(cfg, w, a, b);
  }

  lemma OthersLeaveBatches(cfg: Config, w: World, a: Action, b: BatchId)
    requires !a.Work? && !a.ApplyResult? && !a.CreateUpload? && !(a.FailUpload? && a.b == b) && b in w.db.batches
    ensures var after := Next(cfg, w, a).db; b in after.batches ==> after.batches[b] == w.db.batches[b]
  {
    match a
    case UpsertKey(call, crash) =>
      if S.Upsert(cfg.p, cfg.master, w.db, call, crash).Success? {
        UpsertTouches(cfg, w.db, call, crash);
      }
    case RevokeDiploma(vuz, hash, now) =>
      if Revoke(w.db, vuz, hash, now).Success? {
        RevokeTouches(w.db, vuz, hash, now);
      }
    case _ =>
  }

  /** A full batch never changes again, status and completion time included, unless `FailBatch` is run on it;
      it only disappears with its university. */
  lemma {:induction false} FullBatchIsFinal(cfg: Config, w: World, actions: seq<Action>, b: BatchId)
    requires Inv(cfg, w) && ConfigOk(cfg) && Closed(w.db, b) && NoneFails(b, actions)
    ensures var after := Run(cfg, w, actions).db; b in after.batches ==> after.batches[b] == w.db.batches[b]
  {
    hide Inv;
    hide Next;
    hide Later;
    if actions != [] {
      var last := actions[|actions| - 1];
      var before := Run(cfg, w, actions[..|actions| - 1]);
      FullBatchIsFinal(cfg, w, actions[..|actions| - 1], b);
      RunKeeps(cfg, w, actions[..|actions| - 1]);
      NextKeeps(cfg, before, last);
      LiveThroughout(cfg, w, before, Next(cfg, before, last));
      assert !(last.FailUpload? && last.b == b);
      if b in before.db.batches {
        NextLeavesFull(cfg, before, last, b);
      }
    }
  }

  /** Status is final: in any run without a failed publish of the batch, once it is completed or failed its row
      in `batches` never changes again. */
  lemma {:induction false} TerminalStatusIsFinal(cfg: Config, first: seq<Action>, more: seq<Action>, b: BatchId)
    requires ConfigOk(cfg) && NoneFails(b, first) && NoneFails(b, more)
    requires var w := Run(cfg, INITIAL, first); b in w.db.batches && w.db.batches[b].status != Processing
    ensures var w, v := Run(cfg, INITIAL, first), Run(cfg, INITIAL, first + more);
            b in v.db.batches ==> v.db.batches[b] == w.db.batches[b]
  {
    var w := Run(cfg, INITIAL, first);
    Reachable(cfg, first);
    NotOverruled(cfg, INITIAL, first, b);
    assert StatusOk(w.db.batches[b], w.db.results, w.overruled, b);
    RunConcat(cfg, INITIAL, first, more);
    FullBatchIsFinal(cfg, w, more, b);
  }

  // ---- progress ----

  function HandleBy(id: nat, offset: nat, stamp: Stamp, now: int): seq<Action> {
    [Deliver(id, offset)] + seq(5, _ => Work(id, stamp, now))
  }

  function Needs(stage: Stage): nat {
    match stage
    case Fetched => 5
    case HasKey(_) => 4
    case Looked(_, _) => 3
    case Ready(_) => 2
    case Persisted(_) => 1
  }

  /** Worker `id` goes on for `n` statements. */
  function Worked(cfg: Config, w: World, id: nat, stamp: Stamp, now: int, n: nat): World
    decreases n
  {
    if n == 0 then w else Worked(cfg, Next(cfg, w, Work(id, stamp, now)), id, stamp, now, n - 1)
  }

  lemma {:induction false} WorkedIsRun(cfg: Config, w: World, id: nat, stamp: Stamp, now: int, n: nat)
    ensures Run(cfg, w, seq(n, _ => Work(id, stamp, now))) == Worked(cfg, w, id, stamp, now, n)
    decreases n
  {
    var work := Work(id, stamp, now);
    if n > 0 {
      assert seq(n, _ => work) == [work] + seq(n - 1, _ => work);
      RunConcat(cfg, w, [work], seq(n - 1, _ => work));
      assert Run(cfg, w, [work][..0]) == w;
      WorkedIsRun(cfg, Next(cfg, w, work), id, stamp, now, n - 1);
    }
  }

  /** A persist transaction only fails if the batch is gone. */
  lemma PersistSucceeds(db: Db, m: Message, now: int)
    requires m.batch in db.batches
    ensures Persist(db, m, now).Success?
  {
    if KeyOf(m) !in db.results {
      PersistRowShape(db, KeyOf(m), WorkerVerdict(m).row, now);
    }
  }

  lemma WorkAdvances(cfg: Config, w: World, id: nat, stamp: Stamp, now: int)
    requires id in w.workers && (w.workers[id].stage.Ready? ==> w.workers[id].stage.m.batch == w.workers[id].task.batch)
    ensures var v := Next(cfg, w, Work(id, stamp, now));
            if id in v.workers then
              && v.workers[id].task == w.workers[id].task && Needs(v.workers[id].stage) <= Needs(w.workers[id].stage)
              && (ValidStamp(stamp) ==> Needs(v.workers[id].stage) < Needs(w.workers[id].stage))
            else w.workers[id].stage.Persisted? || w.workers[id].task.batch !in w.db.batches
  {
    if w.workers[id].stage.Ready? && w.workers[id].task.batch in w.db.batches {
      PersistSucceeds(w.db, w.workers[id].stage.m, now);
    }
  }

  lemma IgnoresStranger(cfg: Config, w: World, id: nat, stamp: Stamp, now: int)
    requires id !in w.workers
    ensures Next(cfg, w, Work(id, stamp, now)) == w
  {
  }

  /** A task that a worker is through with has its row for as long as its batch lives. */
  lemma ThroughHasRow(cfg: Config, w: World, v: World, id: nat)
    requires Inv(cfg, w) && Later(w, v) && id in w.workers && w.workers[id].task.batch in v.db.batches
    ensures w.workers[id].task.batch in w.db.batches
    ensures w.workers[id].stage.Persisted? ==> RowOf(w.workers[id].task) in v.db.results
  {
    assert WorkerOk(cfg, w.db, w.uploads, w.workers[id]);
  }

  predicate IsTurn(a: Action, id: nat) {
    a.Work? && a.id == id && ValidStamp(a.stamp)
  }

  /** Worker `id` gets `n` turns before it crashes, with steps of anyone else in between. */
  predicate Turns(actions: seq<Action>, id: nat, n: nat) {
    n == 0 || (actions != [] && actions[0] != Crash(id)
               && Turns(actions[1..], id, if IsTurn(actions[0], id) then n - 1 else n))
  }

  /** Only a crash of its own, or its work, ends a worker. */
  lemma OthersLeaveWorker(cfg: Config, w: World, a: Action, id: nat)
    requires id in w.workers && a != Crash(id) && !(a.Work? && a.id == id)
    ensures var v := Next(cfg, w, a);
            && id in v.workers && v.workers[id].task == w.workers[id].task
            && Needs(v.workers[id].stage) <= Needs(w.workers[id].stage)
  {
  }

  lemma RunFront(cfg: Config, w: World, actions: seq<Action>)
    requires actions != []
    ensures Run(cfg, w, actions) == Run(cfg, Next(cfg, w, actions[0]), actions[1..])
  {
    hide Next;
    RunConcat(cfg, w, actions[..1], actions[1..]);
    assert actions[..1] + actions[1..] == actions && actions[..1][..0] == [];
  }

  /** A worker that gets the turns it needs ends with the row of its task in place. */
  lemma {:induction false} TurnsLeaveRow(cfg: Config, w: World, actions: seq<Action>, id: nat, n: nat)
    requires Inv(cfg, w) && ConfigOk(cfg) && id in w.workers && Needs(w.workers[id].stage) <= n && Turns(actions, id, n)
    requires w.workers[id].task.batch in Run(cfg, w, actions).db.batches
    ensures RowOf(w.workers[id].task) in Run(cfg, w, actions).db.results
    decreases |actions|
  {
    hide Inv;
    hide Later;
    hide Next;
    hide Run;
    var a := actions[0];
    var u := Next(cfg, w, a);
    RunKeeps(cfg, w, actions);
    NextKeeps(cfg, w, a);
    RunFront(cfg, w, actions);
    ThroughHasRow(cfg, w, Run(cfg, w, actions), id);
    if a.Work? && a.id == id {
      if w.workers[id].stage.Ready? {
        ReadyMessageOk(cfg, w, id);
      }
      WorkAdvances(cfg, w, id, a.stamp, a.now);
    } else {
      OthersLeaveWorker(cfg, w, a, id);
    }
    if id in u.workers {
      TurnsLeaveRow(cfg, u, actions[1..], id, if IsTurn(a, id) then n - 1 else n);
    }
  }

  /** At some point of the run a task for this row goes to a worker, which then gets its five turns. */
  ghost predicate HandledIn(cfg: Config, w: World, actions: seq<Action>, k: RowKey) {
    exists j: nat :: j < |actions| && HandledFrom(Run(cfg, w, actions[..j]), actions[j], actions[j + 1..], k)
  }

  predicate HandledFrom(w: World, a: Action, more: seq<Action>, k: RowKey) {
    && a.Deliver? && a.id !in w.workers && a.offset < |w.raw| && RowOf(w.raw[a.offset]) == k
    && Turns(more, a.id, 5)
  }

  lemma Delivered(cfg: Config, w: World, a: Action, more: seq<Action>, k: RowKey)
    requires HandledFrom(w, a, more, k)
    ensures var v := Next(cfg, w, a); a.id in v.workers && Needs(v.workers[a.id].stage) == 5 && RowOf(v.workers[a.id].task) == k
  {
  }

  lemma HandledHasRow(cfg: Config, w: World, actions: seq<Action>, k: RowKey)
    requires Inv(cfg, w) && ConfigOk(cfg) && HandledIn(cfg, w, actions, k) && k.batch in Run(cfg, w, actions).db.batches
    ensures k in Run(cfg, w, actions).db.results
  {
    hide Inv;
    hide Later;
    hide Next;
    hide Run;
    hide Turns;
    hide HandledFrom;
    var j: nat :| j < |actions| && HandledFrom(Run(cfg, w, actions[..j]), actions[j], actions[j + 1..], k);
    var u := Run(cfg, w, actions[..j]);
    RunKeeps(cfg, w, actions[..j]);
    NextKeeps(cfg, u, actions[j]);
    RunConcat(cfg, w, actions[..j], actions[j..]);
    RunFront(cfg, u, actions[j..]);
    assert actions[..j] + actions[j..] == actions && actions[j..][1..] == actions[j + 1..];
    Delivered(cfg, u, actions[j], actions[j + 1..], k);
    TurnsGiven(u, actions[j], actions[j + 1..], k);
    TurnsLeaveRow(cfg, Next(cfg, u, actions[j]), actions[j + 1..], actions[j].id, 5);
  }

  lemma TurnsGiven(w: World, a: Action, more: seq<Action>, k: RowKey)
    requires HandledFrom(w, a, more, k)
    ensures a.Deliver? && Turns(more, a.id, 5)
  {
  }

  lemma AllInIsTerminal(cfg: Config, w: World, b: BatchId)
    requires Inv(cfg, w) && b in w.db.batches && AllIn(w.db, b) && w.db.batches[b].total > 0
    ensures w.db.batches[b].status != Processing
  {
    FullMeansAllIn(w.db, b);
    assert StatusOk(w.db.batches[b], w.db.results, w.overruled, b);
  }

  lemma SameTotal(cfg: Config, w: World, v: World, b: BatchId)
    requires Later(w, v) && b in w.db.batches && b in v.db.batches
    ensures v.db.batches[b].total == w.db.batches[b].total
  {
  }

  /** Progress: from any state, and in any run, however its steps interleave, whatever crashes, faults or is
      delivered again, a non-empty batch that survives is terminal once each of its records' tasks has gone to
      some worker that got five turns before it crashed. */
  lemma {:induction false} FairRunsEndBatches(cfg: Config, w: World, actions: seq<Action>, b: BatchId)
    requires Inv(cfg, w) && ConfigOk(cfg)
    requires b in Run(cfg, w, actions).db.batches && Run(cfg, w, actions).db.batches[b].total > 0
    requires forall i: nat | i < Run(cfg, w, actions).db.batches[b].total :: HandledIn(cfg, w, actions, RowKey(b, i))
    ensures var db := Run(cfg, w, actions).db; AllIn(db, b) && db.batches[b].status != Processing
  {
    hide Inv;
    hide Run;
    hide HandledIn;
    var v := Run(cfg, w, actions);
    forall i: nat | i < v.db.batches[b].total ensures RowKey(b, i) in v.db.results {
      assert HandledIn(cfg, w, actions, RowKey(b, i));
      HandledHasRow(cfg, w, actions, RowKey(b, i));
    }
    RunKeeps(cfg, w, actions);
    AllInIsTerminal(cfg, v, b);
  }

  // ---- the same, by persist transactions ----

  /** At some point of the run a worker was through with its persist transaction for this row. */
  ghost predicate PersistedIn(cfg: Config, actions: seq<Action>, k: RowKey) {
    exists n: nat, id: nat :: n <= |actions| && HasPersisted(Run(cfg, INITIAL, actions[..n]), id, k)
  }

  predicate HasPersisted(w: World, id: nat, k: RowKey) {
    id in w.workers && w.workers[id].stage.Persisted? && KeyOf(w.workers[id].stage.m) == k
  }

  lemma PersistedLeavesRow(cfg: Config, w: World, v: World, id: nat, k: RowKey)
    requires Inv(cfg, w) && Later(w, v) && HasPersisted(w, id, k) && k.batch in v.db.batches
    ensures k in v.db.results
  {
    assert WorkerOk(cfg, w.db, w.uploads, w.workers[id]);
  }

  lemma PersistedStaysIn(cfg: Config, actions: seq<Action>, k: RowKey)
    requires ConfigOk(cfg) && PersistedIn(cfg, actions, k) && k.batch in Run(cfg, INITIAL, actions).db.batches
    ensures k in Run(cfg, INITIAL, actions).db.results
  {
    hide Inv;
    hide Later;
    hide Run;
    hide HasPersisted;
    var n: nat, id: nat :| n <= |actions| && HasPersisted(Run(cfg, INITIAL, actions[..n]), id, k);
    var w := Run(cfg, INITIAL, actions[..n]);
    Reachable(cfg, actions[..n]);
    RunKeeps(cfg, w, actions[n..]);
    RunConcat(cfg, INITIAL, actions[..n], actions[n..]);
    assert actions[..n] + actions[n..] == actions;
    PersistedLeavesRow(cfg, w, Run(cfg, INITIAL, actions), id, k);
  }

  /** In any run, with whatever schedule, crashes and repeats: once each record of a non-empty batch has had a
      persist transaction that succeeded, the batch is terminal. */
  lemma {:induction false} PersistedBatchIsTerminal(cfg: Config, actions: seq<Action>, b: BatchId)
    requires ConfigOk(cfg) && b in Run(cfg, INITIAL, actions).db.batches && Run(cfg, INITIAL, actions).db.batches[b].total > 0
    requires forall i: nat | i < Run(cfg, INITIAL, actions).db.batches[b].total :: PersistedIn(cfg, actions, RowKey(b, i))
    ensures Run(cfg, INITIAL, actions).db.batches[b].status != Processing
  {
    hide Inv;
    hide Run;
    hide PersistedIn;
    var w := Run(cfg, INITIAL, actions);
    forall i: nat | i < w.db.batches[b].total ensures RowKey(b, i) in w.db.results {
      assert PersistedIn(cfg, actions, RowKey(b, i));
      PersistedStaysIn(cfg, actions, RowKey(b, i));
    }
    Reachable(cfg, actions);
    AllInIsTerminal(cfg, w, b);
  }

  // ---- what becomes of a batch that FailBatch has overruled ----

  /** Overruled exactly while rows are missing. */
  predicate Open(w: World, b: BatchId) {
    b in w.db.batches ==> (b in w.overruled <==> !Closed(w.db, b))
  }

  lemma PersistKeepsOpen(w: World, m: Message, now: int, b: BatchId)
    requires Open(w, b) && Persist(w.db, m, now).Success?
    ensures var after := Persist(w.db, m, now).value;
            Open(w.(db := after, overruled := Reopened(w.db, after, KeyOf(m), w.overruled)), b)
  {
    if KeyOf(m) !in w.db.results && m.batch in w.db.batches {
      PersistRowShape(w.db, KeyOf(m), WorkerVerdict(m).row, now);
    }
  }

  lemma WorkKeepsOpen(cfg: Config, w: World, id: nat, stamp: Stamp, now: int, b: BatchId)
    requires Open(w, b)
    ensures Open(Next(cfg, w, Work(id, stamp, now)), b)
  {
    if id in w.workers {
      match w.workers[id].stage
      case Ready(m) =>
        if Persist(w.db, m, now).Success? {
          PersistKeepsOpen(w, m, now, b);
        }
      case Looked(sealed, existing) =>
        ConcludeTouches(cfg, w.db, w.workers[id].task, sealed, existing, stamp);
      case _ =>
    }
  }

  lemma OthersKeepOpen(cfg: Config, w: World, a: Action, b: BatchId)
    requires !a.Work? && !a.ApplyResult? && !a.CreateUpload? && !(a.FailUpload? && a.b == b) && Open(w, b)
    ensures Open(Next(cfg, w, a), b)
  {
    if b in w.db.batches {
      OthersLeaveBatches(cfg, w, a, b);
    } else if a.UpsertKey? && S.Upsert(cfg.p, cfg.master, w.db, a.call, a.crash).Success? {
      UpsertTouches(cfg, w.db, a.call, a.crash);
    } else if a.RevokeDiploma? && Revoke(w.db, a.vuz, a.hash, a.now).Success? {
      RevokeTouches(w.db, a.vuz, a.hash, a.now);
    }
  }

  lemma CreateKeepsOpen(cfg: Config, w: World, a: Action, b: BatchId)
    requires a.CreateUpload? && Open(w, b) && b in w.uploads
    ensures Open(Next(cfg, w, a), b)
  {
  }

  lemma {:induction false} RunKeepsOpen(cfg: Config, w: World, actions: seq<Action>, b: BatchId)
    requires Inv(cfg, w) && ConfigOk(cfg) && Open(w, b) && NoneFails(b, actions) && b in w.uploads
    ensures Open(Run(cfg, w, actions), b)
  {
    if actions != [] {
      var last := actions[|actions| - 1];
      var before := Run(cfg, w, actions[..|actions| - 1]);
      RunKeepsOpen(cfg, w, actions[..|actions| - 1], b);
      RunKeeps(cfg, w, actions[..|actions| - 1]);
      assert !(last.FailUpload? && last.b == b);
      assert b in before.uploads;
      hide Inv;
      hide Later;
      hide Next;
      match last
      case Work(id, stamp, now) => WorkKeepsOpen(cfg, before, id, stamp, now, b);
      case ApplyResult(offset, now) => ApplyStep(cfg, before, offset, now);
      case CreateUpload(_, _, _) => CreateKeepsOpen(cfg, before, last, b);
      case _ => OthersKeepOpen(cfg, before, last, b);
    }
  }

  lemma FailOpens(cfg: Config, w: World, b: BatchId, now: int)
    requires Inv(cfg, w) && b in w.db.batches && w.db.batches[b].processed < w.db.batches[b].total
    ensures var v := Next(cfg, w, FailUpload(b, now));
            Open(v, b) && b in v.uploads && b in v.db.batches && v.db.batches[b].total == w.db.batches[b].total > 0
  {
    assert b in w.uploads;
    hide Inv;
  }

  lemma {:induction false} OverruledWhileOpen(cfg: Config, w: World, more: seq<Action>, b: BatchId, now: int)
    requires Inv(cfg, w) && ConfigOk(cfg) && NoneFails(b, more)
    requires b in w.db.batches && w.db.batches[b].processed < w.db.batches[b].total
    requires b in Run(cfg, Next(cfg, w, FailUpload(b, now)), more).db.batches
    ensures var db := Run(cfg, Next(cfg, w, FailUpload(b, now)), more).db;
            && (db.batches[b].status == Completed <==> AllIn(db, b) && !SomeError(db.results, b))
            && (db.batches[b].status == Failed <==> !(AllIn(db, b) && !SomeError(db.results, b)))
  {
    hide *;
    var failed := Next(cfg, w, FailUpload(b, now));
    FailOpens(cfg, w, b, now);
    FailStep(cfg, w, b, now);
    RunKeepsOpen(cfg, failed, more, b);
    RunKeeps(cfg, failed, more);
    SameTotal(cfg, failed, Run(cfg, failed, more), b);
    VerdictOf(cfg, Run(cfg, failed, more), b);
  }

  /** How it ends after `FailBatch`, in any later run without another one: the batch reads completed exactly if rows
      were missing when it was failed and then all came in without error. Otherwise it reads failed: a batch that
      was failed after its last row stays so. */
  lemma {:induction false} OverruledOutcome(cfg: Config, w: World, more: seq<Action>, b: BatchId, now: int)
    requires Inv(cfg, w) && ConfigOk(cfg) && NoneFails(b, more) && b in w.db.batches
    requires b in Run(cfg, Next(cfg, w, FailUpload(b, now)), more).db.batches
    ensures var db := Run(cfg, Next(cfg, w, FailUpload(b, now)), more).db;
            && (db.batches[b].status == Completed <==> !Closed(w.db, b) && AllIn(db, b) && !SomeError(db.results, b))
            && (db.batches[b].status == Failed <==> !(!Closed(w.db, b) && AllIn(db, b) && !SomeError(db.results, b)))
  {
    hide Inv;
    hide Later;
    hide Run;
    hide AllIn;
    hide SomeError;
    if Closed(w.db, b) {
      FailStep(cfg, w, b, now);
      FullBatchIsFinal(cfg, Next(cfg, w, FailUpload(b, now)), more, b);
    } else {
      OverruledWhileOpen(cfg, w, more, b, now);
    }
  }

  lemma VerdictOf(cfg: Config, w: World, b: BatchId)
    requires Inv(cfg, w) && Open(w, b) && b in w.db.batches && w.db.batches[b].total > 0
    ensures w.db.batches[b].status == Completed <==> AllIn(w.db, b) && !SomeError(w.db.results, b)
    ensures w.db.batches[b].status == Failed <==> !(AllIn(w.db, b) && !SomeError(w.db.results, b))
  {
    FullMeansAllIn(w.db, b);
    SomeErrorCounted(w.db.results, b);
    assert StatusOk(w.db.batches[b], w.db.results, w.overruled, b);
  }

  // ---- a worker that succeeds ----

  /** The registry has room for the task's hash, or already holds it. */
  predicate Admissible(cfg: Config, registry: Registry, t: Task) {
    if TaskKey(t) in registry then registry[TaskKey(t)].hash == TaskHash(cfg, t) else !HashTaken(registry, TaskHash(cfg, t))
  }

  /** The registry once the task's hash is in. */
  function Entered(cfg: Config, registry: Registry, t: Task): Registry {
    if TaskKey(t) in registry then registry else registry[TaskKey(t) := Entry(TaskHash(cfg, t), false, None)]
  }

  lemma ConcludesOk(cfg: Config, db: Db, t: Task, sealed: string, stamp: Stamp)
    requires ValidStamp(stamp) && cfg.unseal(sealed).Some? && t.vuz in db.universities && Admissible(cfg, db.registry, t)
    ensures var existing := if TaskKey(t) in db.registry then Some(db.registry[TaskKey(t)].hash) else None;
            var r := Conclude(cfg, db, t, sealed, existing, stamp);
            && r.0 == db.(registry := Entered(cfg, db.registry, t))
            && r.1 == SuccessMessage(t, TaskHash(cfg, t), cfg.issue(cfg.unseal(sealed).value, stamp, t.student, t.vuz))
  {
  }

  /** What a healthy run of `process_inner` needs to find. */
  predicate Healthy(cfg: Config, db: Db, t: Task) {
    && t.vuz in db.keys && cfg.unseal(db.keys[t.vuz]).Some? && t.vuz in db.universities
    && !Blank(t.student.number) && Admissible(cfg, db.registry, t)
  }

  function Done(cfg: Config, db: Db, t: Task, stamp: Stamp): Message
    requires Healthy(cfg, db, t)
  {
    SuccessMessage(t, TaskHash(cfg, t), cfg.issue(cfg.unseal(db.keys[t.vuz]).value, stamp, t.student, t.vuz))
  }

  lemma ReachesReady(cfg: Config, w: World, id: nat, stamp: Stamp, now: int)
    requires ValidStamp(stamp) && id in w.workers && w.workers[id].stage == Fetched && Healthy(cfg, w.db, w.workers[id].task)
    ensures var work := Work(id, stamp, now);
            var v := Next(cfg, Next(cfg, Next(cfg, w, work), work), work);
            && id in v.workers && v.workers[id].stage == Ready(Done(cfg, w.db, w.workers[id].task, stamp))
            && v.db == w.db.(registry := Entered(cfg, w.db.registry, w.workers[id].task))
            && v.results == w.results && v.uploads == w.uploads
  {
    var t := w.workers[id].task;
    var sealed := w.db.keys[t.vuz];
    var existing := if TaskKey(t) in w.db.registry then Some(w.db.registry[TaskKey(t)].hash) else None;
    var work := Work(id, stamp, now);
    var w1 := Next(cfg, w, work);
    assert w1 == Reach(w, id, HasKey(sealed));
    var w2 := Next(cfg, w1, work);
    assert w2 == Reach(w1, id, Looked(sealed, existing));
    ConcludesOk(cfg, w.db, t, sealed, stamp);
  }

  lemma ReadyPublishes(cfg: Config, w: World, id: nat, stamp: Stamp, now: int)
    requires id in w.workers && w.workers[id].stage.Ready? && Persist(w.db, w.workers[id].stage.m, now).Success?
    ensures var work := Work(id, stamp, now);
            Next(cfg, Next(cfg, w, work), work).db == Persist(w.db, w.workers[id].stage.m, now).value
  {
  }

  /** A worker left alone turns an admissible task whose row is missing into an ok row. */
  lemma HandledSucceeds(cfg: Config, w: World, id: nat, offset: nat, stamp: Stamp, now: int)
    requires ValidStamp(stamp) && id !in w.workers && offset < |w.raw| && Healthy(cfg, w.db, w.raw[offset])
    requires w.raw[offset].batch in w.db.batches && RowOf(w.raw[offset]) !in w.db.results
    ensures var t := w.raw[offset];
            var db := Run(cfg, w, HandleBy(id, offset, stamp, now)).db;
            && db.results == w.db.results[RowOf(t) := WorkerVerdict(Done(cfg, w.db, t, stamp)).row]
            && db == w.db.(results := db.results, batches := db.batches, registry := Entered(cfg, w.db.registry, t))
  {
    var deliver, work := Deliver(id, offset), Work(id, stamp, now);
    RunConcat(cfg, w, [deliver], seq(5, _ => work));
    assert Run(cfg, w, [deliver][..0]) == w;
    var w0 := Next(cfg, w, deliver);
    assert w0.db == w.db && w0.workers[id] == Worker(w.raw[offset], Fetched);
    WorkedIsRun(cfg, w0, id, stamp, now, 5);
    FiveStatements(cfg, w0, id, stamp, now);
    hide Next;
    hide Healthy;
    ReachesReady(cfg, w0, id, stamp, now);
    var w3 := Next(cfg, Next(cfg, Next(cfg, w0, work), work), work);
    var m := Done(cfg, w.db, w.raw[offset], stamp);
    PersistRowShape(w3.db, KeyOf(m), WorkerVerdict(m).row, now);
    ReadyPublishes(cfg, w3, id, stamp, now);
  }

  lemma FiveStatements(cfg: Config, w: World, id: nat, stamp: Stamp, now: int)
    ensures var work := Work(id, stamp, now);
            Worked(cfg, w, id, stamp, now, 5) == Next(cfg, Next(cfg, Next(cfg, Next(cfg, Next(cfg, w, work), work), work), work), work)
  {
    hide Next;
    var work := Work(id, stamp, now);
    var two := Next(cfg, Next(cfg, w, work), work);
    assert Worked(cfg, w, id, stamp, now, 5) == Worked(cfg, two, id, stamp, now, 3);
    var four := Next(cfg, Next(cfg, two, work), work);
    assert Worked(cfg, two, id, stamp, now, 3) == Worked(cfg, four, id, stamp, now, 1);
  }

  // ---- the order of FailBatch and the worker decides ----

  /** A university with a signing key, and one record uploaded for it and published. */
  function Uploading(call: S.Call, code: string, s: Student): seq<Action> {
    [RegisterUniversity(call.vuz, code, code), UpsertKey(call, false), CreateUpload(0, call.vuz, [s]), PublishTask(0, 0)]
  }

  lemma Registering(cfg: Config, w: World, vuz: Uuid, code: string)
    requires vuz !in w.db.universities && vuz !in w.retired && !CodeTaken(w.db, code)
    ensures var v := Next(cfg, w, RegisterUniversity(vuz, code, code));
            v == w.(db := w.db.(universities := w.db.universities[vuz := University(code, code, None)]))
  {
  }

  lemma FirstUpsert(p: Primitives, master: seq<byte>, db: Db, call: S.Call)
    requires p.readPrivate(call.pem).Some? && call.vuz in db.universities && db.universities[call.vuz].publicKey.None?
    ensures S.Upsert(p, master, db, call, false)
         == Success(S.WritePublic(p, db, call).(keys := db.keys[call.vuz := S.Seal(p, master, call.nonce, call.pem)]))
  {
    hide S.Seal;
  }

  lemma PublicWritten(p: Primitives, db: Db, call: S.Call)
    requires call.vuz in db.universities
    ensures var after := S.WritePublic(p, db, call);
            && after == db.(universities := after.universities)
            && call.vuz in after.universities && after.universities[call.vuz].code == db.universities[call.vuz].code
  {
  }

  lemma OpensAgain(cfg: Config, call: S.Call)
    requires ConfigOk(cfg) && |call.nonce| == NONCE_SIZE && cfg.p.readPrivate(call.pem).Some?
    ensures cfg.unseal(S.Seal(cfg.p, cfg.master, call.nonce, call.pem)).Some?
  {
    hide S.Seal;
    hide S.WorkerUnseal;
    S.SealedKeyOpens(cfg.p, cfg.master, call.nonce, call.pem);
  }

  lemma FirstKey(cfg: Config, w: World, call: S.Call)
    requires ConfigOk(cfg) && |call.nonce| == NONCE_SIZE && cfg.p.readPrivate(call.pem).Some?
    requires call.vuz in w.db.universities && w.db.universities[call.vuz].publicKey.None?
    ensures var v := Next(cfg, w, UpsertKey(call, false));
            && call.vuz in v.db.universities && v.db.universities[call.vuz].code == w.db.universities[call.vuz].code
            && call.vuz in v.db.keys && cfg.unseal(v.db.keys[call.vuz]).Some?
            && v == w.(db := w.db.(universities := v.db.universities, keys := v.db.keys))
  {
    hide ConfigOk;
    hide S.Upsert;
    hide S.WritePublic;
    hide S.Seal;
    FirstUpsert(cfg.p, cfg.master, w.db, call);
    PublicWritten(cfg.p, w.db, call);
    OpensAgain(cfg, call);
  }

  /** A new university with its first signing key. */
  lemma KeySetUp(cfg: Config, w: World, call: S.Call, code: string)
    requires ConfigOk(cfg) && |call.nonce| == NONCE_SIZE && cfg.p.readPrivate(call.pem).Some?
    requires call.vuz !in w.db.universities && call.vuz !in w.retired && !CodeTaken(w.db, code)
    ensures var v := Next(cfg, Next(cfg, w, RegisterUniversity(call.vuz, code, code)), UpsertKey(call, false));
            && call.vuz in v.db.universities && v.db.universities[call.vuz].code == code
            && call.vuz in v.db.keys && cfg.unseal(v.db.keys[call.vuz]).Some?
            && v.db.registry == w.db.registry && v.db.results == w.db.results && v.uploads == w.uploads && v.raw == w.raw
            && v.workers == w.workers
  {
    hide Next;
    hide CodeTaken;
    hide ConfigOk;
    Registering(cfg, w, call.vuz, code);
    FirstKey(cfg, Next(cfg, w, RegisterUniversity(call.vuz, code, code)), call);
  }

  lemma UploadedWorld(cfg: Config, w: World, vuz: Uuid, s: Student)
    requires vuz in w.db.universities && w.uploads == map[] && w.raw == []
    ensures var v := Next(cfg, Next(cfg, w, CreateUpload(0, vuz, [s])), PublishTask(0, 0));
            && v.db.batches == w.db.batches[0 := Batch(vuz, 1, 0, Processing, None)] && v.raw == [Task(0, vuz, 0, s)]
            && v.db.universities == w.db.universities && v.db.keys == w.db.keys
            && v.db.registry == w.db.registry && v.db.results == w.db.results && v.workers == w.workers && v.overruled == w.overruled
            && v.uploads == map[0 := Upload(vuz, [s])]
  {
  }

  lemma FiveActions(cfg: Config, w: World, a: seq<Action>)
    requires |a| == 5
    ensures Run(cfg, w, a) == Next(cfg, Next(cfg, Next(cfg, Next(cfg, Next(cfg, w, a[0]), a[1]), a[2]), a[3]), a[4])
  {
    hide Next;
    assert a[..4][..3] == a[..3] && a[..3][..2] == a[..2] && a[..2][..1] == a[..1] && a[..1][..0] == [];
    assert Run(cfg, w, a[..1]) == Next(cfg, w, a[0]);
    assert Run(cfg, w, a[..2]) == Next(cfg, Run(cfg, w, a[..1]), a[1]);
    assert Run(cfg, w, a[..3]) == Next(cfg, Run(cfg, w, a[..2]), a[2]);
    assert Run(cfg, w, a[..4]) == Next(cfg, Run(cfg, w, a[..3]), a[3]);
  }

  /** One task, ready to be handled for the first time. */
  predicate OneTask(cfg: Config, w: World, vuz: Uuid, s: Student) {
    && w.raw == [Task(0, vuz, 0, s)] && Healthy(cfg, w.db, w.raw[0]) && w.workers == map[]
    && 0 in w.db.batches && w.db.batches[0] == Batch(vuz, 1, 0, Processing, None) && w.db.results == map[]
  }

  lemma UploadingRun(cfg: Config, call: S.Call, code: string, s: Student)
    requires ConfigOk(cfg) && |call.nonce| == NONCE_SIZE && cfg.p.readPrivate(call.pem).Some? && !Blank(s.number)
    ensures var w := Run(cfg, INITIAL, Uploading(call, code, s));
            && OneTask(cfg, w, call.vuz, s) && w.uploads == map[0 := Upload(call.vuz, [s])] && w.db.registry == map[]
            && call.vuz in w.db.universities && w.db.universities[call.vuz].code == code && Inv(cfg, w)
  {
    var a := Uploading(call, code, s);
    Reachable(cfg, a);
    hide Inv;
    FourActions(cfg, INITIAL, a);
    KeySetUp(cfg, INITIAL, call, code);
    UploadedWorld(cfg, Next(cfg, Next(cfg, INITIAL, a[0]), a[1]), call.vuz, s);
  }

  lemma FourActions(cfg: Config, w: World, a: seq<Action>)
    requires |a| == 4
    ensures Run(cfg, w, a) == Next(cfg, Next(cfg, Next(cfg, Next(cfg, w, a[0]), a[1]), a[2]), a[3])
  {
    hide Next;
    assert (a + [a[3]])[..4] == a;
    FiveActions(cfg, w, a + [a[3]]);
    assert a[..3][..2] == a[..2] && a[..2][..1] == a[..1] && a[..1][..0] == [];
    assert Run(cfg, w, a[..1]) == Next(cfg, w, a[0]);
    assert Run(cfg, w, a[..2]) == Next(cfg, Run(cfg, w, a[..1]), a[1]);
  }

  /** One upload whose producer reports an error although the task got out, one worker, one `FailBatch`. If it comes
      before the worker's persist transaction, the failed batch turns completed. If it comes after, the completed
      batch turns failed, and stays failed whatever follows. */
  lemma {:induction false} OrderDecides(cfg: Config, call: S.Call, code: string, s: Student, stamp: Stamp, now: int, more: seq<Action>)
    requires ConfigOk(cfg) && |call.nonce| == NONCE_SIZE && cfg.p.readPrivate(call.pem).Some? && !Blank(s.number) && ValidStamp(stamp)
    requires NoneFails(0, more)
    ensures var w := Run(cfg, INITIAL, Uploading(call, code, s));
            var failed, done := Next(cfg, w, FailUpload(0, now)), Run(cfg, w, HandleBy(0, 0, stamp, now));
            var turned, late := Run(cfg, failed, HandleBy(0, 0, stamp, now)), Run(cfg, Next(cfg, done, FailUpload(0, now)), more);
            && 0 in failed.db.batches && failed.db.batches[0].status == Failed
            && 0 in turned.db.batches && turned.db.batches[0].status == Completed
            && 0 in done.db.batches && done.db.batches[0].status == Completed
            && (0 in late.db.batches ==> late.db.batches[0].status == Failed)
  {
    hide *;
    var w := Run(cfg, INITIAL, Uploading(call, code, s));
    UploadingRun(cfg, call, code, s);
    FailedEarly(cfg, w, call.vuz, s, stamp, now);
    FailedLate(cfg, w, call.vuz, s, stamp, now, more);
  }

  lemma FailedEarly(cfg: Config, w: World, vuz: Uuid, s: Student, stamp: Stamp, now: int)
    requires Inv(cfg, w) && ConfigOk(cfg) && ValidStamp(stamp) && OneTask(cfg, w, vuz, s)
    ensures var failed := Next(cfg, w, FailUpload(0, now));
            var turned := Run(cfg, failed, HandleBy(0, 0, stamp, now));
            && 0 in failed.db.batches && failed.db.batches[0].status == Failed
            && 0 in turned.db.batches && turned.db.batches[0].status == Completed
  {
    hide Later;
    hide Inv;
    hide Run;
    hide HandleBy;
    hide NoneFails;
    hide AllIn;
    var failed := Next(cfg, w, FailUpload(0, now));
    FailBatchFails(cfg, w, 0, now);
    FailStep(cfg, w, 0, now);
    WorkerFinishes(cfg, failed, stamp, now);
    HandlingFailsNothing(0, 0, 0, stamp, now);
    OverruledWhileOpen(cfg, w, HandleBy(0, 0, stamp, now), 0, now);
  }

  lemma FailedLate(cfg: Config, w: World, vuz: Uuid, s: Student, stamp: Stamp, now: int, more: seq<Action>)
    requires Inv(cfg, w) && ConfigOk(cfg) && ValidStamp(stamp) && OneTask(cfg, w, vuz, s) && NoneFails(0, more)
    ensures var done := Run(cfg, w, HandleBy(0, 0, stamp, now));
            var late := Run(cfg, Next(cfg, done, FailUpload(0, now)), more);
            && 0 in done.db.batches && done.db.batches[0].status == Completed
            && (0 in late.db.batches ==> late.db.batches[0].status == Failed)
  {
    hide Later;
    hide Run;
    hide HandleBy;
    hide NoneFails;
    hide Next;
    hide Healthy;
    var actions := HandleBy(0, 0, stamp, now);
    var done := Run(cfg, w, actions);
    WorkerFinishes(cfg, w, stamp, now);
    RunKeeps(cfg, w, actions);
    HandlingFailsNothing(0, 0, 0, stamp, now);
    NotOverruled(cfg, w, actions, 0);
    assert StatusOk(done.db.batches[0], done.db.results, done.overruled, 0);
    TruthfulMeans(done, 0);
    if 0 in Run(cfg, Next(cfg, done, FailUpload(0, now)), more).db.batches {
      OverruledOutcome(cfg, done, more, 0, now);
    }
  }

  lemma FailBatchFails(cfg: Config, w: World, b: BatchId, now: int)
    requires b in w.db.batches
    ensures var v := Next(cfg, w, FailUpload(b, now)); b in v.db.batches && v.db.batches[b].status == Failed
  {
  }

  lemma OneOkRow(w: World, row: Row)
    requires w.db.results == map[RowKey(0, 0) := row] && row.status == Ok && 0 in w.db.batches && w.db.batches[0].total == 1
    ensures AllIn(w.db, 0) && !SomeError(w.db.results, 0)
  {
  }

  /** The worker stores the one ok row of the batch. */
  lemma WorkerFinishes(cfg: Config, w: World, stamp: Stamp, now: int)
    requires Inv(cfg, w) && ConfigOk(cfg) && ValidStamp(stamp) && w.workers == map[] && |w.raw| == 1
    requires Healthy(cfg, w.db, w.raw[0]) && RowOf(w.raw[0]) == RowKey(0, 0)
    requires 0 in w.db.batches && w.db.batches[0].total == 1 && w.db.results == map[]
    ensures var done := Run(cfg, w, HandleBy(0, 0, stamp, now));
            && Inv(cfg, done) && 0 in done.db.batches && done.db.batches[0].total == 1
            && AllIn(done.db, 0) && !SomeError(done.db.results, 0)
  {
    var done := Run(cfg, w, HandleBy(0, 0, stamp, now));
    hide Inv;
    hide HandleBy;
    hide Healthy;
    hide Later;
    HandledSucceeds(cfg, w, 0, 0, stamp, now);
    RunKeeps(cfg, w, HandleBy(0, 0, stamp, now));
    RowHasBatch(cfg, done, RowKey(0, 0));
    SameTotal(cfg, w, done, 0);
    OneOkRow(done, WorkerVerdict(Done(cfg, w.db, w.raw[0], stamp)).row);
  }

  lemma RowHasBatch(cfg: Config, w: World, k: RowKey)
    requires Inv(cfg, w) && k in w.db.results
    ensures k.batch in w.db.batches
  {
  }

  lemma HandlingFailsNothing(b: BatchId, id: nat, offset: nat, stamp: Stamp, now: int)
    ensures NoneFails(b, HandleBy(id, offset, stamp, now))
  {
  }
}
