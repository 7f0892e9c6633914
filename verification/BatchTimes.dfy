/** When batches end: the completion time over one persist transaction and over whole runs. */
module BatchTimes {
  import opened Wrappers
  import opened Text
  import opened Token
  import opened Tables
  import opened Protocol
  import opened ProtocolInvariant
  import opened ProtocolRuns
  import B = BatchRuns

  /** Persisting a missing row counts it. The last row of a batch gives it its verdict, failed if any row of it is an
      error, and its completion time, now unless it had one; any other row leaves both alone. */
  lemma {:induction false} PersistTimes(db: Db, key: RowKey, row: Row, now: int)
    requires key !in db.results && key.batch in db.batches
    ensures PersistRow(db, key, row, now).Success?
    ensures var after := PersistRow(db, key, row, now).value;
            var x := db.batches[key.batch];
            && after.batches.Keys == db.batches.Keys && after.results == db.results[key := row]
            && (forall b | b in db.batches && b != key.batch :: after.batches[b] == db.batches[b])
            && var y := after.batches[key.batch];
            && y.vuz == x.vuz && y.total == x.total && y.processed == x.processed + 1
            && (y.processed < y.total ==> y.status == x.status && y.completedAt == x.completedAt)
            && (y.processed >= y.total ==>
                  && y.status == (if B.SomeError(after.results, key.batch) then Failed else Completed)
                  && y.completedAt == if x.completedAt.Some? then x.completedAt else Some(now))
  {
    PersistRowShape(db, key, row, now);
    B.SomeErrorCounted(PersistRow(db, key, row, now).value.results, key.batch);
  }

  /** What a step may do to status and completion time of a batch. */
  predicate TimedStep(x: Batch, y: Batch, a: Action, b: BatchId, closes: bool) {
    || (y.status == x.status && y.completedAt == x.completedAt)
    || (a.FailUpload? && a.b == b && y.status == Failed && y.completedAt == Some(a.now))
    || (a.Work? && closes && y.status != Processing
        && y.completedAt == if x.completedAt.Some? then x.completedAt else Some(a.now))
  }

  predicate Closes(w: World, v: World, b: BatchId) {
    !Closed(w.db, b) && Closed(v.db, b)
  }

  lemma WorkTimes(cfg: Config, w: World, id: nat, stamp: Stamp, now: int, b: BatchId)
    requires Inv(cfg, w) && b in w.db.batches
    ensures var a := Work(id, stamp, now);
            var v := Next(cfg, w, a);
            b in v.db.batches && TimedStep(w.db.batches[b], v.db.batches[b], a, b, Closes(w, v, b))
  {
    hide Inv;
    hide DoWork;
    hide PersistRow;
    hide MessageOk;
    if id in w.workers {
      B.OnlyPersistTouchesBatches(cfg, w, id, stamp, now);
      if w.workers[id].stage.Ready? {
        var m := w.workers[id].stage.m;
        B.ReadyMessageOk(cfg, w, id);
        if KeyOf(m) !in w.db.results && m.batch in w.db.batches {
          PersistTimes(w.db, KeyOf(m), WorkerVerdict(m).row, now);
          if b == m.batch {
            RowIsRoom(cfg, w, m);
          }
        } else if KeyOf(m) !in w.db.results {
          NoBatchNoRow(w.db, KeyOf(m), WorkerVerdict(m).row, now);
        }
      }
    }
  }

  lemma NoBatchNoRow(db: Db, key: RowKey, row: Row, now: int)
    requires key.batch !in db.batches
    ensures PersistRow(db, key, row, now).Failure?
  {
  }

  lemma RowIsRoom(cfg: Config, w: World, m: Message)
    requires Inv(cfg, w) && MessageOk(cfg, w.db, w.uploads, m) && KeyOf(m) !in w.db.results && m.batch in w.db.batches
    ensures !Closed(w.db, m.batch)
  {
    RoomLeft(w.db, w.uploads, w.retired, KeyOf(m));
  }

  lemma {:induction false} StepTimes(cfg: Config, w: World, a: Action, b: BatchId)
    requires Inv(cfg, w) && b in w.db.batches && b in Next(cfg, w, a).db.batches
    ensures TimedStep(w.db.batches[b], Next(cfg, w, a).db.batches[b], a, b, Closes(w, Next(cfg, w, a), b))
  {
    hide Inv;
    hide Next;
    hide TimedStep;
    BatchWasUploaded(cfg, w, b);
    SameIsTimed(w.db.batches[b], a, b, Closes(w, Next(cfg, w, a), b));
    if a.FailUpload? && a.b == b {
      FailTimes(cfg, w, b, a.now);
    } else {
      match a
      case Work(id, stamp, now) => WorkTimes(cfg, w, id, stamp, now, b);
      case ApplyResult(offset, now) => ApplyStep(cfg, w, offset, now);
      case CreateUpload(_, _, _) => B.CreateLeavesFull(cfg, w, a, b);
      case _ => B.OthersLeaveBatches(cfg, w, a, b);
    }
  }

  lemma BatchWasUploaded(cfg: Config, w: World, b: BatchId)
    requires Inv(cfg, w) && b in w.db.batches
    ensures b in w.uploads
  {
  }

  lemma SameIsTimed(x: Batch, a: Action, b: BatchId, closes: bool)
    ensures TimedStep(x, x, a, b, closes)
  {
  }

  lemma FailTimes(cfg: Config, w: World, b: BatchId, now: int)
    requires b in w.db.batches
    ensures var v := Next(cfg, w, FailUpload(b, now));
            && b in v.db.batches && v.db.batches[b] == w.db.batches[b].(status := Failed, completedAt := Some(now))
            && TimedStep(w.db.batches[b], v.db.batches[b], FailUpload(b, now), b, Closes(w, v, b))
  {
  }

  lemma NewIsProcessing(cfg: Config, w: World, a: Action, b: BatchId)
    requires Inv(cfg, w) && b !in w.db.batches && b in Next(cfg, w, a).db.batches
    ensures Next(cfg, w, a).db.batches[b].status == Processing && Next(cfg, w, a).db.batches[b].completedAt == None
  {
    hide Inv;
    match a
    case Work(id, stamp, now) =>
      hide DoWork;
      hide PersistRow;
      if id in w.workers {
        B.OnlyPersistTouchesBatches(cfg, w, id, stamp, now);
        if w.workers[id].stage.Ready? {
          var m := w.workers[id].stage.m;
          if KeyOf(m) !in w.db.results && m.batch in w.db.batches {
            PersistTimes(w.db, KeyOf(m), WorkerVerdict(m).row, now);
          } else if KeyOf(m) !in w.db.results {
            NoBatchNoRow(w.db, KeyOf(m), WorkerVerdict(m).row, now);
          }
        }
      }
    case ApplyResult(offset, now) => ApplyStep(cfg, w, offset, now);
    case UpsertKey(call, crash) =>
      if B.S.Upsert(cfg.p, cfg.master, w.db, call, crash).Success? {
        UpsertTouches(cfg, w.db, call, crash);
      }
    case RevokeDiploma(vuz, hash, now) =>
      if Revoke(w.db, vuz, hash, now).Success? {
        RevokeTouches(w.db, vuz, hash, now);
      }
    case _ =>
  }

  /** The step at which the batch got this completion time: the `FailBatch` of that time, or the worker's persist
      transaction of that time that made the batch full. */
  ghost predicate EndsAt(cfg: Config, actions: seq<Action>, b: BatchId, t: int, i: nat)
    requires i < |actions|
  {
    || actions[i] == FailUpload(b, t)
    || (actions[i].Work? && actions[i].now == t
        && Closes(Run(cfg, INITIAL, actions[..i]), Run(cfg, INITIAL, actions[..i + 1]), b))
  }

  /** In every reachable world a batch has a completion time exactly if it is not processing, and it is the time of the
      step that ended it. */
  lemma {:induction false} CompletionTimes(cfg: Config, actions: seq<Action>, b: BatchId)
    requires ConfigOk(cfg) && b in Run(cfg, INITIAL, actions).db.batches
    ensures var batch := Run(cfg, INITIAL, actions).db.batches[b];
            && (batch.completedAt.Some? <==> batch.status != Processing)
            && (batch.completedAt.Some? ==> exists i :: 0 <= i < |actions| && EndsAt(cfg, actions, b, batch.completedAt.value, i))
  {
    hide Inv;
    hide Next;
    if actions != [] {
      var before, last := actions[..|actions| - 1], actions[|actions| - 1];
      var u := Run(cfg, INITIAL, before);
      Reachable(cfg, before);
      if b in u.db.batches {
        CompletionTimes(cfg, before, b);
        StepTimes(cfg, u, last, b);
        if u.db.batches[b].completedAt.Some? {
          var t := u.db.batches[b].completedAt.value;
          var i :| 0 <= i < |before| && EndsAt(cfg, before, b, t, i);
          StillEndsAt(cfg, before, last, b, t, i);
          assert before + [last] == actions;
        }
        assert actions[..|actions| - 1 + 1] == actions;
        assert Closes(u, Run(cfg, INITIAL, actions), b) && last.Work? ==> EndsAt(cfg, actions, b, last.now, |actions| - 1);
        assert last.FailUpload? && last.b == b ==> EndsAt(cfg, actions, b, last.now, |actions| - 1);
      } else {
        NewIsProcessing(cfg, u, last, b);
      }
    }
  }

  lemma StillEndsAt(cfg: Config, before: seq<Action>, last: Action, b: BatchId, t: int, i: nat)
    requires i < |before| && EndsAt(cfg, before, b, t, i)
    ensures EndsAt(cfg, before + [last], b, t, i)
  {
    hide Run;
    assert (before + [last])[..i] == before[..i] && (before + [last])[..i + 1] == before[..i + 1];
  }
}
