/** A worker token whose diploma has no ok row: a task fails transiently, its error row is stored, and when the task
    is delivered again the worker registers the hash and publishes the token, but the stored row stays. */
module Rowless {
  import opened Wrappers
  import opened Text
  import opened Crypto
  import opened Canonical
  import opened Token
  import opened Tables
  import opened Protocol
  import opened ProtocolInvariant
  import opened ProtocolRuns
  import B = BatchRuns
  import D = ReadPaths
  import R = RegistryRuns
  import S = SigningKeys
  import V = Verification

  /** The worker fails transiently, stores its error row and crashes before it publishes. */
  function FaultStored(id: nat, offset: nat, text: string, now: int): seq<Action> {
    [Deliver(id, offset), Fault(id, text), Work(id, Stamp([], 0), now), Crash(id)]
  }

  /** Then the task is delivered again. */
  function FaultThenHandle(id: nat, offset: nat, text: string, stamp: Stamp, now: int): seq<Action> {
    FaultStored(id, offset, text, now) + B.HandleBy(id, offset, stamp, now)
  }

  lemma Faulted(cfg: Config, w: World, id: nat, offset: nat, text: string)
    requires id !in w.workers && offset < |w.raw|
    ensures Next(cfg, Next(cfg, w, Deliver(id, offset)), Fault(id, text))
         == w.(workers := w.workers[id := Worker(w.raw[offset], Ready(ErrorMessage(w.raw[offset], text)))])
  {
  }

  lemma ErrorPersisted(cfg: Config, w: World, id: nat, m: Message, stamp: Stamp, now: int)
    requires id in w.workers && w.workers[id].stage == Ready(m)
    requires m.status == Error && m.error.Some? && KeyOf(m) !in w.db.results && m.batch in w.db.batches
    ensures var v := Next(cfg, Next(cfg, w, Work(id, stamp, now)), Crash(id));
            && v.db == w.db.(results := v.db.results, batches := v.db.batches)
            && v.db.results == w.db.results[KeyOf(m) := ErrorRow(m.error.value)] && v.db.batches.Keys == w.db.batches.Keys
            && v.raw == w.raw && v.workers == w.workers - {id} && v.results == w.results && v.uploads == w.uploads
  {
    hide Reopened;
    PersistRowShape(w.db, KeyOf(m), ErrorRow(m.error.value), now);
  }

  lemma FaultLeavesErrorRow(cfg: Config, w: World, id: nat, offset: nat, text: string, now: int)
    requires id !in w.workers && offset < |w.raw| && w.raw[offset].batch in w.db.batches && RowOf(w.raw[offset]) !in w.db.results
    ensures var v := Run(cfg, w, FaultStored(id, offset, text, now));
            && v.db == w.db.(results := v.db.results, batches := v.db.batches)
            && v.db.results == w.db.results[RowOf(w.raw[offset]) := ErrorRow(text)]
            && v.raw == w.raw && v.workers == w.workers && v.results == w.results && v.uploads == w.uploads
  {
    hide Next;
    var a := FaultStored(id, offset, text, now);
    B.FourActions(cfg, w, a);
    Faulted(cfg, w, id, offset, text);
    var u := Next(cfg, Next(cfg, w, a[0]), a[1]);
    ErrorPersisted(cfg, u, id, ErrorMessage(w.raw[offset], text), Stamp([], 0), now);
    assert u.workers - {id} == w.workers;
  }

  /** A healthy task whose row is stored already is signed, registered and published all the same. */
  lemma HandledAgain(cfg: Config, w: World, id: nat, offset: nat, stamp: Stamp, now: int)
    requires ValidStamp(stamp) && id !in w.workers && offset < |w.raw| && B.Healthy(cfg, w.db, w.raw[offset])
    requires RowOf(w.raw[offset]) in w.db.results
    ensures var v := Run(cfg, w, B.HandleBy(id, offset, stamp, now));
            && v.db == w.db.(registry := B.Entered(cfg, w.db.registry, w.raw[offset]))
            && v.results == w.results + [B.Done(cfg, w.db, w.raw[offset], stamp)] && v.uploads == w.uploads
  {
    hide Next;
    hide B.Healthy;
    hide B.Entered;
    var deliver, work := Deliver(id, offset), Work(id, stamp, now);
    RunConcat(cfg, w, [deliver], seq(5, _ => work));
    assert Run(cfg, w, [deliver][..0]) == w;
    var w0 := Next(cfg, w, deliver);
    TaskInHand(cfg, w, id, offset);
    B.WorkedIsRun(cfg, w0, id, stamp, now, 5);
    B.FiveStatements(cfg, w0, id, stamp, now);
    B.ReachesReady(cfg, w0, id, stamp, now);
    PublishedAgain(cfg, Next(cfg, Next(cfg, Next(cfg, w0, work), work), work), id, stamp, now);
  }

  lemma TaskInHand(cfg: Config, w: World, id: nat, offset: nat)
    requires id !in w.workers && offset < |w.raw|
    ensures Next(cfg, w, Deliver(id, offset)) == w.(workers := w.workers[id := Worker(w.raw[offset], Fetched)])
  {
  }

  /** A result whose row is there already changes no table and is published. */
  lemma PublishedAgain(cfg: Config, w: World, id: nat, stamp: Stamp, now: int)
    requires id in w.workers && w.workers[id].stage.Ready? && KeyOf(w.workers[id].stage.m) in w.db.results
    ensures var work := Work(id, stamp, now); var v := Next(cfg, Next(cfg, w, work), work);
            v.db == w.db && v.results == w.results + [w.workers[id].stage.m] && v.uploads == w.uploads
  {
  }

  /** What the run leaves: the published token, the registered hash, and an error row. */
  lemma TokenWithoutRow(cfg: Config, w: World, id: nat, offset: nat, text: string, stamp: Stamp, now: int)
    requires ValidStamp(stamp) && id !in w.workers && offset < |w.raw| && B.Healthy(cfg, w.db, w.raw[offset])
    requires w.raw[offset].batch in w.db.batches && RowOf(w.raw[offset]) !in w.db.results
    ensures var v, t := Run(cfg, w, FaultThenHandle(id, offset, text, stamp, now)), w.raw[offset];
            && v.results == w.results + [B.Done(cfg, w.db, t, stamp)] && v.uploads == w.uploads
            && v.db.registry == B.Entered(cfg, w.db.registry, t) && v.db.results == w.db.results[RowOf(t) := ErrorRow(text)]
            && v.db.universities == w.db.universities
  {
    hide B.HandleBy;
    hide FaultStored;
    FaultLeavesErrorRow(cfg, w, id, offset, text, now);
    var u := Run(cfg, w, FaultStored(id, offset, text, now));
    HandledAgain(cfg, u, id, offset, stamp, now);
    RunConcat(cfg, w, FaultStored(id, offset, text, now), B.HandleBy(id, offset, stamp, now));
  }

  lemma KeyFits(cfg: Config, w: World, t: Task)
    requires Inv(cfg, w) && B.Healthy(cfg, w.db, t)
    ensures V.KeyMatches(cfg.p, w.db.universities, t.vuz, cfg.unseal(w.db.keys[t.vuz]).value)
  {
  }

  lemma StillNoOkRow(db: Db, after: Db, k: RowKey, text: string, hash: string)
    requires V.PickedRow(db, hash, None) && after.results == db.results[k := ErrorRow(text)]
    ensures V.PickedRow(after, hash, None)
  {
    forall j ensures !V.IsOkRowFor(after, hash, j) {
      assert !V.IsOkRowFor(db, hash, j);
    }
  }

  lemma DoneToken(cfg: Config, key: seq<byte>, db: Db, t: Task, stamp: Stamp)
    requires D.DeployedWith(cfg, key) && B.Healthy(cfg, db, t)
    ensures B.Done(cfg, db, t, stamp).token == Some(IssueToken(cfg.p, key, cfg.unseal(db.keys[t.vuz]).value, stamp, t.student, t.vuz))
    ensures V.Registered(cfg.p, B.Entered(cfg, db.registry, t), t.student, t.vuz)
  {
    hide IssueToken;
  }

  /** A task that can be handled, whose record verifies, and whose hash has no ok row. */
  ghost predicate Fresh(cfg: Config, w: World, t: Task) {
    && B.Healthy(cfg, w.db, t) && t.batch in w.db.batches && RowOf(t) !in w.db.results
    && AllTrimmed(t.student) && Complete(t.student) && PipeFree(t.student)
    && Trim(w.db.universities[t.vuz].code) == w.db.universities[t.vuz].code != ""
    && V.PickedRow(w.db, IssuedHash(cfg.p, t.student, t.vuz), None)
    && CollisionFree(cfg.p, R.HashedIn(cfg.p, w.uploads) + {Issued(cfg.p, t.student, t.vuz), SaltInput(t.vuz, t.student.number)})
  }

  /** The two read paths part in a run of the protocol: the token it publishes verifies with year, specialty, degree
      and faculty, and the search for the same diploma answers valid without them. */
  lemma {:induction false} PathsPart(cfg: Config, key: seq<byte>, actions: seq<Action>, id: nat, offset: nat, text: string,
                                     stamp: Stamp, now: int, other: Option<RowKey>)
    requires D.DeployedWith(cfg, key) && ValidStamp(stamp)
    requires var w := Run(cfg, INITIAL, actions); id !in w.workers && offset < |w.raw| && Fresh(cfg, w, w.raw[offset])
    ensures var v := Run(cfg, INITIAL, actions + FaultThenHandle(id, offset, text, stamp, now));
            var t := Run(cfg, INITIAL, actions).raw[offset];
            && V.PickedRow(v.db, IssuedHash(cfg.p, t.student, t.vuz), None)
            && |v.results| > 0 && v.results[|v.results| - 1].token.Some? && t.vuz in v.db.universities
            && var answer := V.VerifyPayload(cfg.p, v.db, key, v.results[|v.results| - 1].token.value, other);
            var found := V.Search(cfg.p, v.db, key, v.db.universities[t.vuz].code, t.student.number, None);
            && answer.Success? && found.Success?
            && answer.value.year == Some(t.student.year)
            && found.value == D.ShownBare(answer.value) != D.Shown(answer.value)
  {
    hide *;
    var w := Run(cfg, INITIAL, actions);
    var t := w.raw[offset];
    D.DeployedLaws(cfg, key);
    Reachable(cfg, actions);
    FreshMeans(cfg, w, t);
    RunConcat(cfg, INITIAL, actions, FaultThenHandle(id, offset, text, stamp, now));
    TokenWithoutRow(cfg, w, id, offset, text, stamp, now);
    var v := Run(cfg, w, FaultThenHandle(id, offset, text, stamp, now));
    KeyFits(cfg, w, t);
    DoneToken(cfg, key, w.db, t, stamp);
    StillNoOkRow(w.db, v.db, RowOf(t), text, IssuedHash(cfg.p, t.student, t.vuz));
    SameUniversities(cfg.p, w.db, v.db, t.vuz, cfg.unseal(w.db.keys[t.vuz]).value);
    D.TwoReadPathsAgree(cfg, key, actions + FaultThenHandle(id, offset, text, stamp, now), cfg.unseal(w.db.keys[t.vuz]).value, stamp,
                        t.student, t.vuz, None, other);
    D.ShownFields(cfg.p, v.db, t.student, t.vuz);
  }

  lemma SameUniversities(p: Primitives, db: Db, after: Db, vuz: Uuid, sk: PrivateKey)
    requires V.KeyMatches(p, db.universities, vuz, sk) && after.universities == db.universities
    ensures V.KeyMatches(p, after.universities, vuz, sk) && vuz in after.universities
  {
  }

  lemma FreshMeans(cfg: Config, w: World, t: Task)
    requires Fresh(cfg, w, t)
    ensures B.Healthy(cfg, w.db, t) && t.batch in w.db.batches && RowOf(t) !in w.db.results && !Blank(t.student.number)
    ensures t.vuz in w.db.keys && cfg.unseal(w.db.keys[t.vuz]).Some? && t.vuz in w.db.universities
    ensures AllTrimmed(t.student) && Complete(t.student) && PipeFree(t.student)
    ensures Trim(w.db.universities[t.vuz].code) == w.db.universities[t.vuz].code != ""
    ensures V.PickedRow(w.db, IssuedHash(cfg.p, t.student, t.vuz), None)
    ensures CollisionFree(cfg.p, R.HashedIn(cfg.p, w.uploads) + {Issued(cfg.p, t.student, t.vuz), SaltInput(t.vuz, t.student.number)})
  {
  }

  /** Such a world is reached by registering a university, giving it a key and uploading one record. */
  lemma {:induction false} FirstUploadIsFresh(cfg: Config, call: S.Call, code: string, s: Student)
    requires R.Deployed(cfg) && ConfigOk(cfg) && |call.nonce| == NONCE_SIZE && cfg.p.readPrivate(call.pem).Some?
    requires !Blank(s.number) && AllTrimmed(s) && Complete(s) && PipeFree(s) && Trim(code) == code != ""
    requires CollisionFree(cfg.p, {Issued(cfg.p, s, call.vuz), SaltInput(call.vuz, s.number)})
    ensures var w := Run(cfg, INITIAL, B.Uploading(call, code, s));
            |w.raw| == 1 && w.raw[0].student == s && w.workers == map[] && Fresh(cfg, w, w.raw[0])
  {
    hide *;
    B.UploadingRun(cfg, call, code, s);
    OneTaskIsFresh(cfg, Run(cfg, INITIAL, B.Uploading(call, code, s)), call.vuz, s);
  }

  lemma OneTaskIsFresh(cfg: Config, w: World, vuz: Uuid, s: Student)
    requires B.OneTask(cfg, w, vuz, s) && w.uploads == map[0 := Upload(vuz, [s])]
    requires AllTrimmed(s) && Complete(s) && PipeFree(s) && vuz in w.db.universities
    requires Trim(w.db.universities[vuz].code) == w.db.universities[vuz].code != ""
    requires CollisionFree(cfg.p, {Issued(cfg.p, s, vuz), SaltInput(vuz, s.number)})
    ensures |w.raw| == 1 && w.raw[0].student == s && w.workers == map[] && Fresh(cfg, w, w.raw[0])
  {
    hide B.Healthy;
    hide Issued;
    hide SaltInput;
    hide AllTrimmed;
    hide Complete;
    hide PipeFree;
    hide Trim;
    assert R.HashedIn(cfg.p, w.uploads) + {Issued(cfg.p, s, vuz), SaltInput(vuz, s.number)}
        == {Issued(cfg.p, s, vuz), SaltInput(vuz, s.number)};
  }
}
