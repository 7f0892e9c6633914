/** Why the search for a revoked diploma is only promised while its university lives: a university that comes back
    under a new id with its old code can issue the number again. */
module Reissue {
  import opened Wrappers
  import opened Text
  import opened Crypto
  import opened Canonical
  import opened Token
  import opened Tables
  import opened Protocol
  import opened ProtocolInvariant
  import opened ProtocolRuns
  import B = BatchRuns
  import D = ReadPaths
  import R = RegistryRuns
  import S = SigningKeys
  import V = Verification

  /** Delete a university, register its code again, and upload one record. */
  function Reopening(gone: Uuid, code: string, call: S.Call, b: BatchId, s: Student): seq<Action> {
    [DeleteUniversityOf(gone), RegisterUniversity(call.vuz, code, code), UpsertKey(call, false), CreateUpload(b, call.vuz, [s]),
     PublishTask(b, 0)]
  }

  /** The code is the gone university's own, and the ids are new. */
  predicate Reopens(cfg: Config, w: World, gone: Uuid, call: S.Call, b: BatchId) {
    && gone in w.db.universities && call.vuz !in w.db.universities && call.vuz !in w.retired && b !in w.uploads
    && |call.nonce| == NONCE_SIZE && cfg.p.readPrivate(call.pem).Some?
  }

  lemma Deleted(cfg: Config, w: World, gone: Uuid)
    requires gone in w.db.universities && V.UniqueCodes(w.db.universities)
    ensures var v := Next(cfg, w, DeleteUniversityOf(gone));
            && v.db.universities == w.db.universities - {gone} && !CodeTaken(v.db, w.db.universities[gone].code)
            && v.retired == w.retired + {gone} && v.uploads == w.uploads && v.raw == w.raw && v.workers == w.workers
            && (forall k | k in v.db.registry :: k in w.db.registry && k.vuz != gone && v.db.registry[k] == w.db.registry[k])
            && (forall k | k in v.db.results :: k in w.db.results)
  {
  }

  lemma Uploaded(cfg: Config, w: World, b: BatchId, vuz: Uuid, s: Student)
    requires vuz in w.db.universities && b !in w.uploads
    ensures var v := Next(cfg, Next(cfg, w, CreateUpload(b, vuz, [s])), PublishTask(b, 0));
            && v.db.universities == w.db.universities && v.db.keys == w.db.keys && v.db.registry == w.db.registry
            && v.db.results == w.db.results && b in v.db.batches && v.raw == w.raw + [Task(b, vuz, 0, s)] && v.workers == w.workers
  {
  }

  /** The world after reopening: the new task can be handled, and nothing of the old university is left. */
  lemma Reopened(cfg: Config, w: World, gone: Uuid, call: S.Call, b: BatchId, s: Student)
    requires Inv(cfg, w) && ConfigOk(cfg) && Reopens(cfg, w, gone, call, b)
    requires !Blank(s.number) && !HashTaken(w.db.registry, cfg.hashOf(s, call.vuz))
    ensures var code := w.db.universities[gone].code;
            var v := Run(cfg, w, Reopening(gone, code, call, b, s));
            var t := Task(b, call.vuz, 0, s);
            && v.raw == w.raw + [t] && v.workers == w.workers && B.Healthy(cfg, v.db, t)
            && b in v.db.batches && RowKey(b, 0) !in v.db.results && RegistryKey(call.vuz, s.number) !in v.db.registry
            && call.vuz in v.db.universities && v.db.universities[call.vuz].code == code
            && (forall k | k in v.db.registry :: k.vuz != gone)
  {
    hide Next;
    hide HashTaken;
    var code := w.db.universities[gone].code;
    var a := Reopening(gone, code, call, b, s);
    InvParts(cfg, w, b, call.vuz);
    B.FiveActions(cfg, w, a);
    Deleted(cfg, w, gone);
    var w1 := Next(cfg, w, a[0]);
    B.KeySetUp(cfg, w1, call, code);
    var w3 := Next(cfg, Next(cfg, w1, a[1]), a[2]);
    Uploaded(cfg, w3, b, call.vuz, s);
    StillFree(w.db.registry, w1.db.registry, cfg.hashOf(s, call.vuz));
  }

  lemma InvParts(cfg: Config, w: World, b: BatchId, vuz: Uuid)
    requires Inv(cfg, w) && b !in w.uploads && vuz !in w.db.universities
    ensures V.UniqueCodes(w.db.universities) && RowKey(b, 0) !in w.db.results
    ensures forall k | k in w.db.registry :: k.vuz != vuz
  {
  }

  lemma StillFree(registry: Registry, fewer: Registry, hash: string)
    requires !HashTaken(registry, hash) && forall k | k in fewer :: k in registry && fewer[k] == registry[k]
    ensures !HashTaken(fewer, hash)
  {
  }

  /** A revoked number searched by its code can be valid again once its university is gone: the code comes back
      under a new university, which issues the number anew. */
  lemma {:induction false} SearchAfterDeletionCanBeValid(cfg: Config, key: seq<byte>, w: World, k: RegistryKey, call: S.Call, b: BatchId,
                                                         s: Student, id: nat, stamp: Stamp, now: int)
    requires Inv(cfg, w) && D.DeployedWith(cfg, key) && Reopens(cfg, w, k.vuz, call, b)
    requires k in w.db.registry && w.db.registry[k].revoked && s.number == k.number
    requires !Blank(s.number) && Complete(s) && Trim(s.number) == s.number
    requires Trim(w.db.universities[k.vuz].code) == w.db.universities[k.vuz].code != ""
    requires !HashTaken(w.db.registry, cfg.hashOf(s, call.vuz)) && id !in w.workers && ValidStamp(stamp)
    ensures var code := w.db.universities[k.vuz].code;
            var db := Run(cfg, w, Reopening(k.vuz, code, call, b, s) + B.HandleBy(id, |w.raw|, stamp, now)).db;
            var found := V.Search(cfg.p, db, key, code, k.number, Some(RowKey(b, 0)));
            found.Success? && found.value.valid
  {
    hide *;
    D.DeployedLaws(cfg, key);
    ReopensFor(cfg, w, k.vuz, call, b);
    var code := w.db.universities[k.vuz].code;
    var a := Reopening(k.vuz, code, call, b, s);
    var v := Run(cfg, w, a);
    Reopened(cfg, w, k.vuz, call, b, s);
    RunConcat(cfg, w, a, B.HandleBy(id, |w.raw|, stamp, now));
    RunKeeps(cfg, w, a);
    RunKeeps(cfg, v, B.HandleBy(id, |w.raw|, stamp, now));
    Reissued(cfg, key, v, b, call.vuz, s, id, stamp, now);
  }

  lemma ReopensFor(cfg: Config, w: World, gone: Uuid, call: S.Call, b: BatchId)
    requires Reopens(cfg, w, gone, call, b)
    ensures gone in w.db.universities
  {
  }

  lemma Reissued(cfg: Config, key: seq<byte>, v: World, b: BatchId, vuz: Uuid, s: Student, id: nat, stamp: Stamp, now: int)
    requires D.DeployedWith(cfg, key) && Inv(cfg, v) && ValidStamp(stamp) && id !in v.workers
    requires !Blank(s.number) && Complete(s) && Trim(s.number) == s.number
    requires |v.raw| > 0 && v.raw[|v.raw| - 1] == Task(b, vuz, 0, s) && B.Healthy(cfg, v.db, v.raw[|v.raw| - 1])
    requires b in v.db.batches && RowKey(b, 0) !in v.db.results && RegistryKey(vuz, s.number) !in v.db.registry
    requires vuz in v.db.universities && Trim(v.db.universities[vuz].code) == v.db.universities[vuz].code != ""
    ensures var db := Run(cfg, v, B.HandleBy(id, |v.raw| - 1, stamp, now)).db;
            var found := V.Search(cfg.p, db, key, v.db.universities[vuz].code, s.number, Some(RowKey(b, 0)));
            found.Success? && found.value.valid
  {
    hide Inv;
    hide IssueToken;
    hide V.Search;
    hide V.UniqueCodes;
    hide B.HandleBy;
    hide Run;
    hide Trim;
    hide Complete;
    hide D.DeployedWith;
    hide R.Deployed;
    var t := v.raw[|v.raw| - 1];
    var db := Run(cfg, v, B.HandleBy(id, |v.raw| - 1, stamp, now)).db;
    D.DeployedLaws(cfg, key);
    CodesUnique(cfg, v);
    B.HandledSucceeds(cfg, v, id, |v.raw| - 1, stamp, now);
    var sk := cfg.unseal(v.db.keys[vuz]).value;
    IssuesTokens(cfg, key, sk, stamp, s, vuz);
    D.SearchAnswers(cfg.p, db, key, sk, stamp, s, vuz, RowKey(b, 0));
  }

  lemma IssuesTokens(cfg: Config, key: seq<byte>, sk: PrivateKey, stamp: Stamp, s: Student, vuz: Uuid)
    requires D.DeployedWith(cfg, key)
    ensures cfg.issue(sk, stamp, s, vuz) == IssueToken(cfg.p, key, sk, stamp, s, vuz)
  {
  }

  lemma CodesUnique(cfg: Config, w: World)
    requires Inv(cfg, w)
    ensures V.UniqueCodes(w.db.universities)
  {
  }
}
