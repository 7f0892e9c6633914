/** Who is revoked: exactly those whose revocation was asked for. */
module Revocations {
  import opened Wrappers
  import opened Text
  import opened Crypto
  import opened Token
  import opened Tables
  import opened Protocol
  import opened ProtocolInvariant
  import opened ProtocolRuns
  import A = Acceptance
  import B = BatchRuns
  import R = RegistryRuns
  import S = SigningKeys
  import Se = Searching
  import V = Verification

  /** A revocation marks the diplomas of that university with that hash, now, and leaves every other entry and every
      other table as it was; it fails exactly if there is no such diploma. */
  lemma {:induction false} RevokeExactly(db: Db, vuz: Uuid, hash: string, now: int)
    ensures var r := Revoke(db, vuz, hash, now);
            && (r == Failure(NoRows) <==> forall k | k in db.registry && k.vuz == vuz :: db.registry[k].hash != hash)
            && (r.Success? <==> exists k :: k in db.registry && k.vuz == vuz && db.registry[k].hash == hash)
            && (r.Success? ==>
                  && r.value == db.(registry := r.value.registry) && r.value.registry.Keys == db.registry.Keys
                  && (forall k | k in db.registry && (k.vuz != vuz || db.registry[k].hash != hash) ::
                        r.value.registry[k] == db.registry[k])
                  && (forall k | k in db.registry && k.vuz == vuz && db.registry[k].hash == hash ::
                        r.value.registry[k] == Entry(hash, true, Some(now))))
  {
    if k :| k in db.registry && k.vuz == vuz && db.registry[k].hash == hash {
      assert Revoke(db, vuz, hash, now).Success?;
    }
  }

  // ---- one step ----

  /** Entries stay as they are or go; new ones are not revoked. */
  ghost predicate NoneRevoked(registry: Registry, after: Registry) {
    forall k | k in after :: if k in registry then after[k] == registry[k] else !after[k].revoked
  }

  lemma PersistRowLeavesRegistry(db: Db, key: RowKey, row: Row, now: int)
    ensures PersistRow(db, key, row, now).Success? ==> PersistRow(db, key, row, now).value.registry == db.registry
  {
    hide Close;
  }

  lemma VerdictRevokesNone(db: Db, key: RowKey, verdict: Verdict, now: int)
    ensures var r := ApplyVerdict(db, key, verdict, now); r.Success? ==> NoneRevoked(db.registry, r.value.registry)
  {
    hide PersistRow;
    if verdict.Write? {
      PersistRowLeavesRegistry(db, key, verdict.row, now);
    } else if verdict.key in db.registry {
      PersistRowLeavesRegistry(db, key, OkRow(verdict.hash, verdict.token), now);
      PersistRowLeavesRegistry(db, key, DUPLICATE_NUMBER, now);
    } else if InsertHash(db, verdict.key, verdict.hash).Success? {
      PersistRowLeavesRegistry(InsertHash(db, verdict.key, verdict.hash).value, key, OkRow(verdict.hash, verdict.token), now);
    }
  }

  lemma WorkRevokesNone(cfg: Config, w: World, id: nat, stamp: Stamp, now: int)
    ensures NoneRevoked(w.db.registry, Next(cfg, w, Work(id, stamp, now)).db.registry)
  {
    hide ApplyVerdict;
    if id in w.workers && w.workers[id].stage.Ready? {
      VerdictRevokesNone(w.db, KeyOf(w.workers[id].stage.m), WorkerVerdict(w.workers[id].stage.m), now);
    }
  }

  /** Only a revocation revokes. */
  lemma OthersRevokeNone(cfg: Config, w: World, a: Action)
    requires !a.RevokeDiploma?
    ensures NoneRevoked(w.db.registry, Next(cfg, w, a).db.registry)
  {
    hide ApplyVerdict;
    hide GatewayVerdict;
    match a
    case Work(id, stamp, now) => WorkRevokesNone(cfg, w, id, stamp, now);
    case UpsertKey(call, crash) =>
      if S.Upsert(cfg.p, cfg.master, w.db, call, crash).Success? {
        UpsertTouches(cfg, w.db, call, crash);
      }
    case ApplyResult(offset, now) =>
      if offset < |w.results| {
        VerdictRevokesNone(w.db, KeyOf(w.results[offset]), GatewayVerdict(cfg.parse, w.results[offset]), now);
      }
    case _ =>
  }

  predicate IsRevoked(registry: Registry, k: RegistryKey) {
    k in registry && registry[k].revoked
  }

  /** The action asks for the revocation of this entry. */
  predicate Asks(a: Action, k: RegistryKey, e: Entry) {
    a.RevokeDiploma? && a.vuz == k.vuz && a.hash == e.hash
  }

  lemma StepRevokes(cfg: Config, w: World, a: Action, k: RegistryKey)
    requires IsRevoked(Next(cfg, w, a).db.registry, k)
    ensures var e := Next(cfg, w, a).db.registry[k];
            (k in w.db.registry && w.db.registry[k] == e) || (Asks(a, k, e) && e.revokedAt == Some(a.now))
  {
    hide Revoke;
    if a.RevokeDiploma? {
      RevokeExactly(w.db, a.vuz, a.hash, a.now);
    } else {
      OthersRevokeNone(cfg, w, a);
    }
  }

  // ---- runs ----

  /** A diploma that is revoked at the end of a run, and was not at its start, was revoked by a request in between for
      its own university and hash, and carries the time of one. */
  lemma {:induction false} RevokedOnRequest(cfg: Config, w: World, actions: seq<Action>, k: RegistryKey)
    requires Inv(cfg, w) && ConfigOk(cfg)
    requires IsRevoked(Run(cfg, w, actions).db.registry, k) && !IsRevoked(w.db.registry, k)
    ensures var e := Run(cfg, w, actions).db.registry[k];
            exists i :: 0 <= i < |actions| && Asks(actions[i], k, e) && e.revokedAt == Some(actions[i].now)
  {
    hide Inv;
    hide Next;
    hide Later;
    var before, last := actions[..|actions| - 1], actions[|actions| - 1];
    var u := Run(cfg, w, before);
    var e := Next(cfg, u, last).db.registry[k];
    StepRevokes(cfg, u, last, k);
    if k in u.db.registry && u.db.registry[k] == e {
      RevokedOnRequest(cfg, w, before, k);
      var i :| 0 <= i < |before| && Asks(before[i], k, e) && e.revokedAt == Some(before[i].now);
      assert actions[i] == before[i];
    }
  }

  /** Nobody asks for it. */
  ghost predicate NoneAsks(actions: seq<Action>, k: RegistryKey, hash: string) {
    forall i | 0 <= i < |actions| :: !(actions[i].RevokeDiploma? && actions[i].vuz == k.vuz && actions[i].hash == hash)
  }

  /** An active diploma stays active while its university lives and nobody asks for its revocation. */
  lemma {:induction false} ActiveStays(cfg: Config, w: World, actions: seq<Action>, k: RegistryKey)
    requires Inv(cfg, w) && ConfigOk(cfg) && k in w.db.registry && !w.db.registry[k].revoked
    requires k.vuz in Run(cfg, w, actions).db.universities && NoneAsks(actions, k, w.db.registry[k].hash)
    ensures var after := Run(cfg, w, actions).db.registry; k in after && !after[k].revoked && after[k].hash == w.db.registry[k].hash
  {
    hide Run;
    hide Inv;
    var v := Run(cfg, w, actions);
    RunKeeps(cfg, w, actions);
    EntryKept(cfg, w, v, k);
    if v.db.registry[k].revoked {
      RevokedOnRequest(cfg, w, actions, k);
    }
  }

  lemma EntryKept(cfg: Config, w: World, v: World, k: RegistryKey)
    requires Later(w, v) && k in w.db.registry && k.vuz in v.db.universities
    ensures k in v.db.registry && v.db.registry[k].hash == w.db.registry[k].hash
  {
  }

  // ---- what the public verifier answers ----

  /** Until someone asks for its revocation, an active diploma is never found anything but valid by code and number. */
  lemma {:induction false} SearchStaysValid(cfg: Config, w: World, actions: seq<Action>, k: RegistryKey, key: seq<byte>,
                                            pick: Option<RowKey>)
    requires Inv(cfg, w) && ConfigOk(cfg) && k in w.db.registry && !w.db.registry[k].revoked && NoneAsks(actions, k, w.db.registry[k].hash)
    requires var u := Run(cfg, w, actions).db.universities; k.vuz in u && Trim(u[k.vuz].code) == u[k.vuz].code != ""
    requires Trim(k.number) == k.number
    ensures var db := Run(cfg, w, actions).db;
            var r := V.Search(cfg.p, db, key, db.universities[k.vuz].code, k.number, pick);
            r.Success? ==> r.value.valid && r.value.status == V.Active
  {
    hide *;
    var v := Run(cfg, w, actions);
    ActiveStays(cfg, w, actions, k);
    RunKeeps(cfg, w, actions);
    Se.EntryParts(cfg, v, k);
    ActiveIsFoundValid(cfg.p, v.db, key, k, pick);
  }

  lemma ActiveIsFoundValid(p: Primitives, db: Db, key: seq<byte>, k: RegistryKey, pick: Option<RowKey>)
    requires V.Joined(db, k) && V.UniqueCodes(db.universities) && !db.registry[k].revoked && !Blank(k.number)
    requires Trim(db.universities[k.vuz].code) == db.universities[k.vuz].code != "" && Trim(k.number) == k.number
    ensures var r := V.Search(p, db, key, db.universities[k.vuz].code, k.number, pick);
            r.Success? ==> r.value.valid && r.value.status == V.Active
  {
    hide V.Search;
    hide Se.Tells;
    hide Trim;
    var code := db.universities[k.vuz].code;
    Se.SearchExactly(p, db, key, code, k.number, pick);
    assert Se.Names(db, k, code, k.number);
    if !Blank(Se.StoredToken(db, pick)) {
      if d :| Se.Tells(p, key, Se.StoredToken(db, pick), d) {
        assert V.Search(p, db, key, code, k.number, pick) == Success(Se.Told(db, k, d));
      } else {
        assert V.Search(p, db, key, code, k.number, pick).Failure?;
      }
    }
  }

  lemma StillCarries(p: Primitives, universities: Universities, after: Universities, key: seq<byte>, token: string, d: StudentDocument)
    requires A.Carries(p, universities, key, token, d) && S.PublicKeysKept(universities, after)
    requires A.Stated(A.ClaimsOf(p, token).value.vuzId) in after
    ensures A.Carries(p, after, key, token, d)
  {
    hide A.Holds;
    hide A.SignedFor;
    hide A.Recomputed;
    hide A.Folds;
  }

  /** Until someone asks for its revocation, every token that was answered valid for it is answered valid again, while
      the university it names and the diploma's own live. */
  lemma {:induction false} TokenStaysValid(cfg: Config, w: World, actions: seq<Action>, k: RegistryKey, key: seq<byte>,
                                           input: string, pick: Option<RowKey>, later: Option<RowKey>)
    requires Inv(cfg, w) && ConfigOk(cfg) && V.Joined(w.db, k) && NoneAsks(actions, k, w.db.registry[k].hash)
    requires var a := V.VerifyPayload(cfg.p, w.db, key, input, pick); a.Success? && a.value.valid && a.value.hash == w.db.registry[k].hash
    requires var u := Run(cfg, w, actions).db.universities;
             && k.vuz in u && A.ClaimsOf(cfg.p, Trim(input)).Some?
             && A.Stated(A.ClaimsOf(cfg.p, Trim(input)).value.vuzId) in u
    ensures var a := V.VerifyPayload(cfg.p, Run(cfg, w, actions).db, key, input, later);
            a.Success? && a.value.valid && a.value.hash == w.db.registry[k].hash
  {
    hide A.Carries;
    hide A.AnswerFrom;
    hide A.Recomputed;
    hide A.Stated;
    hide A.ClaimsOf;
    hide V.VerifyPayload;
    hide V.UniqueHashes;
    hide Trim;
    hide Run;
    hide Inv;
    hide Later;
    hide NoneAsks;
    hide S.PublicKeysKept;
    var v, token := Run(cfg, w, actions), Trim(input);
    RunKeeps(cfg, w, actions);
    TablesParts(cfg, w, v);
    A.AcceptedExactly(cfg.p, w.db, key, input, pick);
    A.AcceptedExactly(cfg.p, v.db, key, input, later);
    var d :| A.Carries(cfg.p, w.db.universities, key, token, d);
    StillCarries(cfg.p, w.db.universities, v.db.universities, key, token, d);
    ValidHash(cfg.p, w.db, key, input, pick, k, d);
    ActiveStays(cfg, w, actions, k);
    EntryIsJoined(v.db, k);
    AnswerParts(v.db, k, d);
  }

  lemma EntryIsJoined(db: Db, k: RegistryKey)
    requires k in db.registry && k.vuz in db.universities
    ensures V.Joined(db, k)
  {
  }

  lemma AnswerParts(db: Db, k: RegistryKey, d: StudentDocument)
    requires V.Joined(db, k)
    ensures A.AnswerFrom(db, k, d).valid <==> !db.registry[k].revoked
    ensures A.AnswerFrom(db, k, d).hash == db.registry[k].hash
  {
  }

  /** A valid answer is about a registered diploma that is not revoked, under the recomputed hash. */
  lemma ValidHash(p: Primitives, db: Db, key: seq<byte>, input: string, pick: Option<RowKey>, k: RegistryKey, d: StudentDocument)
    requires V.UniqueHashes(db.registry) && V.Joined(db, k) && A.Carries(p, db.universities, key, Trim(input), d)
    requires var a := V.VerifyPayload(p, db, key, input, pick); a.Success? && a.value.valid && a.value.hash == db.registry[k].hash
    ensures d.year >= 0 && A.ClaimsOf(p, Trim(input)).Some? && !db.registry[k].revoked
    ensures db.registry[k].hash == A.Recomputed(p, d, A.Stated(A.ClaimsOf(p, Trim(input)).value.vuzId))
  {
    hide A.Carries;
    hide A.AnswerFrom;
    hide A.Recomputed;
    hide A.Stated;
    hide A.ClaimsOf;
    hide V.VerifyPayload;
    hide V.UniqueHashes;
    hide Trim;
    A.AcceptedExactly(p, db, key, input, pick);
    var hash := A.Recomputed(p, d, A.Stated(A.ClaimsOf(p, Trim(input)).value.vuzId));
    if l :| V.Joined(db, l) && db.registry[l].hash == hash {
      AnswerParts(db, l, d);
      SameHashSameKey(db, k, l);
    }
  }

  lemma SameHashSameKey(db: Db, k: RegistryKey, l: RegistryKey)
    requires V.UniqueHashes(db.registry) && V.Joined(db, k) && V.Joined(db, l)
    ensures k in db.registry && l in db.registry && (db.registry[k].hash == db.registry[l].hash ==> k == l)
  {
  }

  lemma TablesParts(cfg: Config, w: World, v: World)
    requires Inv(cfg, w) && Inv(cfg, v) && Later(w, v)
    ensures V.UniqueHashes(w.db.registry) && V.UniqueHashes(v.db.registry)
    ensures S.PublicKeysKept(w.db.universities, v.db.universities)
  {
  }
}
