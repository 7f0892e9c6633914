/** The registry of hashes over whole runs: integrity, and revocation for good. */
module RegistryRuns {
  import opened Wrappers
  import opened Text
  import opened Crypto
  import opened Canonical
  import opened Tables
  import opened Protocol
  import opened ProtocolInvariant
  import opened ProtocolRuns
  import V = Verification

  /** The strings hashed for the records uploaded in a run: salts and canonical strings. */
  function HashedIn(p: Primitives, uploads: Uploads): set<string> {
    (set b, i | b in uploads && 0 <= i < |uploads[b].records| :: Issued(p, uploads[b].records[i], uploads[b].vuz))
    + (set b, i | b in uploads && 0 <= i < |uploads[b].records| :: SaltInput(uploads[b].vuz, uploads[b].records[i].number))
  }

  /** The diploma hash is SHA-256 of the canonical string. */
  ghost predicate Hashes(cfg: Config) {
    && LawfulHash(cfg.p)
    && forall s: Student, vuz: Uuid {:trigger cfg.hashOf(s, vuz)} :: cfg.hashOf(s, vuz) == IssuedHash(cfg.p, s, vuz)
  }

  ghost predicate Deployed(cfg: Config) {
    ConfigOk(cfg) && Hashes(cfg)
  }

  /** Uploaded records with the same hash have the same university and number. */
  lemma HashNamesDiploma(p: Primitives, uploads: Uploads, b: BatchId, i: nat, c: BatchId, j: nat)
    requires LawfulHash(p) && CollisionFree(p, HashedIn(p, uploads))
    requires b in uploads && i < |uploads[b].records| && !Blank(uploads[b].records[i].number)
    requires c in uploads && j < |uploads[c].records| && !Blank(uploads[c].records[j].number)
    requires IssuedHash(p, uploads[b].records[i], uploads[b].vuz) == IssuedHash(p, uploads[c].records[j], uploads[c].vuz)
    ensures uploads[b].vuz == uploads[c].vuz && uploads[b].records[i].number == uploads[c].records[j].number
  {
    var s, t := uploads[b].records[i], uploads[c].records[j];
    var hashed := HashedIn(p, uploads);
    assert Issued(p, s, uploads[b].vuz) in hashed && Issued(p, t, uploads[c].vuz) in hashed;
    assert SaltInput(uploads[b].vuz, s.number) in hashed && SaltInput(uploads[c].vuz, t.number) in hashed;
    hide HashedIn;
    CanonicalDetermines(p, s, uploads[b].vuz, t, uploads[c].vuz);
  }

  /** Each registered hash belongs to one (university, number), even across different points of a run. */
  lemma {:induction false} HashNamesKey(cfg: Config, registry: Registry, other: Registry, uploads: Uploads, k: RegistryKey, l: RegistryKey)
    requires Hashes(cfg) && CollisionFree(cfg.p, HashedIn(cfg.p, uploads))
    requires OriginsOk(cfg, registry, uploads) && OriginsOk(cfg, other, uploads)
    requires k in registry && l in other && registry[k].hash == other[l].hash
    ensures k == l
  {
    hide HashedIn;
    var b, i :| IsOrigin(cfg, uploads, b, i, k, registry[k].hash);
    var c, j :| IsOrigin(cfg, uploads, c, j, l, other[l].hash);
    HashNamesDiploma(cfg.p, uploads, b, i, c, j);
  }

  /** Registry integrity: over any run a (university, number) keeps its hash and a revocation for as long as the
      university lives, no two numbers share a hash, and every hash stems from an uploaded record of that number. */
  lemma RegistryIntegrity(cfg: Config, first: seq<Action>, more: seq<Action>)
    requires ConfigOk(cfg)
    ensures var w, v := Run(cfg, INITIAL, first), Run(cfg, INITIAL, first + more);
            && (forall k | k in w.db.registry && k.vuz in v.db.universities ::
                  k in v.db.registry && v.db.registry[k].hash == w.db.registry[k].hash
                  && (w.db.registry[k].revoked ==> v.db.registry[k].revoked))
            && V.UniqueHashes(v.db.registry) && OriginsOk(cfg, v.db.registry, v.uploads)
  {
    var w := Run(cfg, INITIAL, first);
    Reachable(cfg, first);
    RunKeeps(cfg, w, more);
    RunConcat(cfg, INITIAL, first, more);
  }

  lemma NewHashIsFree(cfg: Config, registry: Registry, uploads: Uploads, t: Task)
    requires Hashes(cfg) && CollisionFree(cfg.p, HashedIn(cfg.p, uploads)) && OriginsOk(cfg, registry, uploads)
    requires TaskOk(uploads, t) && !Blank(t.student.number) && TaskKey(t) !in registry
    ensures !HashTaken(registry, TaskHash(cfg, t))
  {
    hide HashedIn;
    if k :| k in registry && registry[k].hash == TaskHash(cfg, t) {
      var b, i :| IsOrigin(cfg, uploads, b, i, k, registry[k].hash);
      HashNamesDiploma(cfg.p, uploads, b, i, t.batch, t.index);
      assert false;
    }
  }

  /** Inserting a number the registry does not hold yet never violates the primary key `hash`. */
  lemma {:induction false} NewNumberIsInserted(cfg: Config, w: World, t: Task)
    requires Inv(cfg, w) && Hashes(cfg) && CollisionFree(cfg.p, HashedIn(cfg.p, w.uploads))
    requires TaskOk(w.uploads, t) && !Blank(t.student.number) && t.vuz in w.db.universities
    requires TaskKey(t) !in w.db.registry
    ensures InsertHash(w.db, TaskKey(t), TaskHash(cfg, t)).Success?
  {
    NewHashIsFree(cfg, w.db.registry, w.uploads, t);
  }

  // ---- revocation ----

  /** No entry with this hash is active. */
  ghost predicate Dead(registry: Registry, hash: string) {
    forall k | k in registry && registry[k].hash == hash :: registry[k].revoked
  }

  lemma RevokedStaysDead(cfg: Config, w: World, v: World, k: RegistryKey)
    requires Deployed(cfg) && Inv(cfg, w) && Inv(cfg, v) && Later(w, v) && CollisionFree(cfg.p, HashedIn(cfg.p, v.uploads))
    requires k in w.db.registry && w.db.registry[k].revoked
    ensures Dead(v.db.registry, w.db.registry[k].hash)
  {
    OriginsStay(cfg, w.db.registry, w.uploads, v.uploads);
    assert OwnersOk(v.db.registry, v.db.universities) && OriginsOk(cfg, v.db.registry, v.uploads);
    assert RegistryKept(w.db.registry, v.db.registry, v.db.universities);
    hide Inv;
    hide Later;
    hide HashedIn;
    forall l | l in v.db.registry && v.db.registry[l].hash == w.db.registry[k].hash ensures v.db.registry[l].revoked {
      HashNamesKey(cfg, w.db.registry, v.db.registry, v.uploads, k, l);
    }
  }

  lemma FoundIsJoined(db: Db, hash: string, code: string, number: string)
    ensures V.FindByHash(db, hash).Some? ==>
              V.Joined(db, V.FindByHash(db, hash).value) && db.registry[V.FindByHash(db, hash).value].hash == hash
    ensures V.FindByNumber(db, code, number).Some? ==>
              var k := V.FindByNumber(db, code, number).value;
              V.Joined(db, k) && db.universities[k.vuz].code == code && k.number == number
  {
  }

  lemma EnrichKeepsStatus(p: Primitives, key: seq<byte>, r: V.DiplomaRecord)
    requires V.Enrich(p, key, r).Success?
    ensures V.Enrich(p, key, r).value.status == r.status
  {
  }

  /** The hash of the diploma `Search` answers from. */
  ghost function SearchedHash(db: Db, code: string, number: string): Option<string> {
    var found := V.FindByNumber(db, Trim(code), Trim(number));
    if found.Some? && found.value in db.registry then Some(db.registry[found.value].hash) else None
  }

  lemma DeadPayload(p: Primitives, db: Db, key: seq<byte>, hash: string, input: string, pick: Option<RowKey>)
    requires Dead(db.registry, hash)
    ensures var r := V.VerifyPayload(p, db, key, input, pick); r.Success? && r.value.valid ==> r.value.hash != hash
  {
    hide V.CheckToken;
    FoundIsJoined(db, hash, "", "");
  }

  lemma DeadSearch(p: Primitives, db: Db, key: seq<byte>, hash: string, code: string, number: string, pick: Option<RowKey>)
    requires Dead(db.registry, hash)
    ensures var r := V.Search(p, db, key, code, number, pick);
            r.Success? && r.value.valid ==> SearchedHash(db, code, number) != Some(hash)
  {
    var found := V.FindByNumber(db, Trim(code), Trim(number));
    FoundIsJoined(db, hash, Trim(code), Trim(number));
    if found.Some? && V.Enrich(p, key, V.RecordAt(db, found.value, pick)).Success? {
      EnrichKeepsStatus(p, key, V.RecordAt(db, found.value, pick));
    }
    hide V.Enrich;
  }

  /** While the university lives, searching for the revoked diploma finds it, and it is not valid. */
  lemma LivingSearchIsInvalid(p: Primitives, db: Db, key: seq<byte>, k: RegistryKey, pick: Option<RowKey>)
    requires V.Joined(db, k) && db.registry[k].revoked && V.UniqueCodes(db.universities)
    requires Trim(db.universities[k.vuz].code) == db.universities[k.vuz].code && Trim(k.number) == k.number
    ensures var r := V.Search(p, db, key, db.universities[k.vuz].code, k.number, pick); r.Success? ==> !r.value.valid
  {
    var code := db.universities[k.vuz].code;
    FoundIsJoined(db, "", code, k.number);
    if V.FindByNumber(db, code, k.number).Some? {
      var found := V.FindByNumber(db, code, k.number).value;
      assert found == k;
      if V.Enrich(p, key, V.RecordAt(db, k, pick)).Success? {
        EnrichKeepsStatus(p, key, V.RecordAt(db, k, pick));
      }
    }
    hide V.Enrich;
  }

  function Revoking(first: seq<Action>, vuz: Uuid, hash: string, now: int, more: seq<Action>): seq<Action> {
    first + ([RevokeDiploma(vuz, hash, now)] + more)
  }

  lemma RevokedThen(cfg: Config, first: seq<Action>, vuz: Uuid, hash: string, now: int, more: seq<Action>)
    requires ConfigOk(cfg) && Revoke(Run(cfg, INITIAL, first).db, vuz, hash, now).Success?
    ensures var w := Next(cfg, Run(cfg, INITIAL, first), RevokeDiploma(vuz, hash, now));
            && Inv(cfg, w) && Run(cfg, INITIAL, Revoking(first, vuz, hash, now, more)) == Run(cfg, w, more)
            && exists k :: k in w.db.registry && k.vuz == vuz && w.db.registry[k].hash == hash && w.db.registry[k].revoked
  {
    var before, revoke := Run(cfg, INITIAL, first), RevokeDiploma(vuz, hash, now);
    RevokeMarks(cfg, before, vuz, hash, now);
    assert Run(cfg, before, [revoke][..0]) == before;
    assert Run(cfg, before, [revoke]) == Next(cfg, before, revoke);
    assert Revoking(first, vuz, hash, now, more) == first + ([revoke] + more);
    hide *;
    Reachable(cfg, first);
    RevokeStep(cfg, before, vuz, hash, now);
    RunConcat(cfg, INITIAL, first, [revoke] + more);
    RunConcat(cfg, before, [revoke], more);
  }

  lemma RevokeMarks(cfg: Config, w: World, vuz: Uuid, hash: string, now: int)
    requires Revoke(w.db, vuz, hash, now).Success?
    ensures var v := Next(cfg, w, RevokeDiploma(vuz, hash, now));
            exists k :: k in v.db.registry && k.vuz == vuz && v.db.registry[k].hash == hash && v.db.registry[k].revoked
  {
    var k :| k in w.db.registry && k.vuz == vuz && w.db.registry[k].hash == hash;
    assert k in Next(cfg, w, RevokeDiploma(vuz, hash, now)).db.registry;
  }

  /** Revocation is permanent: once a diploma is revoked, no later run, be it re-upload of the record, late or
      repeated results or deletion of the university, lets `VerifyPayload` report its hash valid, or lets
      `Search` answer valid from it. */
  lemma {:induction false} RevocationIsPermanent(cfg: Config, first: seq<Action>, vuz: Uuid, hash: string, now: int, more: seq<Action>,
                                                 key: seq<byte>, input: string, code: string, number: string, pick: Option<RowKey>)
    requires Deployed(cfg) && Revoke(Run(cfg, INITIAL, first).db, vuz, hash, now).Success?
    requires CollisionFree(cfg.p, HashedIn(cfg.p, Run(cfg, INITIAL, Revoking(first, vuz, hash, now, more)).uploads))
    ensures var db := Run(cfg, INITIAL, Revoking(first, vuz, hash, now, more)).db;
            && var answer := V.VerifyPayload(cfg.p, db, key, input, pick);
            && (answer.Success? && answer.value.valid ==> answer.value.hash != hash)
            && var found := V.Search(cfg.p, db, key, code, number, pick);
            && (found.Success? && found.value.valid ==> SearchedHash(db, code, number) != Some(hash))
  {
    hide *;
    DeployedConfig(cfg);
    RevokedThen(cfg, first, vuz, hash, now, more);
    StaysInvalid(cfg, Next(cfg, Run(cfg, INITIAL, first), RevokeDiploma(vuz, hash, now)), more, vuz, hash, key, input, code, number, pick);
  }

  lemma DeployedConfig(cfg: Config)
    requires Deployed(cfg)
    ensures ConfigOk(cfg)
  {
  }

  lemma StaysInvalid(cfg: Config, w: World, more: seq<Action>, vuz: Uuid, hash: string, key: seq<byte>,
                     input: string, code: string, number: string, pick: Option<RowKey>)
    requires Deployed(cfg) && Inv(cfg, w) && CollisionFree(cfg.p, HashedIn(cfg.p, Run(cfg, w, more).uploads))
    requires exists k :: k in w.db.registry && k.vuz == vuz && w.db.registry[k].hash == hash && w.db.registry[k].revoked
    ensures var db := Run(cfg, w, more).db;
            && var answer := V.VerifyPayload(cfg.p, db, key, input, pick);
            && (answer.Success? && answer.value.valid ==> answer.value.hash != hash)
            && var found := V.Search(cfg.p, db, key, code, number, pick);
            && (found.Success? && found.value.valid ==> SearchedHash(db, code, number) != Some(hash))
  {
    assert ConfigOk(cfg);
    hide *;
    var k :| k in w.db.registry && k.vuz == vuz && w.db.registry[k].hash == hash && w.db.registry[k].revoked;
    var v := Run(cfg, w, more);
    RunKeeps(cfg, w, more);
    RevokedStaysDead(cfg, w, v, k);
    DeadPayload(cfg.p, v.db, key, hash, input, pick);
    DeadSearch(cfg.p, v.db, key, hash, code, number, pick);
  }

  /** While the university lives, a search by its code and the revoked number is not valid in any later world. */
  lemma {:induction false} RevokedSearchStaysInvalid(cfg: Config, w: World, more: seq<Action>, k: RegistryKey,
                                                     key: seq<byte>, pick: Option<RowKey>)
    requires ConfigOk(cfg) && Inv(cfg, w) && k in w.db.registry && w.db.registry[k].revoked && Trim(k.number) == k.number
    requires var u := Run(cfg, w, more).db.universities; k.vuz in u && Trim(u[k.vuz].code) == u[k.vuz].code
    ensures var db := Run(cfg, w, more).db;
            var r := V.Search(cfg.p, db, key, db.universities[k.vuz].code, k.number, pick); r.Success? ==> !r.value.valid
  {
    var v := Run(cfg, w, more);
    RunKeeps(cfg, w, more);
    RegistryAtLeast(cfg, w, v, k);
    hide *;
    LivingSearchIsInvalid(cfg.p, v.db, key, k, pick);
  }

  lemma RegistryAtLeast(cfg: Config, w: World, v: World, k: RegistryKey)
    requires Inv(cfg, v) && Later(w, v) && k in w.db.registry && k.vuz in v.db.universities
    ensures V.Joined(v.db, k) && v.db.registry[k].hash == w.db.registry[k].hash && V.UniqueCodes(v.db.universities)
    ensures w.db.registry[k].revoked ==> v.db.registry[k].revoked
  {
  }
}
